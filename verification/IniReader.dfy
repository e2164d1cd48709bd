/** A whole configuration file: sections, settings, and the first malformed line. */
module IniReader {
  import opened Strings
  import opened IniGrammar
  import opened IniInteger

  type Settings = map<string, map<string, string>>

  datatype Config = Config(sections: seq<string>, values: Settings, error: int, current: string)

  const BLANK_CONFIG := Config([], map[], 0, "")

  function Store(values: Settings, section: string, key: string, value: string): Settings {
    values[section := (if section in values then values[section] else map[])[key := value]]
  }

  function Lookup(values: Settings, section: string, key: string): Option<string> {
    if section in values && key in values[section] then Some(values[section][key]) else None
  }

  lemma LookupStored(values: Settings, section: string, key: string, value: string, s: string, k: string)
    ensures Lookup(Store(values, section, key, value), s, k)
            == if s == section && k == key then Some(value) else Lookup(values, s, k)
  {
  }

  function ReadLine(c: Config, line: string, lineNo: int): Config {
    match Classify(line)
    case Skipped => c
    case Section(name) => c.(sections := c.sections + [name], current := name)
    case Pair(key, value) => c.(values := Store(c.values, c.current, key, value))
    case Malformed => if c.error == 0 then c.(error := lineNo) else c
  }

  /** All that the lines leave behind, read from the first to the last. */
  function Read(lines: seq<string>): Config {
    if lines == [] then BLANK_CONFIG
    else ReadLine(Read(lines[..|lines| - 1]), lines[|lines| - 1], |lines|)
  }

  lemma ReadMore(lines: seq<string>, line: string)
    ensures Read(lines + [line]) == ReadLine(Read(lines), line, |lines| + 1)
  {
    assert (lines + [line])[..|lines|] == lines;
  }

  // ---- malformed lines ------------------------------------------------------------------------

  predicate Bad(line: string) {
    Classify(line) == Malformed
  }

  function WithoutBad(lines: seq<string>): seq<string> {
    if lines == [] then []
    else
      var init, last := lines[..|lines| - 1], lines[|lines| - 1];
      if Bad(last) then WithoutBad(init) else WithoutBad(init) + [last]
  }

  /** Malformed lines change nothing but the error, and without them there is none. */
  lemma {:induction false} MalformedLinesOnlyReported(lines: seq<string>)
    ensures Read(WithoutBad(lines)) == Read(lines).(error := 0)
  {
    if lines != [] {
      hide Classify, Store;
      var init, last := lines[..|lines| - 1], lines[|lines| - 1];
      MalformedLinesOnlyReported(init);
      ReadMore(WithoutBad(init), last);
    }
  }

  /** The error is the number of the first malformed line, zero if there is none. */
  lemma {:induction false} ErrorIsFirstBad(lines: seq<string>)
    ensures var e := Read(lines).error;
            && 0 <= e <= |lines|
            && (forall i | 0 <= i < |lines| && (e == 0 || i < e - 1) :: !Bad(lines[i]))
            && (e > 0 ==> Bad(lines[e - 1]))
  {
    if lines != [] {
      var init, last := lines[..|lines| - 1], lines[|lines| - 1];
      ErrorIsFirstBad(init);
      assert Read(lines).error == if Read(init).error == 0 && Bad(last) then |lines| else Read(init).error;
      hide Read, Bad;
    }
  }

  // ---- what a lookup finds ------------------------------------------------------------------------

  predicate Names(line: string, section: string) {
    Classify(line) == Section(section)
  }

  predicate IsHeader(line: string) {
    Classify(line).Section?
  }

  predicate NoHeaderIn(lines: seq<string>, from: nat, to: nat)
    requires to <= |lines|
  {
    forall j | from <= j < to :: !IsHeader(lines[j])
  }

  /** Line `h` is the nearest header before line `n`, and it names the section. */
  predicate Heads(lines: seq<string>, h: nat, n: nat, section: string)
    requires n <= |lines|
  {
    h < n && Names(lines[h], section) && NoHeaderIn(lines, h + 1, n)
  }

  /** A line behind the first `n` lines belongs to `section`: the nearest header says so, or there is none. */
  ghost predicate InSection(lines: seq<string>, n: nat, section: string)
    requires n <= |lines|
  {
    || (section == "" && NoHeaderIn(lines, 0, n))
    || exists h: nat :: Heads(lines, h, n, section)
  }

  predicate Sets(line: string, key: string) {
    Classify(line).Pair? && Classify(line).key == key
  }

  ghost predicate Assigns(lines: seq<string>, i: nat, section: string, key: string) {
    i < |lines| && Sets(lines[i], key) && InSection(lines, i, section)
  }

  ghost predicate LastAssignment(lines: seq<string>, i: nat, section: string, key: string) {
    && Assigns(lines, i, section, key)
    && forall j | i < j < |lines| :: !Assigns(lines, j, section, key)
  }

  /** Line `i` is the last to assign to the key, and it assigns this value. */
  ghost predicate Supplies(lines: seq<string>, i: nat, section: string, key: string, value: string) {
    LastAssignment(lines, i, section, key) && Classify(lines[i]).value == value
  }

  lemma InSectionGrows(lines: seq<string>, line: string, n: nat, section: string)
    requires n <= |lines|
    ensures InSection(lines + [line], n, section) <==> InSection(lines, n, section)
  {
    hide Classify, Names, IsHeader;
    var more := lines + [line];
    assert forall j | 0 <= j < n :: more[j] == lines[j];
    assert forall h: nat :: Heads(more, h, n, section) <==> Heads(lines, h, n, section);
  }

  lemma InSectionNext(lines: seq<string>, line: string, section: string)
    ensures InSection(lines + [line], |lines| + 1, section)
            <==> Names(line, section) || (!IsHeader(line) && InSection(lines, |lines|, section))
  {
    var more, n: nat, m: nat := lines + [line], |lines|, |lines| + 1;
    assert more[n] == line;
    assert forall j | 0 <= j < n :: more[j] == lines[j];
    assert Names(line, section) ==> IsHeader(line);
    hide Classify, Names, IsHeader;
    forall h: nat
      ensures Heads(more, h, m, section)
              <==> (h == n && Names(line, section)) || (!IsHeader(line) && Heads(lines, h, n, section))
    {
    }
    assert NoHeaderIn(more, 0, m) <==> !IsHeader(line) && NoHeaderIn(lines, 0, n);
    hide Heads, NoHeaderIn;
    if Names(line, section) {
      assert Heads(more, n, m, section);
      assert InSection(more, m, section);
    }
    if !IsHeader(line) && InSection(lines, n, section) {
      assert InSection(more, m, section);
    }
    if InSection(more, m, section) {
      assert Names(line, section) || (!IsHeader(line) && InSection(lines, n, section));
    }
  }

  /** The section that is current after the lines is the one a further line would belong to. */
  lemma {:induction false} CurrentExact(lines: seq<string>, section: string)
    ensures InSection(lines, |lines|, section) <==> Read(lines).current == section
  {
    if lines != [] {
      var init, last := lines[..|lines| - 1], lines[|lines| - 1];
      CurrentExact(init, section);
      InSectionNext(init, last, section);
      assert init + [last] == lines;
      hide Store, InSection;
    }
  }

  lemma AssignsGrows(lines: seq<string>, line: string, section: string, key: string)
    ensures forall i: nat | i < |lines| ::
              Assigns(lines + [line], i, section, key) <==> Assigns(lines, i, section, key)
    ensures Assigns(lines + [line], |lines|, section, key) <==> Sets(line, key) && Read(lines).current == section
  {
    var more := lines + [line];
    forall i: nat | i <= |lines|
      ensures InSection(more, i, section) <==> InSection(lines, i, section)
    {
      InSectionGrows(lines, line, i, section);
    }
    CurrentExact(lines, section);
    assert more[|lines|] == line;
    assert forall i: nat | i < |lines| :: more[i] == lines[i];
    hide InSection, Sets, Read;
  }

  lemma SuppliesGrows(lines: seq<string>, line: string, section: string, key: string, i: nat, value: string)
    requires !(Sets(line, key) && Read(lines).current == section)
    requires Supplies(lines, i, section, key, value)
    ensures Supplies(lines + [line], i, section, key, value)
  {
    AssignsGrows(lines, line, section, key);
    assert (lines + [line])[i] == lines[i];
    hide InSection, Read;
  }

  lemma LastLineSupplies(lines: seq<string>, line: string, section: string, key: string)
    requires Sets(line, key) && Read(lines).current == section
    ensures Supplies(lines + [line], |lines|, section, key, Classify(line).value)
  {
    AssignsGrows(lines, line, section, key);
    hide InSection, Read;
  }

  lemma NoneStays(lines: seq<string>, line: string, section: string, key: string)
    requires !(Sets(line, key) && Read(lines).current == section)
    requires forall i: nat :: !Assigns(lines, i, section, key)
    ensures forall i: nat :: !Assigns(lines + [line], i, section, key)
  {
    AssignsGrows(lines, line, section, key);
    assert forall i: nat | Assigns(lines + [line], i, section, key) :: i < |lines| + 1;
    hide Assigns, Read, Sets;
  }

  /**
   A lookup finds the value of the last line that assigns to this key in this section,
   and finds nothing exactly if no line does. What it finds is never empty.
   */
  lemma {:induction false} LookupExact(lines: seq<string>, section: string, key: string)
    ensures match Lookup(Read(lines).values, section, key)
            case None => forall i: nat :: !Assigns(lines, i, section, key)
            case Some(v) => v != "" && exists i: nat :: Supplies(lines, i, section, key, v)
  {
    if lines != [] {
      var init, last := lines[..|lines| - 1], lines[|lines| - 1];
      assert init + [last] == lines;
      LookupExact(init, section, key);
      ReadSets(init, last, section, key);
      var before := Lookup(Read(init).values, section, key);
      hide Classify, Assigns, Read, Lookup, Supplies;
      if Sets(last, key) && Read(init).current == section {
        PairIsGood(last);
        LastLineSupplies(init, last, section, key);
      } else if before.Some? {
        var i: nat :| Supplies(init, i, section, key, before.value);
        SuppliesGrows(init, last, section, key, i, before.value);
      } else {
        NoneStays(init, last, section, key);
      }
    }
  }

  lemma ReadSets(lines: seq<string>, line: string, section: string, key: string)
    ensures Lookup(Read(lines + [line]).values, section, key)
            == if Sets(line, key) && Read(lines).current == section then Some(Classify(line).value)
               else Lookup(Read(lines).values, section, key)
  {
    ReadMore(lines, line);
    hide Classify, Read;
  }

  // ---- printing a configuration and reading it back -----------------------------------------------

  datatype Entry = Entry(key: string, value: string)

  datatype Group = Group(name: string, entries: seq<Entry>)

  function PrintEntries(entries: seq<Entry>): seq<string> {
    if entries == [] then []
    else
      var last := entries[|entries| - 1];
      PrintEntries(entries[..|entries| - 1]) + [PrintPair(last.key, last.value)]
  }

  function PrintConfig(groups: seq<Group>): seq<string> {
    if groups == [] then []
    else
      var last := groups[|groups| - 1];
      PrintConfig(groups[..|groups| - 1]) + [PrintSection(last.name)] + PrintEntries(last.entries)
  }

  /** The printed line is read back as this entry; PairRoundTrip says exactly when. */
  predicate GoodEntry(e: Entry) {
    && IsKey(e.key) && IsValue(e.value) && '\n' !in e.key && '\n' !in e.value
    && !IsComment(PrintPair(e.key, e.value)) && SectionName(PrintPair(e.key, e.value)).None?
  }

  predicate GoodGroup(g: Group) {
    && IsSectionName(g.name) && '\n' !in g.name
    && forall j | 0 <= j < |g.entries| :: GoodEntry(g.entries[j])
  }

  predicate WellFormed(groups: seq<Group>) {
    forall i | 0 <= i < |groups| :: GoodGroup(groups[i])
  }

  function GroupNames(groups: seq<Group>): seq<string> {
    if groups == [] then [] else GroupNames(groups[..|groups| - 1]) + [groups[|groups| - 1].name]
  }

  function LastEntry(entries: seq<Entry>, key: string): Option<string> {
    if entries == [] then None
    else if entries[|entries| - 1].key == key then Some(entries[|entries| - 1].value)
    else LastEntry(entries[..|entries| - 1], key)
  }

  /** The value the configuration gives to the key: the last one counts. */
  function ValueOf(groups: seq<Group>, section: string, key: string): Option<string> {
    if groups == [] then None
    else
      var last := groups[|groups| - 1];
      if last.name == section && LastEntry(last.entries, key).Some? then LastEntry(last.entries, key)
      else ValueOf(groups[..|groups| - 1], section, key)
  }

  lemma {:induction false} ReadEntries(lines: seq<string>, entries: seq<Entry>, section: string, key: string)
    requires forall j | 0 <= j < |entries| :: GoodEntry(entries[j])
    ensures var c := Read(lines);
            var d := Read(lines + PrintEntries(entries));
            && d.sections == c.sections && d.current == c.current && d.error == c.error
            && Lookup(d.values, section, key)
               == (if c.current == section && LastEntry(entries, key).Some? then LastEntry(entries, key)
                   else Lookup(c.values, section, key))
    ensures NoNewline(PrintEntries(entries))
  {
    if entries == [] {
      assert lines + PrintEntries(entries) == lines;
    } else {
      var init, last := entries[..|entries| - 1], entries[|entries| - 1];
      ReadEntries(lines, init, section, key);
      var line := PrintPair(last.key, last.value);
      GoodEntryReads(last);
      hide Classify, Read, GoodEntry, Lookup, Store, PrintPair;
      Assoc(lines, PrintEntries(init), [line]);
      ReadMore(lines + PrintEntries(init), line);
      var c := Read(lines + PrintEntries(init));
      LookupStored(c.values, c.current, last.key, last.value, section, key);
    }
  }

  lemma GoodEntryReads(e: Entry)
    requires GoodEntry(e)
    ensures Classify(PrintPair(e.key, e.value)) == Pair(e.key, e.value)
    ensures '\n' !in PrintPair(e.key, e.value)
  {
    PairRoundTrip(e.key, e.value);
  }

  /** A printed configuration is read back: no error, its sections in order, its values. */
  lemma {:induction false} ReadPrinted(groups: seq<Group>, section: string, key: string)
    requires WellFormed(groups)
    ensures var c := Read(PrintConfig(groups));
            && c.error == 0 && c.sections == GroupNames(groups)
            && Lookup(c.values, section, key) == ValueOf(groups, section, key)
    ensures NoNewline(PrintConfig(groups))
  {
    if groups != [] {
      var init, last := groups[..|groups| - 1], groups[|groups| - 1];
      ReadPrinted(init, section, key);
      var line := PrintSection(last.name);
      var head := PrintConfig(init) + [line];
      SectionRoundTrip(last.name);
      hide Classify, Lookup, PrintEntries, LastEntry, GoodEntry;
      ReadMore(PrintConfig(init), line);
      assert GoodGroup(last);
      hide GoodGroup;
      ReadEntries(head, last.entries, section, key);
      assert '\n' !in line;
      hide Read, PrintSection;
    }
  }

  lemma {:induction false} GetLinesUnlines(lines: seq<string>)
    requires NoNewline(lines)
    ensures GetLines(Unlines(lines)) == lines
  {
    if lines != [] {
      var f, rest := Unlines(lines), Unlines(lines[1..]);
      GetLinesUnlines(lines[1..]);
      LineLenUnique(f, |lines[0]|);
      assert f[..|lines[0]|] == lines[0] && f[|lines[0]| + 1..] == rest;
    }
  }

  /** The round trip through the file: what was written is what a reader of the file gets. */
  lemma FileRoundTrip(groups: seq<Group>, section: string, key: string)
    requires WellFormed(groups)
    ensures var c := Read(GetLines(Unlines(PrintConfig(groups))));
            && c.error == 0 && c.sections == GroupNames(groups)
            && Lookup(c.values, section, key) == ValueOf(groups, section, key)
  {
    ReadPrinted(groups, section, key);
    GetLinesUnlines(PrintConfig(groups));
  }

  // ---- the scanner as it runs ------------------------------------------------------------------------

  // Each of the three loops below counts its rounds in `rounds`.

  method SkipSpaces(line: string, start: nat) returns (pos: nat, ghost rounds: nat)
    requires start <= |line|
    ensures pos == SkipWs(line, start) && rounds == pos - start
  {
    pos, rounds := start, 0;
    while pos < |line| && IsSpace(line[pos])
      invariant start <= pos <= |line| && SkipWs(line, start) == SkipWs(line, pos)
      invariant rounds == pos - start
    {
      pos, rounds := pos + 1, rounds + 1;
    }
  }

  method SkipWord(line: string, start: nat) returns (pos: nat, ghost rounds: nat)
    requires start <= |line|
    ensures pos == WordEnd(line, start) && rounds == pos - start
  {
    pos, rounds := start, 0;
    while pos < |line| && !IsSpace(line[pos])
      invariant start <= pos <= |line| && WordEnd(line, start) == WordEnd(line, pos)
      invariant rounds == pos - start
    {
      pos, rounds := pos + 1, rounds + 1;
    }
  }

  method SkipKey(line: string, start: nat) returns (pos: nat, ghost rounds: nat)
    requires start <= |line|
    ensures pos == KeyEnd(line, start) && rounds == pos - start
  {
    pos, rounds := start, 0;
    while pos < |line| && line[pos] != ' ' && line[pos] != '\t' && line[pos] != '='
      invariant start <= pos <= |line| && KeyEnd(line, start) == KeyEnd(line, pos)
      invariant rounds == pos - start
    {
      pos, rounds := pos + 1, rounds + 1;
    }
  }

  /** `rounds` adds up the rounds of all loops: the cursor never goes back, so they are few. */
  method TryParseKeyValue(line: string) returns (r: Option<(string, string)>, ghost rounds: nat)
    ensures r == KeyValue(line)
    ensures rounds <= 2 * |line|
  {
    hide IsSpace, SkipWs, WordEnd, KeyEnd, ValueEnd, KeyValue;
    var n := |line|;
    ghost var more: nat;
    var i;
    i, rounds := SkipSpaces(line, 0);
    if i == n {
      NotEvenAKey(line);
      return None, rounds;
    }
    var kb := i;
    i, more := SkipKey(line, i + 1);
    rounds := rounds + more;
    var ke := i;
    var keyCandidate := line[kb..i];

    i, more := SkipSpaces(line, i);
    rounds := rounds + more;
    KeyValueFrom(line, kb, ke);
    if i == n || line[i] != '=' {
      return None, rounds;
    }
    var vb;
    vb, more := SkipSpaces(line, i + 1);
    rounds := rounds + more;
    if vb == n {
      return None, rounds;
    }
    i, more := SkipWord(line, vb);
    rounds := rounds + more;
    var ve := i;
    ghost var found := ValueEnd(line, i);
    while i < n
      invariant vb <= ve == i <= n && (i < n ==> IsSpace(line[i])) && found == ValueEnd(line, i)
      invariant rounds <= 2 * i
    {
      ValueStep(line, i);
      var ws := i;
      i, more := SkipSpaces(line, i);
      rounds := rounds + 1 + more;
      if i == n {
        break;
      }
      if i - ws != 1 {
        return None, rounds;
      }
      i, more := SkipWord(line, i);
      rounds := rounds + more;
      ve := i;
    }
    ValueStep(line, ve);
    return Some((keyCandidate, line[vb..ve])), rounds;
  }

  lemma ValueStep(line: string, ve: nat)
    requires ve <= |line|
    ensures var i := SkipWs(line, ve);
            ValueEnd(line, ve) == if i == |line| then Some(ve)
                                  else if i != ve + 1 then None
                                  else ValueEnd(line, WordEnd(line, i))
  {
  }

  lemma NotEvenAKey(line: string)
    requires SkipWs(line, 0) == |line|
    ensures KeyValue(line) == None
  {
  }

  /** KeyValue once the key has been found. */
  lemma KeyValueFrom(line: string, kb: nat, ke: nat)
    requires kb < |line| && SkipWs(line, 0) == kb && KeyEnd(line, kb + 1) == ke
    ensures var eq := SkipWs(line, ke);
            if eq == |line| || line[eq] != '=' then KeyValue(line) == None
            else
              var vb := SkipWs(line, eq + 1);
              if vb == |line| then KeyValue(line) == None
              else
                match ValueEnd(line, WordEnd(line, vb))
                case None => KeyValue(line) == None
                case Some(ve) => vb <= ve <= |line| && KeyValue(line) == Some((line[kb..ke], line[vb..ve]))
  {
    hide SkipWs, KeyEnd, WordEnd, IsSpace, ValueEnd;
    var eq := SkipWs(line, ke);
    if eq < |line| && line[eq] == '=' && SkipWs(line, eq + 1) < |line| {
      var vb := SkipWs(line, eq + 1);
      OneWord(line, vb, WordEnd(line, vb));
      ValueEndSound(line, vb, WordEnd(line, vb));
    }
  }

  method TryParseSection(line: string) returns (r: Option<string>)
    ensures r == SectionName(line)
  {
    var i, _ := SkipSpaces(line, 0);
    if i >= |line| || line[i] != '[' {
      return None;
    }
    var close := FindClose(line, i + 1);
    if close == |line| || close == i + 1 || close + 1 != |line| {
      return None;
    }
    return Some(line[i + 1..close]);
  }

  class INIReader {
    var error: int
    var sections: seq<string>
    var values: Settings

    /** Reads the whole file; None if it cannot be opened. */
    constructor (file: Option<string>)
      ensures file.None? ==> error == -1 && sections == [] && values == map[]
      ensures file.Some? ==>
                var c := Read(GetLines(file.value));
                error == c.error && sections == c.sections && values == c.values
    {
      error, sections, values := 0, [], map[];
      new;
      if file.None? {
        error := -1;
        return;
      }
      var lines := GetLines(file.value);
      var currentSection := "";
      var lineNo := 0;
      while lineNo < |lines|
        invariant lineNo <= |lines|
        invariant Config(sections, values, error, currentSection) == Read(lines[..lineNo])
      {
        hide Read, SectionName, KeyValue, IsComment, Store;
        var line := lines[lineNo];
        assert lines[..lineNo + 1] == lines[..lineNo] + [line];
        ReadMore(lines[..lineNo], line);
        lineNo := lineNo + 1;
        if IsBlankLine(line) || IsComment(line) {
          continue;
        }
        var name := TryParseSection(line);
        if name.Some? {
          currentSection := name.value;
          sections := sections + [currentSection];
          continue;
        }
        var pair, _ := TryParseKeyValue(line);
        if pair.Some? {
          values := Store(values, currentSection, pair.value.0, pair.value.1);
          continue;
        }
        if error == 0 {
          error := lineNo;
        }
      }
      assert lines[..lineNo] == lines;
    }

    function Get(section: string, name: string, defaultValue: string): (r: string)
      reads this
      ensures match Lookup(values, section, name)
              case None => r == defaultValue
              case Some(v) => r == if v != "" then v else defaultValue
    {
      if section !in values then defaultValue
      else if name !in values[section] then defaultValue
      else if values[section][name] != "" then values[section][name]
      else defaultValue
    }

    method GetInteger(section: string, name: string, defaultValue: int) returns (r: IntResult)
      ensures r == IntegerSetting(values, section, name, defaultValue)
    {
      var text := Get(section, name, "");
      if text == "" {
        return Value(defaultValue);
      }
      r := ReadInteger(text);
    }

    method GetBoolean(section: string, name: string, defaultValue: bool) returns (r: bool)
      ensures r == BooleanSetting(values, section, name, defaultValue)
    {
      var text := ToLower(Get(section, name, ""));
      if text == "true" || text == "yes" || text == "on" || text == "1" {
        return true;
      }
      if text == "false" || text == "no" || text == "off" || text == "0" {
        return false;
      }
      return defaultValue;
    }
  }

  /** The text of a setting, empty if it has none. */
  function Text(values: Settings, section: string, name: string): string {
    match Lookup(values, section, name)
    case Some(v) => v
    case None => ""
  }

  function IntegerSetting(values: Settings, section: string, name: string, defaultValue: int): IntResult {
    var text := Text(values, section, name);
    if text == "" then Value(defaultValue) else IntegerOf(text)
  }

  function ToLower(s: string): string {
    if s == "" then "" else [if 'A' <= s[0] <= 'Z' then s[0] + 32 as char else s[0]] + ToLower(s[1..])
  }

  function BooleanSetting(values: Settings, section: string, name: string, defaultValue: bool): bool {
    var text := ToLower(Text(values, section, name));
    if text in {"true", "yes", "on", "1"} then true
    else if text in {"false", "no", "off", "0"} then false
    else defaultValue
  }
}
