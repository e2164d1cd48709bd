/** What the settings of a section mean, in terms of the lines, words and numbers of the file. */
module ConfigMeaning {
  import opened Strings
  import opened Params
  import opened IniInteger
  import opened IniSuffixes
  import opened IniReader
  import opened WorkerConfig

  // ---- words in any letter case -----------------------------------------------------------------

  /** `text` is the lower-case word `word`, some of its letters perhaps in upper case. */
  predicate SameLetters(text: string, word: string) {
    && |text| == |word|
    && forall i | 0 <= i < |text| ::
         text[i] == word[i] || ('A' <= text[i] <= 'Z' && word[i] as int == text[i] as int + 32)
  }

  predicate IsLower(word: string) {
    forall i | 0 <= i < |word| :: !('A' <= word[i] <= 'Z')
  }

  lemma {:induction false} LowerAt(s: string)
    ensures |ToLower(s)| == |s|
    ensures forall i | 0 <= i < |s| ::
              ToLower(s)[i] as int == s[i] as int + if 'A' <= s[i] <= 'Z' then 32 else 0
  {
    if s != "" {
      LowerAt(s[1..]);
    }
  }

  lemma LowerIs(text: string, word: string)
    requires IsLower(word)
    ensures ToLower(text) == word <==> SameLetters(text, word)
  {
    hide ToLower;
    LowerAt(text);
    if SameLetters(text, word) {
      forall i | 0 <= i < |text|
        ensures ToLower(text)[i] == word[i]
      {
        assert !('A' <= word[i] <= 'Z');
      }
    }
  }

  predicate SaysYes(text: string) {
    SameLetters(text, "true") || SameLetters(text, "yes") || SameLetters(text, "on") || SameLetters(text, "1")
  }

  lemma YesIs(text: string)
    ensures ToLower(text) in {"true", "yes", "on", "1"} <==> SaysYes(text)
  {
    hide ToLower, SameLetters;
    assert IsLower("true") && IsLower("yes") && IsLower("on") && IsLower("1");
    hide IsLower;
    LowerIs(text, "true");
    LowerIs(text, "yes");
    LowerIs(text, "on");
    LowerIs(text, "1");
  }

  lemma BooleanIs(values: Settings, section: string, name: string)
    ensures BooleanSetting(values, section, name, false)
            <==> Lookup(values, section, name).Some? && SaysYes(Lookup(values, section, name).value)
  {
    hide ToLower, SaysYes, Lookup;
    var text := Text(values, section, name);
    YesIs(text);
    assert ToLower("") == "" by { LowerAt(""); }
  }

  // ---- which sections are run ------------------------------------------------------------------------

  /** The file wants the section run: it is not the master's, and the last "run" in it says yes. */
  ghost predicate IsRun(lines: seq<string>, section: string) {
    && !SameLetters(section, "master")
    && exists i: nat, v :: Supplies(lines, i, section, "run", v) && SaysYes(v)
  }

  lemma LookupSupplies(lines: seq<string>, section: string, key: string, i: nat, v: string)
    requires Supplies(lines, i, section, key, v)
    ensures Lookup(Read(lines).values, section, key) == Some(v)
  {
    hide Read, Lookup, Assigns;
    LookupExact(lines, section, key);
    var found := Lookup(Read(lines).values, section, key);
    if found.Some? {
      var j: nat :| Supplies(lines, j, section, key, found.value);
      assert Assigns(lines, i, section, key) && Assigns(lines, j, section, key);
      AssignsWithin(lines, section, key, i);
      AssignsWithin(lines, section, key, j);
      assert i == j;
    }
  }

  lemma AssignsWithin(lines: seq<string>, section: string, key: string, i: nat)
    requires Assigns(lines, i, section, key)
    ensures i < |lines|
  {
  }

  lemma SelectedIsRun(lines: seq<string>, section: string)
    ensures Selected(Read(lines).values, section) <==> IsRun(lines, section)
  {
    var values := Read(lines).values;
    hide Read, Lookup, ToLower, SaysYes, SameLetters, BooleanSetting, Supplies;
    BooleanIs(values, section, "run");
    LowerIs(section, "master");
    LookupExact(lines, section, "run");
    forall i: nat, v | Supplies(lines, i, section, "run", v)
      ensures Lookup(values, section, "run") == Some(v)
    {
      LookupSupplies(lines, section, "run", i, v);
    }
  }

  /**
   The list of workers from the lines of the file: if every section to be run is valid, it
   holds, in file order, exactly the sections that the file wants run.
   */
  lemma RunExact(lines: seq<string>, build: Build) returns (places: seq<nat>)
    requires AllValid(Read(lines).values, build, Read(lines).sections)
    ensures var c := Read(lines);
            && (forall j, k | 0 <= j < k < |places| :: places[j] < places[k])
            && (forall i: nat :: i in places <==> i < |c.sections| && IsRun(lines, c.sections[i]))
            && Holds(c.values, build, c.sections, places, Chosen(c.values, build, c.sections))
  {
    hide Read, Selected, IsRun, Holds, Chosen;
    var c := Read(lines);
    places := ChosenExact(c.values, build, c.sections);
    forall i: nat | i < |c.sections|
      ensures Selected(c.values, c.sections[i]) <==> IsRun(lines, c.sections[i])
    {
      SelectedIsRun(lines, c.sections[i]);
    }
  }

  /** Valid or not, no section is in the list that the file does not want run. */
  lemma {:induction false} OnlyRunIsChosen(lines: seq<string>, build: Build, sections: seq<string>)
    ensures forall p | p in Chosen(Read(lines).values, build, sections) :: IsRun(lines, p.myName)
  {
    if sections != [] {
      hide Read, Selected, IsRun, ValidSection;
      OnlyRunIsChosen(lines, build, sections[..|sections| - 1]);
      SelectedIsRun(lines, sections[|sections| - 1]);
    }
  }

  /** In particular a section none of whose lines assigns to "run" is never started. */
  lemma NeverByDefault(lines: seq<string>, build: Build, section: string)
    ensures (forall i: nat :: !Assigns(lines, i, section, "run")) ==>
              var c := Read(lines);
              forall p | p in Chosen(c.values, build, c.sections) :: p.myName != section
  {
    hide Read, Chosen, Assigns, SaysYes, SameLetters;
    OnlyRunIsChosen(lines, build, Read(lines).sections);
  }

  // ---- words for databases and input files ---------------------------------------------------------------

  predicate SaysMysql(text: string) {
    SameLetters(text, "mysql") || SameLetters(text, "mariadb")
  }

  predicate SaysPgsql(text: string) {
    SameLetters(text, "pgsql") || SameLetters(text, "postgres") || SameLetters(text, "postgresql")
  }

  lemma WordsAreLower()
    ensures IsLower("mysql") && IsLower("mariadb") && IsLower("pgsql") && IsLower("sql")
    ensures IsLower("postgres") && IsLower("postgresql")
  {
  }

  lemma EmptyIsLower(text: string)
    ensures ToLower(text) == "" <==> text == ""
  {
    LowerAt(text);
  }

  lemma DbTypeExact(values: Settings, section: string)
    ensures var db := DbTypeSetting(values, section);
            match Lookup(values, section, "dbtype")
            case None => db == eMYSQL
            case Some(v) => v != "" ==> (db == eMYSQL <==> SaysMysql(v)) && (db == ePGSQL <==> SaysPgsql(v))
  {
    hide ToLower, SameLetters, Lookup;
    var text := Text(values, section, "dbtype");
    WordsAreLower();
    hide IsLower;
    EmptyIsLower(text);
    LowerIs(text, "mysql");
    LowerIs(text, "mariadb");
    LowerIs(text, "pgsql");
    LowerIs(text, "postgres");
    LowerIs(text, "postgresql");
  }

  lemma InfileTypeExact(values: Settings, section: string)
    ensures InfileTypeSetting(values, section) == eSQL
            <==> match Lookup(values, section, "infiletype")
                 case None => true
                 case Some(v) => v == "" || SameLetters(v, "sql")
  {
    hide ToLower, SameLetters, Lookup;
    var text := Text(values, section, "infiletype");
    WordsAreLower();
    hide IsLower;
    EmptyIsLower(text);
    LowerIs(text, "sql");
  }

  lemma ShuffleExact(values: Settings, build: Build, section: string)
    ensures ValidSection(values, build, section) ==>
              (Configured(values, build, section).shuffle
               <==> Lookup(values, section, "shuffle").Some? && SaysYes(Lookup(values, section, "shuffle").value))
  {
    hide ValidSection, Lookup, SaysYes, BooleanSetting;
    BooleanIs(values, section, "shuffle");
  }

  // ---- defaults and ranges ---------------------------------------------------------------------------------

  ghost predicate Unset(values: Settings, section: string, name: string) {
    Lookup(values, section, name) == None
  }

  lemma UnsetDefault(values: Settings, section: string, name: string, defaultValue: int)
    ensures Unset(values, section, name) ==> IntegerSetting(values, section, name, defaultValue) == Value(defaultValue)
    ensures Unset(values, section, name) ==> !BooleanSetting(values, section, name, false)
  {
    hide Lookup, ToLower;
    assert ToLower("") == "" by { LowerAt(""); }
  }

  /** A section that sets nothing is a MySQL worker with these parameters. */
  lemma DefaultsExact(values: Settings, build: Build, section: string)
    ensures (forall name :: Unset(values, section, name)) ==>
              && (ValidSection(values, build, section) <==> build.haveMysql)
              && (ValidSection(values, build, section) ==>
                    Configured(values, build, section)
                    == WorkerParams(section, eMYSQL, eSQL, 3306, 10, 10000, 1073741824, 0, 60, false))
  {
    if forall name :: Unset(values, section, name) {
      DbTypeExact(values, section);
      InfileTypeExact(values, section);
      assert Unset(values, section, "dbtype") && Unset(values, section, "infiletype");
      hide DbTypeSetting, InfileTypeSetting, IntegerSetting, BooleanSetting, Lookup;
      UnsetDefault(values, section, "port", 3306);
      UnsetDefault(values, section, "threads", 10);
      UnsetDefault(values, section, "queries-per-thread", 10000);
      UnsetDefault(values, section, "query-list-maxsize", 1073741824);
      UnsetDefault(values, section, "timeout", 0);
      UnsetDefault(values, section, "connect-timeout", 60);
      UnsetDefault(values, section, "shuffle", 0);
    }
  }

  lemma OthersDefault(values: Settings, section: string, name: string, defaultValue: int)
    requires name != "" && forall other | other != "dbtype" :: Unset(values, section, other)
    ensures name[0] != 'd' ==> IntegerSetting(values, section, name, defaultValue) == Value(defaultValue)
    ensures name[0] != 'd' ==> !BooleanSetting(values, section, name, false)
    ensures name[0] != 'd' ==> Unset(values, section, name)
  {
    hide IntegerSetting, BooleanSetting, Unset;
    assert "dbtype"[0] == 'd';
    UnsetDefault(values, section, name, defaultValue);
  }

  /** The same with a PostgreSQL database: it has another port. */
  lemma PgsqlDefaults(values: Settings, build: Build, section: string)
    requires forall other | other != "dbtype" :: Unset(values, section, other)
    ensures DbTypeSetting(values, section) == ePGSQL ==>
              && (ValidSection(values, build, section) <==> build.havePgsql)
              && (ValidSection(values, build, section) ==>
                    Configured(values, build, section)
                    == WorkerParams(section, ePGSQL, eSQL, 5432, 10, 10000, 1073741824, 0, 60, false))
  {
    InfileTypeExact(values, section);
    hide DbTypeSetting, InfileTypeSetting, IntegerSetting, BooleanSetting, Lookup;
    OthersDefault(values, section, "infiletype", 0);
    hide Unset;
    OthersDefault(values, section, "port", 5432);
    OthersDefault(values, section, "threads", 10);
    OthersDefault(values, section, "queries-per-thread", 10000);
    OthersDefault(values, section, "query-list-maxsize", 1073741824);
    OthersDefault(values, section, "timeout", 0);
    OthersDefault(values, section, "connect-timeout", 60);
    OthersDefault(values, section, "shuffle", 0);
  }

  ghost predicate Says(values: Settings, section: string, name: string, n: int) {
    Lookup(values, section, name) == Some(Decimal(n))
  }

  lemma SaysNumber(values: Settings, section: string, name: string, defaultValue: int, n: int)
    ensures Says(values, section, name, n) ==>
              IntegerSetting(values, section, name, defaultValue)
              == if -9223372036854775808 <= n <= 9223372036854775807 then Value(n) else InvalidArgument
  {
    PlainExact(n);
    assert Decimal(n) != "";
    hide IntegerOf, Decimal, Lookup;
  }

  /** Each number in its range, and no other, is accepted, and taken over as it is. */
  lemma RangesExact(values: Settings, build: Build, section: string, name: string, n: int)
    requires build.haveMysql
    requires Says(values, section, name, n) && forall other | other != name :: Unset(values, section, other)
    ensures name == "port" ==>
              && (ValidSection(values, build, section) <==> 1 <= n <= 65535)
              && (ValidSection(values, build, section) ==> Configured(values, build, section).port == n)
    ensures name == "threads" ==>
              && (ValidSection(values, build, section) <==> 1 <= n <= 65535)
              && (ValidSection(values, build, section) ==> Configured(values, build, section).threads == n)
    ensures name == "queries-per-thread" ==>
              && (ValidSection(values, build, section) <==> 0 <= n <= 9223372036854775807)
              && (ValidSection(values, build, section) ==> Configured(values, build, section).queriesPerThread == n)
    ensures name == "query-list-maxsize" ==>
              && (ValidSection(values, build, section) <==> 0 <= n <= 9223372036854775807)
              && (ValidSection(values, build, section) ==> Configured(values, build, section).queryListMaxsize == n)
    ensures name == "timeout" ==>
              && (ValidSection(values, build, section) <==> 0 <= n <= 4294967295)
              && (ValidSection(values, build, section) ==> Configured(values, build, section).timeoutSecs == n)
    ensures name == "connect-timeout" ==>
              && (ValidSection(values, build, section) <==> 0 <= n <= 4294967295)
              && (ValidSection(values, build, section) ==> Configured(values, build, section).connectTimeoutSecs == n)
  {
    if name !in {"dbtype", "infiletype"} {
      DbTypeExact(values, section);
      InfileTypeExact(values, section);
      assert Unset(values, section, "dbtype") && Unset(values, section, "infiletype");
    }
    hide DbTypeSetting, InfileTypeSetting, IntegerSetting, BooleanSetting, Lookup, Says, Unset, Decimal;
    hide SaysMysql, SaysPgsql, SameLetters;
    OneSetting(values, section, "port", 3306, name, n);
    OneSetting(values, section, "threads", 10, name, n);
    OneSetting(values, section, "queries-per-thread", 10000, name, n);
    OneSetting(values, section, "query-list-maxsize", 1073741824, name, n);
    OneSetting(values, section, "timeout", 0, name, n);
    OneSetting(values, section, "connect-timeout", 60, name, n);
  }

  lemma OneSetting(values: Settings, section: string, key: string, defaultValue: int, name: string, n: int)
    requires Says(values, section, name, n) && forall other | other != name :: Unset(values, section, other)
    ensures IntegerSetting(values, section, key, defaultValue)
            == if key != name then Value(defaultValue)
               else if -9223372036854775808 <= n <= 9223372036854775807 then Value(n) else InvalidArgument
  {
    hide IntegerSetting, BooleanSetting;
    SaysNumber(values, section, name, defaultValue, n);
    UnsetDefault(values, section, key, defaultValue);
  }
}
