/** Worker parameters written as a configuration file come back from it unchanged. */
module ConfigRoundTrip {
  import opened Strings
  import opened Params
  import opened IniGrammar
  import opened IniInteger
  import opened IniReader
  import opened WorkerConfig

  // ---- writing the parameters ---------------------------------------------------------------------

  function EntriesOf(p: WorkerParams): seq<Entry>
    requires Storable(p)
  {
    [ Entry("run", "1"),
      Entry("dbtype", if p.dbtype.eMYSQL? then "mysql" else "pgsql"),
      Entry("infiletype", "sql"),
      Entry("port", Digits(p.port)),
      Entry("threads", Digits(p.threads)),
      Entry("queries-per-thread", Digits(p.queriesPerThread)),
      Entry("query-list-maxsize", Digits(p.queryListMaxsize)),
      Entry("timeout", Digits(p.timeoutSecs)),
      Entry("connect-timeout", Digits(p.connectTimeoutSecs)),
      Entry("shuffle", if p.shuffle then "1" else "0")]
  }

  /** Parameters that a section of a configuration can stand for. */
  predicate Storable(p: WorkerParams) {
    && !p.dbtype.eNONE? && p.infiletype.eSQL?
    && 1 <= p.port <= 65535 && 1 <= p.threads <= 65535
    && 0 <= p.queriesPerThread <= INT64_MAX && 0 <= p.queryListMaxsize <= INT64_MAX
    && 0 <= p.timeoutSecs < UINT32 && 0 <= p.connectTimeoutSecs < UINT32
    && IsSectionName(p.myName) && '\n' !in p.myName && ToLower(p.myName) != "master"
  }

  predicate AllStorable(ps: seq<WorkerParams>) {
    forall i | 0 <= i < |ps| :: Storable(ps[i])
  }

  /** Workers of one name do not differ in anything else. */
  predicate ConsistentNames(ps: seq<WorkerParams>) {
    forall i, j | 0 <= i < j < |ps| && ps[i].myName == ps[j].myName :: ps[i] == ps[j]
  }

  function GroupsOf(ps: seq<WorkerParams>): (groups: seq<Group>)
    requires AllStorable(ps)
    ensures |groups| == |ps|
    ensures forall i | 0 <= i < |ps| :: groups[i] == Group(ps[i].myName, EntriesOf(ps[i]))
  {
    seq(|ps|, i requires 0 <= i < |ps| => Group(ps[i].myName, EntriesOf(ps[i])))
  }

  function ConfigFile(ps: seq<WorkerParams>): string
    requires AllStorable(ps)
  {
    Unlines(PrintConfig(GroupsOf(ps)))
  }

  // ---- the entries are well formed ---------------------------------------------------------------------

  predicate Plain(s: string) {
    && s != "" && s[0] != '-'
    && forall i | 0 <= i < |s| :: 'a' <= s[i] <= 'z' || IsDigit(s[i]) || s[i] == '-'
  }

  lemma PlainIsGood(e: Entry)
    requires Plain(e.key) && Plain(e.value)
    ensures GoodEntry(e)
  {
    var line := PrintPair(e.key, e.value);
    assert line[0] == e.key[0];
    assert SkipWs(line, 0) == 0;
  }

  lemma KeysArePlain()
    ensures Plain("run") && Plain("dbtype") && Plain("infiletype") && Plain("port") && Plain("threads")
    ensures Plain("timeout") && Plain("shuffle")
  {
  }

  lemma LongKeysArePlain()
    ensures Plain("queries-per-thread") && Plain("query-list-maxsize") && Plain("connect-timeout")
  {
  }

  lemma WordsArePlain()
    ensures Plain("1") && Plain("0") && Plain("sql") && Plain("mysql") && Plain("pgsql")
  {
  }

  lemma DigitsArePlain(n: nat)
    ensures Plain(Digits(n))
  {
    hide Digits;
    var s := Digits(n);
    assert IsDigit(s[0]);
  }

  lemma EntriesAreGood(p: WorkerParams)
    requires Storable(p)
    ensures GoodGroup(Group(p.myName, EntriesOf(p)))
  {
    hide Digits, IsSectionName, ToLower, GoodEntry, Plain;
    KeysArePlain();
    LongKeysArePlain();
    WordsArePlain();
    var entries := EntriesOf(p);
    forall n: nat
      ensures Plain(Digits(n))
    {
      DigitsArePlain(n);
    }
    forall j | 0 <= j < |entries|
      ensures GoodEntry(entries[j])
    {
      PlainIsGood(entries[j]);
    }
  }

  // ---- what the file gives back ----------------------------------------------------------------------------

  lemma {:induction false} EntryFound(entries: seq<Entry>, i: nat)
    requires i < |entries| && forall j | i < j < |entries| :: entries[j].key != entries[i].key
    ensures LastEntry(entries, entries[i].key) == Some(entries[i].value)
  {
    if i < |entries| - 1 {
      EntryFound(entries[..|entries| - 1], i);
    }
  }

  lemma {:induction false} GroupFound(groups: seq<Group>, i: nat, key: string)
    requires i < |groups| && forall j | i < j < |groups| :: groups[j].name != groups[i].name
    requires LastEntry(groups[i].entries, key).Some?
    ensures ValueOf(groups, groups[i].name, key) == LastEntry(groups[i].entries, key)
  {
    if i < |groups| - 1 {
      GroupFound(groups[..|groups| - 1], i, key);
    }
  }

  /** The section of `values` gives every entry of the parameters back. */
  predicate GivesBack(values: Settings, p: WorkerParams)
    requires Storable(p)
  {
    forall j | 0 <= j < |EntriesOf(p)| ::
      Lookup(values, p.myName, EntriesOf(p)[j].key) == Some(EntriesOf(p)[j].value)
  }

  lemma KeysDiffer(p: WorkerParams)
    requires Storable(p)
    ensures forall i, j | 0 <= i < j < |EntriesOf(p)| :: EntriesOf(p)[i].key != EntriesOf(p)[j].key
  {
    hide Digits, Storable;
    assert "threads"[1] != "timeout"[1];
    assert "threads"[0] != "shuffle"[0];
    assert "timeout"[0] != "shuffle"[0];
    assert "queries-per-thread"[4] != "query-list-maxsize"[4];
  }

  lemma {:induction false} LastNamed(ps: seq<WorkerParams>, i: nat) returns (k: nat)
    requires i < |ps|
    ensures i <= k < |ps| && ps[k].myName == ps[i].myName
    ensures forall j | k < j < |ps| :: ps[j].myName != ps[i].myName
    decreases |ps|
  {
    var n := |ps| - 1;
    if ps[n].myName == ps[i].myName {
      k := n;
    } else {
      k := LastNamed(ps[..n], i);
    }
  }

  lemma FileGivesBack(ps: seq<WorkerParams>, i: nat)
    requires AllStorable(ps) && ConsistentNames(ps) && i < |ps|
    ensures GivesBack(Read(GetLines(ConfigFile(ps))).values, ps[i])
  {
    var groups, p := GroupsOf(ps), ps[i];
    var k := LastNamed(ps, i);
    assert ps[k] == p;
    ConfigIsWellFormed(ps);
    KeysDiffer(p);
    hide EntriesOf, WellFormed, Storable, Lookup;
    forall j | 0 <= j < |EntriesOf(p)|
      ensures Lookup(Read(GetLines(ConfigFile(ps))).values, p.myName, EntriesOf(p)[j].key)
              == Some(EntriesOf(p)[j].value)
    {
      EntryFound(EntriesOf(p), j);
      GroupFound(groups, k, EntriesOf(p)[j].key);
      FileRoundTrip(groups, p.myName, EntriesOf(p)[j].key);
    }
  }

  lemma ConfigIsWellFormed(ps: seq<WorkerParams>)
    requires AllStorable(ps)
    ensures WellFormed(GroupsOf(ps))
  {
    hide EntriesOf, GoodGroup, Storable;
    forall i | 0 <= i < |ps|
      ensures GoodGroup(GroupsOf(ps)[i])
    {
      EntriesAreGood(ps[i]);
    }
  }

  lemma NumberGivenBack(values: Settings, section: string, name: string, defaultValue: int, n: nat)
    requires Lookup(values, section, name) == Some(Digits(n)) && Fits(n)
    ensures IntegerSetting(values, section, name, defaultValue) == Value(n)
  {
    hide IntegerOf, Digits, Lookup;
    IntegerRoundTrip(n, "");
    assert Decimal(n) + "" == Digits(n);
  }

  lemma {:induction false} LowerStays(s: string)
    requires forall i | 0 <= i < |s| :: !('A' <= s[i] <= 'Z')
    ensures ToLower(s) == s
  {
    if s != "" {
      LowerStays(s[1..]);
    }
  }

  lemma LowerWords()
    ensures ToLower("1") == "1" && ToLower("0") == "0" && ToLower("sql") == "sql"
    ensures ToLower("mysql") == "mysql" && ToLower("pgsql") == "pgsql"
  {
    hide ToLower;
    LowerStays("1");
    LowerStays("0");
    LowerStays("sql");
    LowerStays("mysql");
    LowerStays("pgsql");
  }

  /** What GivesBack comes to, key by key. */
  predicate Answers(values: Settings, p: WorkerParams)
    requires Storable(p)
  {
    var s := p.myName;
    && Lookup(values, s, "run") == Some("1")
    && Lookup(values, s, "dbtype") == Some(if p.dbtype.eMYSQL? then "mysql" else "pgsql")
    && Lookup(values, s, "infiletype") == Some("sql")
    && Lookup(values, s, "port") == Some(Digits(p.port))
    && Lookup(values, s, "threads") == Some(Digits(p.threads))
    && Lookup(values, s, "queries-per-thread") == Some(Digits(p.queriesPerThread))
    && Lookup(values, s, "query-list-maxsize") == Some(Digits(p.queryListMaxsize))
    && Lookup(values, s, "timeout") == Some(Digits(p.timeoutSecs))
    && Lookup(values, s, "connect-timeout") == Some(Digits(p.connectTimeoutSecs))
    && Lookup(values, s, "shuffle") == Some(if p.shuffle then "1" else "0")
  }

  lemma AnswersKeyByKey(values: Settings, p: WorkerParams)
    requires Storable(p) && GivesBack(values, p)
    ensures Answers(values, p)
  {
    hide Lookup, Storable, Digits;
    var e := EntriesOf(p);
    assert e[0].key == "run" && e[1].key == "dbtype" && e[2].key == "infiletype" && e[9].key == "shuffle";
    assert e[3].key == "port" && e[4].key == "threads" && e[5].key == "queries-per-thread";
    assert e[6].key == "query-list-maxsize" && e[7].key == "timeout" && e[8].key == "connect-timeout";
  }

  lemma WordsGivenBack(values: Settings, p: WorkerParams)
    requires Storable(p) && Answers(values, p)
    ensures BooleanSetting(values, p.myName, "run", false)
    ensures DbTypeSetting(values, p.myName) == p.dbtype
    ensures InfileTypeSetting(values, p.myName) == eSQL
    ensures BooleanSetting(values, p.myName, "shuffle", false) == p.shuffle
  {
    LowerWords();
    hide Lookup, IsSectionName, ToLower, Digits;
  }

  lemma NumbersGivenBack(values: Settings, p: WorkerParams)
    requires Storable(p) && Answers(values, p)
    ensures DbTypeSetting(values, p.myName) == p.dbtype ==> PortSetting(values, p.myName) == Value(p.port)
    ensures ThreadsSetting(values, p.myName) == Value(p.threads)
    ensures QueriesSetting(values, p.myName) == Value(p.queriesPerThread)
    ensures MaxsizeSetting(values, p.myName) == Value(p.queryListMaxsize)
    ensures TimeoutSetting(values, p.myName) == Value(p.timeoutSecs)
    ensures ConnectTimeoutSetting(values, p.myName) == Value(p.connectTimeoutSecs)
  {
    hide Lookup, DbTypeSetting, IntegerSetting, ToLower, IsSectionName, Digits;
    NumberGivenBack(values, p.myName, "port", if p.dbtype.eMYSQL? then 3306 else 5432, p.port);
    NumberGivenBack(values, p.myName, "threads", 10, p.threads);
    NumberGivenBack(values, p.myName, "queries-per-thread", 10000, p.queriesPerThread);
    NumberGivenBack(values, p.myName, "query-list-maxsize", 1073741824, p.queryListMaxsize);
    NumberGivenBack(values, p.myName, "timeout", 0, p.timeoutSecs);
    NumberGivenBack(values, p.myName, "connect-timeout", 60, p.connectTimeoutSecs);
  }

  /** The section is to be run, valid, and stands for these parameters. */
  predicate Kept(values: Settings, build: Build, p: WorkerParams) {
    && Selected(values, p.myName) && ValidSection(values, build, p.myName)
    && Configured(values, build, p.myName) == p
  }

  /** Every setting of the section is that of the parameters. */
  predicate SameSettings(values: Settings, p: WorkerParams) {
    && DbTypeSetting(values, p.myName) == p.dbtype
    && PortSetting(values, p.myName) == Value(p.port)
    && ThreadsSetting(values, p.myName) == Value(p.threads)
    && QueriesSetting(values, p.myName) == Value(p.queriesPerThread)
    && MaxsizeSetting(values, p.myName) == Value(p.queryListMaxsize)
    && TimeoutSetting(values, p.myName) == Value(p.timeoutSecs)
    && ConnectTimeoutSetting(values, p.myName) == Value(p.connectTimeoutSecs)
    && InfileTypeSetting(values, p.myName) == eSQL == p.infiletype
    && BooleanSetting(values, p.myName, "shuffle", false) == p.shuffle
  }

  lemma SettingsGivenBack(values: Settings, p: WorkerParams)
    requires Storable(p) && GivesBack(values, p)
    ensures Selected(values, p.myName) && SameSettings(values, p)
  {
    AnswersKeyByKey(values, p);
    WordsGivenBack(values, p);
    NumbersGivenBack(values, p);
    hide Answers, GivesBack, BooleanSetting, DbTypeSetting, InfileTypeSetting, ToLower, IsSectionName;
    hide PortSetting, ThreadsSetting, QueriesSetting, MaxsizeSetting, TimeoutSetting, ConnectTimeoutSetting;
  }

  lemma SettingsAreValid(values: Settings, build: Build, p: WorkerParams)
    requires Storable(p) && SupportedDb(build, p.dbtype) && SameSettings(values, p)
    ensures ValidSection(values, build, p.myName)
  {
    hide BooleanSetting, DbTypeSetting, InfileTypeSetting, ToLower, IsSectionName, SupportedDb;
    hide PortSetting, ThreadsSetting, QueriesSetting, MaxsizeSetting, TimeoutSetting, ConnectTimeoutSetting;
  }

  lemma SettingsMakeParams(values: Settings, build: Build, p: WorkerParams)
    requires SameSettings(values, p) && ValidSection(values, build, p.myName)
    ensures Configured(values, build, p.myName) == p
  {
    hide BooleanSetting, DbTypeSetting, InfileTypeSetting, ValidSection;
    hide PortSetting, ThreadsSetting, QueriesSetting, MaxsizeSetting, TimeoutSetting, ConnectTimeoutSetting;
  }

  lemma SectionGivenBack(values: Settings, build: Build, p: WorkerParams)
    requires Storable(p) && SupportedDb(build, p.dbtype) && GivesBack(values, p)
    ensures Kept(values, build, p)
  {
    hide Storable, SupportedDb, GivesBack, SameSettings, Selected, ValidSection, Configured;
    SettingsGivenBack(values, p);
    SettingsAreValid(values, build, p);
    SettingsMakeParams(values, build, p);
  }

  lemma ChosenMore(values: Settings, build: Build, names: seq<string>, p: WorkerParams)
    requires AllValid(values, build, names) && Kept(values, build, p)
    ensures AllValid(values, build, names + [p.myName])
    ensures Chosen(values, build, names + [p.myName]) == Chosen(values, build, names) + [p]
  {
    hide Selected, ValidSection, Configured;
    assert (names + [p.myName])[..|names|] == names;
  }

  lemma NamesMore(ps: seq<WorkerParams>)
    requires AllStorable(ps) && ps != []
    ensures AllStorable(ps[..|ps| - 1])
    ensures GroupNames(GroupsOf(ps)) == GroupNames(GroupsOf(ps[..|ps| - 1])) + [ps[|ps| - 1].myName]
  {
    hide Storable, EntriesOf;
    assert GroupsOf(ps)[..|ps| - 1] == GroupsOf(ps[..|ps| - 1]);
  }

  lemma {:induction false} AllChosen(values: Settings, build: Build, ps: seq<WorkerParams>)
    requires AllStorable(ps) && forall p | p in ps :: Kept(values, build, p)
    ensures var names := GroupNames(GroupsOf(ps));
            AllValid(values, build, names) && Chosen(values, build, names) == ps
  {
    hide Kept, Storable, EntriesOf, GroupsOf;
    if ps != [] {
      hide AllStorable, AllValid, GroupNames, Chosen;
      var init, last := ps[..|ps| - 1], ps[|ps| - 1];
      NamesMore(ps);
      AllChosen(values, build, init);
      ChosenMore(values, build, GroupNames(GroupsOf(init)), last);
      assert init + [last] == ps;
    }
  }

  /** The file is read without an error and gives exactly this list: every parameter, in order, no worker more. */
  predicate ComesBack(build: Build, ps: seq<WorkerParams>)
    requires AllStorable(ps)
  {
    var c := Read(GetLines(ConfigFile(ps)));
    && c.error == 0 && AllValid(c.values, build, c.sections)
    && Chosen(c.values, build, c.sections) == ps
  }

  lemma ConsistentComesBack(build: Build, ps: seq<WorkerParams>)
    requires AllStorable(ps) && ConsistentNames(ps)
    requires forall p | p in ps :: SupportedDb(build, p.dbtype)
    ensures ComesBack(build, ps)
  {
    var c := Read(GetLines(ConfigFile(ps)));
    ConfigIsWellFormed(ps);
    FileRoundTrip(GroupsOf(ps), "", "");
    forall p | p in ps
      ensures Kept(c.values, build, p)
    {
      var i :| 0 <= i < |ps| && ps[i] == p;
      FileGivesBack(ps, i);
      SectionGivenBack(c.values, build, p);
    }
    AllChosen(c.values, build, ps);
  }

  /**
   The file written for a list of workers gives exactly this list back if and only if
   workers of one name are alike and the database of each is compiled in.
   */
  lemma WorkersRoundTrip(build: Build, ps: seq<WorkerParams>)
    requires AllStorable(ps)
    ensures ComesBack(build, ps)
            <==> ConsistentNames(ps) && forall p | p in ps :: SupportedDb(build, p.dbtype)
  {
    if ConsistentNames(ps) && forall p | p in ps :: SupportedDb(build, p.dbtype) {
      ConsistentComesBack(build, ps);
    }
    if ComesBack(build, ps) {
      hide AllStorable, Chosen, ValidSection, Configured, SupportedDb, ConfigFile;
      var c := Read(GetLines(ConfigFile(ps)));
      ChosenByName(c.values, build, c.sections);
      forall i, j | 0 <= i < j < |ps| && ps[i].myName == ps[j].myName
        ensures ps[i] == ps[j]
      {
        assert ps[i] in ps && ps[j] in ps;
      }
    }
  }
}
