/** From the sections of a configuration to the parameters of the workers. */
module WorkerConfig {
  import opened Params
  import opened IniInteger
  import opened IniReader

  const UINT64 := 0x1_0000_0000_0000_0000

  // ---- what the settings of a section say -------------------------------------------------------

  function DbTypeSetting(values: Settings, section: string): DbType {
    var text := ToLower(Text(values, section, "dbtype"));
    if text in {"", "mysql", "mariadb"} then eMYSQL
    else if text in {"pgsql", "postgres", "postgresql"} then ePGSQL
    else eNONE
  }

  function InfileTypeSetting(values: Settings, section: string): InfileType {
    var text := ToLower(Text(values, section, "infiletype"));
    if text in {"", "sql"} then eSQL
    else if text == "genlog" then eGENLOG
    else if text == "binlog" then eBINLOG
    else eUNKNOWN
  }

  function PortSetting(values: Settings, section: string): IntResult {
    IntegerSetting(values, section, "port", if DbTypeSetting(values, section).eMYSQL? then 3306 else 5432)
  }

  function ThreadsSetting(values: Settings, section: string): IntResult {
    IntegerSetting(values, section, "threads", 10)
  }

  function QueriesSetting(values: Settings, section: string): IntResult {
    IntegerSetting(values, section, "queries-per-thread", 10000)
  }

  function MaxsizeSetting(values: Settings, section: string): IntResult {
    IntegerSetting(values, section, "query-list-maxsize", 1073741824)
  }

  function TimeoutSetting(values: Settings, section: string): IntResult {
    IntegerSetting(values, section, "timeout", 0)
  }

  function ConnectTimeoutSetting(values: Settings, section: string): IntResult {
    IntegerSetting(values, section, "connect-timeout", 60)
  }

  predicate Within(r: IntResult, min: int, max: int) {
    r.Value? && min <= r.value <= max
  }

  predicate ValidSection(values: Settings, build: Build, section: string) {
    && SupportedDb(build, DbTypeSetting(values, section))
    && Within(PortSetting(values, section), 1, 65535)
    && Within(ThreadsSetting(values, section), 1, 65535)
    && Within(QueriesSetting(values, section), 0, INT64_MAX)
    && Within(MaxsizeSetting(values, section), 0, INT64_MAX)
    && Within(TimeoutSetting(values, section), 0, UINT32 - 1)
    && Within(ConnectTimeoutSetting(values, section), 0, UINT32 - 1)
    && InfileTypeSetting(values, section) == eSQL
  }

  /** The settings of a valid section, just as they were read. */
  function Configured(values: Settings, build: Build, section: string): WorkerParams
    requires ValidSection(values, build, section)
  {
    WorkerParams(section, DbTypeSetting(values, section), eSQL,
                 PortSetting(values, section).value,
                 ThreadsSetting(values, section).value,
                 QueriesSetting(values, section).value,
                 MaxsizeSetting(values, section).value,
                 TimeoutSetting(values, section).value,
                 ConnectTimeoutSetting(values, section).value,
                 BooleanSetting(values, section, "shuffle", false))
  }

  /** A section that is to be run. */
  predicate Selected(values: Settings, section: string) {
    ToLower(section) != "master" && BooleanSetting(values, section, "run", false)
  }

  predicate AllValid(values: Settings, build: Build, sections: seq<string>) {
    forall i | 0 <= i < |sections| && Selected(values, sections[i]) :: ValidSection(values, build, sections[i])
  }

  /** The parameters of the sections that are selected and valid, in file order. */
  function Chosen(values: Settings, build: Build, sections: seq<string>): seq<WorkerParams> {
    if sections == [] then []
    else
      var init, last := sections[..|sections| - 1], sections[|sections| - 1];
      if Selected(values, last) && ValidSection(values, build, last) then
        Chosen(values, build, init) + [Configured(values, build, last)]
      else Chosen(values, build, init)
  }

  // ---- the validation as it runs -------------------------------------------------------------------

  class WorkerConfig {
    const reader: INIReader
    const build: Build

    constructor (reader: INIReader, build: Build)
      ensures this.reader == reader && this.build == build
    {
      this.reader, this.build := reader, build;
    }

    method CheckIntRange(value: int, min: int, max: int) returns (ok: bool)
      ensures ok <==> min <= value <= max
    {
      if value < min || value > max {
        return false;
      }
      return true;
    }

    /** An integer setting in its range; a value that cannot be read fails like one out of range. */
    method RangedInteger(section: string, name: string, defaultValue: int, min: int, max: int)
        returns (ok: bool, value: int)
      ensures ok == Within(IntegerSetting(reader.values, section, name, defaultValue), min, max)
      ensures ok ==> value == IntegerSetting(reader.values, section, name, defaultValue).value
    {
      var r := reader.GetInteger(section, name, defaultValue);
      if !r.Value? {
        return false, 0;
      }
      value := r.value;
      ok := CheckIntRange(value, min, max);
    }

    method GetDbType(section: string) returns (db: DbType)
      ensures db == DbTypeSetting(reader.values, section)
    {
      var text := ToLower(reader.Get(section, "dbtype", ""));
      if text == "" || text == "mysql" || text == "mariadb" {
        return eMYSQL;
      }
      if text == "pgsql" || text == "postgres" || text == "postgresql" {
        return ePGSQL;
      }
      return eNONE;
    }

    method GetInfileType(section: string) returns (t: InfileType)
      ensures t == InfileTypeSetting(reader.values, section)
    {
      var text := ToLower(reader.Get(section, "infiletype", ""));
      if text == "" || text == "sql" {
        return eSQL;
      }
      if text == "genlog" {
        return eGENLOG;
      }
      return if text == "binlog" then eBINLOG else eUNKNOWN;
    }

    /** The casts to the narrower types of the parameters are written out; they lose nothing. */
    method SetupWorkerParams(section: string) returns (ok: bool, w: WorkerParams)
      ensures ok == ValidSection(reader.values, build, section)
      ensures ok ==> w == Configured(reader.values, build, section)
    {
      hide IntegerSetting, BooleanSetting, DbTypeSetting, InfileTypeSetting;
      w := WorkerParams(section, eNONE, eUNKNOWN, 0, 0, 0, 0, 0, 0, false);
      var db := GetDbType(section);
      w := w.(dbtype := db);
      if db.eNONE? {
        return false, w;
      }
      if db.eMYSQL? && !build.haveMysql {
        return false, w;
      }
      if db.ePGSQL? && !build.havePgsql {
        return false, w;
      }
      var value: int;
      match db {
        case eMYSQL => ok, value := RangedInteger(section, "port", 3306, 1, 65535);
        case ePGSQL => ok, value := RangedInteger(section, "port", 5432, 1, 65535);
      }
      if !ok {
        return false, w;
      }
      w := w.(port := value % UINT16);
      ok, value := RangedInteger(section, "threads", 10, 1, 65535);
      if !ok {
        return false, w;
      }
      w := w.(threads := value % UINT16);
      ok, value := RangedInteger(section, "queries-per-thread", 10000, 0, INT64_MAX);
      if !ok {
        return false, w;
      }
      w := w.(queriesPerThread := value % UINT64);
      ok, value := RangedInteger(section, "query-list-maxsize", 1073741824, 0, INT64_MAX);
      if !ok {
        return false, w;
      }
      w := w.(queryListMaxsize := value % UINT64);
      ok, value := RangedInteger(section, "timeout", 0, 0, UINT32 - 1);
      if !ok {
        return false, w;
      }
      w := w.(timeoutSecs := value % UINT32);
      ok, value := RangedInteger(section, "connect-timeout", 60, 0, UINT32 - 1);
      if !ok {
        return false, w;
      }
      w := w.(connectTimeoutSecs := value % UINT32);
      var shuffle := reader.GetBoolean(section, "shuffle", false);
      w := w.(shuffle := shuffle);
      var infiletype := GetInfileType(section);
      w := w.(infiletype := infiletype);
      if infiletype.eUNKNOWN? {
        return false, w;
      }
      if infiletype.eGENLOG? || infiletype.eBINLOG? {
        return false, w;
      }
      return true, w;
    }

    /** Every section is looked at, so that every mistake is reported. */
    method BuildAllWorkerParams(before: seq<WorkerParams>) returns (configOk: bool, out: seq<WorkerParams>)
      ensures configOk == AllValid(reader.values, build, reader.sections)
      ensures out == before + Chosen(reader.values, build, reader.sections)
    {
      hide ValidSection, Configured, BooleanSetting, ToLower;
      var sections, values := reader.sections, reader.values;
      configOk, out := true, before;
      var i := 0;
      while i < |sections|
        invariant i <= |sections|
        invariant configOk == AllValid(values, build, sections[..i])
        invariant out == before + Chosen(values, build, sections[..i])
      {
        var section := sections[i];
        assert sections[..i + 1][..i] == sections[..i];
        i := i + 1;
        if ToLower(section) == "master" {
          continue;
        }
        var run := reader.GetBoolean(section, "run", false);
        if !run {
          continue;
        }
        var ok, w := SetupWorkerParams(section);
        if !ok {
          assert Selected(values, sections[..i][i - 1]);
          configOk := false;
          continue;
        }
        out := out + [w];
      }
      assert sections[..i] == sections;
    }
  }

  // ---- all or nothing -----------------------------------------------------------------------------------

  /** The positions of the selected sections, in order. */
  ghost predicate Places(values: Settings, sections: seq<string>, places: seq<nat>) {
    && (forall j, k | 0 <= j < k < |places| :: places[j] < places[k])
    && (forall i: nat :: i in places <==> i < |sections| && Selected(values, sections[i]))
  }

  /** The list holds, in this order, the settings of the sections at these positions. */
  predicate Holds(
      values: Settings, build: Build, sections: seq<string>, places: seq<nat>, list: seq<WorkerParams>)
  {
    && |list| == |places|
    && forall j | 0 <= j < |places| ::
         && places[j] < |sections| && ValidSection(values, build, sections[places[j]])
         && list[j] == Configured(values, build, sections[places[j]])
  }

  lemma PlacesGrow(values: Settings, sections: seq<string>, section: string, places: seq<nat>)
    requires Places(values, sections, places)
    ensures Places(values, sections + [section],
                   if Selected(values, section) then places + [|sections|] else places)
  {
    hide Selected;
    var more := sections + [section];
    assert more[|sections|] == section && forall i | 0 <= i < |sections| :: more[i] == sections[i];
    if Selected(values, section) {
      var grown := places + [|sections|];
      forall i: nat
        ensures i in grown <==> i < |more| && Selected(values, more[i])
      {
        assert i in grown <==> i in places || i == |sections|;
      }
      forall j | 0 <= j < |places|
        ensures places[j] < |sections|
      {
        assert places[j] in places;
      }
    }
  }

  lemma HoldsGrows(
      values: Settings, build: Build, sections: seq<string>, section: string, places: seq<nat>,
      list: seq<WorkerParams>)
    requires Holds(values, build, sections, places, list)
    ensures Holds(values, build, sections + [section], places, list)
    ensures ValidSection(values, build, section) ==>
              Holds(values, build, sections + [section], places + [|sections|],
                    list + [Configured(values, build, section)])
  {
    hide ValidSection, Configured;
    var more := sections + [section];
    assert more[|sections|] == section && forall i | 0 <= i < |sections| :: more[i] == sections[i];
  }

  /** If every selected section is valid, the list holds exactly the selected sections, in file order. */
  lemma {:induction false} ChosenExact(values: Settings, build: Build, sections: seq<string>)
      returns (places: seq<nat>)
    requires AllValid(values, build, sections)
    ensures Places(values, sections, places)
    ensures Holds(values, build, sections, places, Chosen(values, build, sections))
  {
    places := [];
    if sections != [] {
      var init, last := sections[..|sections| - 1], sections[|sections| - 1];
      assert init + [last] == sections;
      assert forall i | 0 <= i < |init| :: init[i] == sections[i];
      hide Configured, ValidSection, Selected, Places, Holds;
      places := ChosenExact(values, build, init);
      PlacesGrow(values, init, last, places);
      HoldsGrows(values, build, init, last, places, Chosen(values, build, init));
      places := if Selected(values, last) then places + [|init|] else places;
    }
  }

  /** What the list holds of a section depends on its name alone, and its database is compiled in. */
  lemma {:induction false} ChosenByName(values: Settings, build: Build, sections: seq<string>)
    ensures forall p | p in Chosen(values, build, sections) ::
              && SupportedDb(build, p.dbtype)
              && ValidSection(values, build, p.myName) && Configured(values, build, p.myName) == p
  {
    if sections != [] {
      hide Selected, PortSetting, ThreadsSetting, QueriesSetting, MaxsizeSetting, TimeoutSetting, DbTypeSetting;
      hide ConnectTimeoutSetting, InfileTypeSetting, SupportedDb, BooleanSetting;
      ChosenByName(values, build, sections[..|sections| - 1]);
    }
  }

  // ---- the ranges that the workers and the supervisor rely on ------------------------------------------------

  /**
   An accepted timeout never takes a deadline out of 64 bits of nanoseconds while the
   clock is at most 2^63 - 1 - (2^32 - 1) * 10^9, and for a later clock there is an
   accepted timeout that does.
   */
  lemma DeadlineFits(now: int)
    requires 0 <= now <= 9223372036854775807
    ensures (forall values, build, section | ValidSection(values, build, section) ::
               now + Configured(values, build, section).timeoutSecs * 1_000_000_000 <= 9223372036854775807)
            <==> now <= 4928404741854775807
  {
    hide ValidSection, Configured, Digits;
    if now <= 4928404741854775807 {
      forall values, build, section | ValidSection(values, build, section)
        ensures now + Configured(values, build, section).timeoutSecs * 1_000_000_000 <= 9223372036854775807
      {
        TimeoutRange(values, build, section);
      }
    } else {
      var longest := map["w" := map["timeout" := Digits(UINT32 - 1)]];
      LongestTimeout(longest);
      assert now + Configured(longest, Build(true, true), "w").timeoutSecs * 1_000_000_000 > 9223372036854775807;
    }
  }

  lemma TimeoutRange(values: Settings, build: Build, section: string)
    requires ValidSection(values, build, section)
    ensures 0 <= Configured(values, build, section).timeoutSecs < UINT32
  {
    hide TimeoutSetting;
  }

  lemma LongestTimeout(values: Settings)
    requires values == map["w" := map["timeout" := Digits(UINT32 - 1)]]
    ensures ValidSection(values, Build(true, true), "w")
    ensures Configured(values, Build(true, true), "w").timeoutSecs == UINT32 - 1
  {
    hide Digits, IntegerOf;
    var text := Digits(UINT32 - 1);
    IntegerRoundTrip(UINT32 - 1, "");
    assert text + "" == text;
    assert TimeoutSetting(values, "w") == Value(UINT32 - 1);
  }
}
