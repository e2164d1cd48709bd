/** The master from its configuration file to its exit code. */
module PQuery {
  import opened Strings
  import opened Params
  import opened IniGrammar
  import opened IniReader
  import ConfigMeaning
  import opened Validation = WorkerConfig
  import opened Supervisor = WorkerPool
  import WorkerPoolSafety
  import WorkerDeadlines

  /** What has to hold of the file before any worker is started. */
  predicate Startable(file: Option<string>, logOpens: bool, build: Build) {
    && file.Some? && logOpens
    && var c := Read(GetLines(file.value));
       c.error == 0 && AllValid(c.values, build, c.sections)
  }

  function Workers(file: string, build: Build): seq<WorkerParams> {
    var c := Read(GetLines(file));
    Chosen(c.values, build, c.sections)
  }

  /**
   `forks` and `polls` answer fork and waitpid. No pool is even made unless the whole
   configuration is in order, so one wrong section keeps every worker from starting.
   */
  method Run(file: Option<string>, logOpens: bool, build: Build, forks: seq<Fork>, polls: seq<Poll>)
      returns (success: bool, finished: bool, pool: WorkerPool?)
    requires file.Some? ==> |forks| == |Workers(file.value, build)|
    ensures pool != null <==> Startable(file, logOpens, build)
    ensures pool != null ==> fresh(pool)
    ensures pool != null <==>
              && file.Some? && logOpens
              && (forall line | line in GetLines(file.value) :: !Classify(line).Malformed?)
              && var c := Read(GetLines(file.value));
                 forall section | section in c.sections && ConfigMeaning.IsRun(GetLines(file.value), section) ::
                   ValidSection(c.values, build, section)
    ensures pool == null ==> !success && finished
    ensures pool != null ==>
              && |forks| == |Workers(file.value, build)|
              && Outcome(success, finished, pool.activeWorkers, pool.events, pool.tested)
                 == RunAllOutcome(build, Workers(file.value, build), forks, polls)
    ensures pool != null && DistinctPids(forks) ==>
              SafeRun(Workers(file.value, build), forks, success, pool.events, pool.tested)
  {
    hide Read, Chosen, AllValid, Spawned, Waited, Classify, ConfigMeaning.IsRun, ValidSection;
    StartableExact(file, logOpens, build);
    var configReader := new INIReader(file);
    if file.Some? {
      ErrorIsFirstBad(GetLines(file.value));
    }
    var parseerr := configReader.error;
    if parseerr < 0 {
      return false, true, null;
    }
    if parseerr > 0 {
      return false, true, null;
    }
    if !logOpens {
      return false, true, null;
    }
    var config := new WorkerConfig(configReader, build);
    var ok, validParams := config.BuildAllWorkerParams([]);
    if !ok {
      return false, true, null;
    }
    assert validParams == Workers(file.value, build);
    if DistinctPids(forks) {
      MasterIsSafe(file.value, build, forks, polls);
    }
    hide Workers, Startable, RunAllOutcome, SafeRun;
    var p := new WorkerPool(build);
    success, finished := p.RunAll(validParams, forks, polls);
    pool := p;
  }

  lemma NoErrorIs(lines: seq<string>)
    ensures Read(lines).error == 0 <==> forall line | line in lines :: !Classify(line).Malformed?
  {
    hide Read, Classify;
    ErrorIsFirstBad(lines);
    assert forall line | line in lines :: exists i :: 0 <= i < |lines| && lines[i] == line;
  }

  lemma AllValidIs(lines: seq<string>, build: Build)
    ensures var c := Read(lines);
            AllValid(c.values, build, c.sections)
            <==> forall section | section in c.sections && ConfigMeaning.IsRun(lines, section) ::
                   ValidSection(c.values, build, section)
  {
    hide Read, ConfigMeaning.IsRun, ValidSection, Selected;
    var c := Read(lines);
    forall section: string
      ensures Selected(c.values, section) <==> ConfigMeaning.IsRun(lines, section)
    {
      ConfigMeaning.SelectedIsRun(lines, section);
    }
    assert forall section | section in c.sections :: exists i :: 0 <= i < |c.sections| && c.sections[i] == section;
  }

  /** Startable in terms of the lines: none is malformed, and every section that the file wants run is valid. */
  lemma StartableExact(file: Option<string>, logOpens: bool, build: Build)
    ensures Startable(file, logOpens, build)
            <==> && file.Some? && logOpens
                 && (forall line | line in GetLines(file.value) :: !Classify(line).Malformed?)
                 && var c := Read(GetLines(file.value));
                    forall section | section in c.sections && ConfigMeaning.IsRun(GetLines(file.value), section) ::
                      ValidSection(c.values, build, section)
  {
    hide Read, Classify, ConfigMeaning.IsRun, ValidSection, AllValid, GetLines;
    if file.Some? {
      NoErrorIs(GetLines(file.value));
      AllValidIs(GetLines(file.value), build);
    }
  }

  // ---- every run of the master ---------------------------------------------------------------------------

  /** One of the first `n` workers has this pid and a timeout. */
  predicate TimedWorker(params: seq<WorkerParams>, forks: seq<Fork>, n: nat, pid: int)
    requires n <= |params| && n <= |forks| && forall i | 0 <= i < n :: forks[i].InMaster?
  {
    exists i | 0 <= i < n :: forks[i].pid == pid && params[i].timeoutSecs > 0
  }

  /**
   What may be said of a process when it returns. A master that has forked all its
   workers has kept the rules of signalling, has signalled only workers whose section
   sets a timeout, none before its seconds were over, and succeeds exactly if no reaped child failed and none was
   terminated. Any other process has signalled nobody: a master whose fork failed fails,
   and a child has run the tests of its own section only and passes on their result.
   */
  ghost predicate SafeRun(
      params: seq<WorkerParams>, forks: seq<Fork>, success: bool, events: seq<Event>, tested: seq<WorkerParams>)
    requires |forks| == |params|
  {
    var n := MasterForks(forks);
    var ps := Spawned(params, forks, n);
    && WorkerPoolSafety.Safe(events, WorkerPoolSafety.Pids(ps), WorkerPoolSafety.TimedPids(ps))
    && (forall pid, signal, at | Sent(pid, signal, at) in events :: TimedWorker(params, forks, n, pid))
    && (forall i, at | 0 <= i < n && Sent(forks[i].pid, SIGTERM, at) in events ::
          at > forks[i].now + params[i].timeoutSecs * 1_000_000_000)
    && if n == |params| then
         && tested == []
         && (success <==> && (forall pid, status | Reaped(pid, status) in events :: status == 0)
                          && (forall pid :: !WorkerPoolSafety.WasTermed(events, pid)))
       else
         && events == []
         && match forks[n]
            case InChild(passed) => success == passed && tested == [params[n]]
            case _ => !success && tested == []
  }

  lemma WaitIsSafe(build: Build, params: seq<WorkerParams>, forks: seq<Fork>, polls: seq<Poll>)
    requires |forks| == |params| == MasterForks(forks) && DistinctPids(forks)
    ensures var r := Waited(Spawned(params, forks, |params|), polls);
            SafeRun(params, forks, r.verdict, r.log, [])
  {
    var ps := Spawned(params, forks, |params|);
    SpawnedEach(params, forks, |params|);
    WorkerDeadlines.NeverTooEarly(build, params, forks, polls);
    hide Spawned, Waited, MasterForks;
    assert WorkerPoolSafety.Fresh(ps);
    WorkerPoolSafety.VerdictExact(ps, polls);
    WorkerPoolSafety.SignalSafety(ps, polls);
    var log := Waited(ps, polls).log;
    forall pid, signal, at | Sent(pid, signal, at) in log
      ensures TimedWorker(params, forks, |params|, pid)
    {
      SignalledIsTimed(params, forks, ps, log, Sent(pid, signal, at));
    }
  }

  lemma SignalledIsTimed(
      params: seq<WorkerParams>, forks: seq<Fork>, ps: seq<WorkerProc>, log: seq<Event>, e: Event)
    requires |ps| == |params| == |forks| && forall i | 0 <= i < |forks| :: forks[i].InMaster?
    requires forall i | 0 <= i < |ps| :: ps[i] == Tracked(params[i], forks[i].pid, forks[i].now)
    requires WorkerPoolSafety.Safe(log, WorkerPoolSafety.Pids(ps), WorkerPoolSafety.TimedPids(ps))
    requires e in log && e.Sent?
    ensures TimedWorker(params, forks, |params|, e.pid)
  {
    var k :| 0 <= k < |log| && log[k] == e;
    assert e.pid in WorkerPoolSafety.TimedPids(ps);
    var i :| 0 <= i < |ps| && ps[i].hasTimeout && ps[i].pid == e.pid;
  }

  /** Whatever fork, the children and the clock answer, every process that RunAll leaves is safe. */
  lemma MasterIsSafe(file: string, build: Build, forks: seq<Fork>, polls: seq<Poll>)
    requires |forks| == |Workers(file, build)| && DistinctPids(forks)
    ensures var o := RunAllOutcome(build, Workers(file, build), forks, polls);
            SafeRun(Workers(file, build), forks, o.result, o.events, o.tested)
  {
    var params := Workers(file, build);
    var c := Read(GetLines(file));
    ChosenByName(c.values, build, c.sections);
    assert forall p | p in params :: SupportedDb(build, p.dbtype);
    hide Workers, Chosen, Waited, Spawned, SupportedDb;
    var n := MasterForks(forks);
    if n == |params| {
      WaitIsSafe(build, params, forks, polls);
    } else {
      assert params[n] in params;
    }
  }
}
