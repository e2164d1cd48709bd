/** One worker process: the query list, the threads' code, and the run as a whole. */
module DbWorker {
  import opened Strings
  import opened Params
  import opened Database
  import opened DbThreads
  import SqlScan
  import SqlFileParser

  // ---- one thread run without interruption ---------------------------------------------------

  predicate NeedsAnswer(cfg: Config, t: Thread) {
    || (t.phase.Starting? && cfg.size > 0)
    || (t.phase.Querying? && t.phase.i < cfg.limit)
  }

  function Rank(p: Phase): nat {
    match p
    case Starting => 4
    case Querying(_) => 3
    case AddPerformed(_) => 2
    case AddFailed(_) => 1
    case Ended(_) => 0
  }

  /** The thread goes on until it has ended or has no answer to go on with. */
  function Alone(cfg: Config, tot: Totals, t: Thread, answers: seq<Answer>): (Totals, Thread)
    decreases |answers|, Rank(t.phase)
  {
    if t.phase.Ended? || (NeedsAnswer(cfg, t) && answers == []) then (tot, t)
    else if NeedsAnswer(cfg, t) then
      var (tot', t') := ThreadStep(cfg, tot, t, answers[0]);
      Alone(cfg, tot', t', answers[1..])
    else
      var (tot', t') := ThreadStep(cfg, tot, t, FINE);
      Alone(cfg, tot', t', answers)
  }

  lemma AloneStops(cfg: Config, tot: Totals, t: Thread, answers: seq<Answer>)
    requires t.phase.Ended? || (NeedsAnswer(cfg, t) && answers == [])
    ensures Alone(cfg, tot, t, answers) == (tot, t)
  {
  }

  lemma AloneSteps(cfg: Config, tot: Totals, t: Thread, answers: seq<Answer>, k: nat)
    requires NeedsAnswer(cfg, t) && k < |answers|
    ensures var (tot', t') := ThreadStep(cfg, tot, t, answers[k]);
            Alone(cfg, tot, t, answers[k..]) == Alone(cfg, tot', t', answers[k + 1..])
  {
    assert answers[k..][1..] == answers[k + 1..];
  }

  /** Having left the loop, the thread adds both counts and ends. */
  lemma AloneAdds(cfg: Config, tot: Totals, t: Thread, answers: seq<Answer>, e: Ending)
    requires t.phase == AddPerformed(e)
    ensures Alone(cfg, tot, t, answers)
            == (tot.(performed := tot.performed + t.db.performed, failed := tot.failed + t.db.failed),
                t.(phase := Ended(e)))
  {
    var (tot1, t1) := ThreadStep(cfg, tot, t, FINE);
    var (tot2, t2) := ThreadStep(cfg, tot1, t1, FINE);
    assert Alone(cfg, tot, t, answers) == Alone(cfg, tot1, t1, answers);
    assert Alone(cfg, tot1, t1, answers) == Alone(cfg, tot2, t2, answers);
  }

  function Adding(tot: Totals, db: Counters): Totals {
    tot.(performed := tot.performed + db.performed, failed := tot.failed + db.failed)
  }

  /** What connecting comes to when the list is not empty. */
  lemma AloneConnects(cfg: Config, tot: Totals, answers: seq<Answer>)
    requires cfg.size > 0 && answers != []
    ensures Alone(cfg, tot, NEW_THREAD, answers)
            == match answers[0].connection
               case Connected => Alone(cfg, tot, NEW_THREAD.(phase := Querying(0)), answers[1..])
               case NotConnected =>
                 (tot.(connections := tot.connections + 1), NEW_THREAD.(phase := Ended(NoConnection)))
               case ConnectThrew => (tot.(threw := true), NEW_THREAD.(phase := Ended(Exception)))
  {
    var (tot', t') := ThreadStep(cfg, tot, NEW_THREAD, answers[0]);
    assert answers[0..] == answers;
    AloneSteps(cfg, tot, NEW_THREAD, answers, 0);
    hide Alone;
    if t'.phase.Ended? {
      AloneStops(cfg, tot', t', answers[1..]);
    }
  }

  /** What one round of the query loop comes to. */
  lemma AloneRound(cfg: Config, tot: Totals, t: Thread, answers: seq<Answer>, k: nat)
    requires t.phase.Querying? && t.phase.i < cfg.limit && k < |answers|
    ensures var a := answers[k];
            var sent := t.sent + [QueryNumber(cfg, t.phase.i, a.pick)];
            var db, outcomes := Perform(t.db, a.outcome.Succeeded?), t.outcomes + [a.outcome.Succeeded?];
            Alone(cfg, tot, t, answers[k..])
            == if a.outcome.Threw? then (tot.(threw := true), t.(phase := Ended(Exception), sent := sent))
               else if db.consecutive >= MAX_CON_FAILURES then
                 (Adding(tot, db), Thread(Ended(Aborted), db, outcomes, sent))
               else
                 Alone(cfg, tot, Thread(Querying(Wrap32(t.phase.i + 1)), db, outcomes, sent), answers[k + 1..])
  {
    hide Perform, Wrap32, QueryNumber;
    AloneSteps(cfg, tot, t, answers, k);
    var (tot', t') := ThreadStep(cfg, tot, t, answers[k]);
    hide Alone;
    if t'.phase.Ended? {
      AloneStops(cfg, tot', t', answers[k + 1..]);
    } else if t'.phase.AddPerformed? {
      AloneAdds(cfg, tot', t', answers[k + 1..], Aborted);
    }
  }

  /** What leaving the loop at its limit comes to. */
  lemma AloneCompletes(cfg: Config, tot: Totals, t: Thread, answers: seq<Answer>)
    requires t.phase.Querying? && t.phase.i >= cfg.limit
    ensures Alone(cfg, tot, t, answers) == (Adding(tot, t.db), t.(phase := Ended(Completed)))
  {
    assert Alone(cfg, tot, t, answers) == Alone(cfg, tot, t.(phase := AddPerformed(Completed)), answers);
    AloneAdds(cfg, tot, t.(phase := AddPerformed(Completed)), answers, Completed);
  }

  lemma AloneEmpty(cfg: Config, tot: Totals, answers: seq<Answer>)
    requires cfg.size == 0
    ensures Alone(cfg, tot, NEW_THREAD, answers) == (tot, NEW_THREAD.(phase := Ended(EmptyList)))
  {
  }

  /** Running alone is one of the schedules. */
  lemma {:induction false} AloneIsASchedule(cfg: Config, sys: System, tid: nat, answers: seq<Answer>)
      returns (schedule: seq<(nat, Answer)>)
    requires tid < |sys.threads|
    ensures var (tot, t) := Alone(cfg, sys.totals, sys.threads[tid], answers);
            Run(cfg, sys, schedule) == System(tot, sys.threads[tid := t])
    decreases |answers|, Rank(sys.threads[tid].phase)
  {
    var t := sys.threads[tid];
    if t.phase.Ended? || (NeedsAnswer(cfg, t) && answers == []) {
      schedule := [];
      assert sys.threads[tid := t] == sys.threads;
    } else {
      var a := if NeedsAnswer(cfg, t) then answers[0] else FINE;
      var sys' := Step(cfg, sys, tid, a);
      var rest := AloneIsASchedule(cfg, sys', tid, if NeedsAnswer(cfg, t) then answers[1..] else answers);
      schedule := [(tid, a)] + rest;
      assert schedule[1..] == rest;
      var r := Alone(cfg, sys.totals, t, answers).1;
      assert sys'.threads[tid := r] == sys.threads[tid := r];
    }
  }

  /** From inside the loop, `k` answers having been used. */
  lemma {:induction false} AloneLoop(cfg: Config, tot: Totals, t: Thread, answers: seq<Answer>, k: nat)
    requires ThreadInv(cfg, t) && t.phase.Querying? && t.phase.i == |t.outcomes| <= cfg.limit < UINT32
    requires k + (cfg.limit - |t.outcomes|) <= |answers|
    requires forall j | k <= j < k + (cfg.limit - |t.outcomes|) :: !answers[j].outcome.Threw?
    ensures var (tot', r) := Alone(cfg, tot, t, answers[k..]);
            && tot' == Adding(tot, r.db) && ThreadInv(cfg, r) && r.phase in {Ended(Aborted), Ended(Completed)}
            && r.outcomes <= t.outcomes + Outcomes(answers[k..k + (cfg.limit - |t.outcomes|)])
    decreases cfg.limit - |t.outcomes|
  {
    hide ThreadInv, Alone, Perform, Wrap32, QueryNumber, ThreadStep;
    var n := cfg.limit - |t.outcomes|;
    if n == 0 {
      AloneCompletes(cfg, tot, t, answers[k..]);
      CompletedKeepsInv(cfg, t);
    } else {
      AloneRound(cfg, tot, t, answers, k);
      var t' := ThreadStep(cfg, NO_TOTALS, t, answers[k]).1;
      RoundOf(cfg, t, answers[k]);
      RoundIs(cfg, t, answers[k]);
      assert answers[k..][..n] == answers[k..k + n] && answers[k + 1..][..n - 1] == answers[k + 1..k + n];
      assert answers[k..][1..] == answers[k + 1..];
      OutcomesStep(t.outcomes, answers[k..], n);
      if t'.phase.Querying? {
        AloneLoop(cfg, tot, t', answers, k + 1);
      } else {
        EndKeepsInv(cfg, t');
      }
    }
  }

  lemma CompletedKeepsInv(cfg: Config, t: Thread)
    requires ThreadInv(cfg, t) && t.phase.Querying? && t.phase.i >= cfg.limit
    ensures ThreadInv(cfg, t.(phase := Ended(Completed)))
  {
    hide ThreadInv;
    StepKeepsThreadInv(cfg, NO_TOTALS, t, FINE);
    EndKeepsInv(cfg, t.(phase := AddPerformed(Completed)));
  }

  lemma RoundIs(cfg: Config, t: Thread, a: Answer)
    requires t.phase.Querying? && t.phase.i < cfg.limit && !a.outcome.Threw?
    ensures var db := Perform(t.db, a.outcome.Succeeded?);
            ThreadStep(cfg, NO_TOTALS, t, a).1
            == Thread(if db.consecutive >= MAX_CON_FAILURES then AddPerformed(Aborted)
                      else Querying(Wrap32(t.phase.i + 1)),
                      db, t.outcomes + [a.outcome.Succeeded?], t.sent + [QueryNumber(cfg, t.phase.i, a.pick)])
  {
  }

  /**
   The abort rule of the thread's code: connected, and answered `limit` times without an
   exception, it ends at the first point whose last 250 answers failed or, if there is
   none, at the limit, and adds exactly the queries up to there and their failures.
   */
  lemma AloneAsTold(cfg: Config, tot: Totals, answers: seq<Answer>)
    requires cfg.size > 0 && cfg.limit < UINT32 && cfg.limit < |answers| && answers[0].connection.Connected?
    requires forall k | 1 <= k <= cfg.limit :: !answers[k].outcome.Threw?
    ensures var (tot', t) := Alone(cfg, tot, NEW_THREAD, answers);
            && StopsAsTold(t, Outcomes(answers[1..][..cfg.limit]))
            && tot' == tot.(performed := tot.performed + |t.outcomes|, failed := tot.failed + Failures(t.outcomes))
  {
    hide Alone, ThreadInv, ThreadStep, PerformAll, Failures, StopsAsTold, Outcomes, TrailingFailures;
    var t := NEW_THREAD.(phase := Querying(0));
    AloneConnects(cfg, tot, answers);
    EnteredInv(cfg);
    AloneLoop(cfg, tot, t, answers, 1);
    SliceBehind(answers, cfg.limit);
    var (tot', r) := Alone(cfg, tot, NEW_THREAD, answers);
    StopIsTold(cfg, r, Outcomes(answers[1..][..cfg.limit]));
    CountersOf(cfg, r);
  }

  lemma SliceBehind(answers: seq<Answer>, n: nat)
    requires n < |answers|
    ensures answers[1..1 + n] == answers[1..][..n]
    ensures [] + Outcomes(answers[1..1 + n]) == Outcomes(answers[1..][..n])
  {
  }

  lemma EnteredInv(cfg: Config)
    requires cfg.size > 0
    ensures ThreadInv(cfg, NEW_THREAD.(phase := Querying(0)))
  {
  }

  lemma CountersOf(cfg: Config, t: Thread)
    requires ThreadInv(cfg, t)
    ensures t.db == Counters(|t.outcomes|, Failures(t.outcomes), TrailingFailures(t.outcomes))
  {
    CountersExact(t.outcomes);
    hide PerformAll, LastAllFailed, TrailingFailures, Failures;
  }

  // ---- the worker -------------------------------------------------------------------------------

  class DbWorker {
    var performedQueriesTotal: nat
    var failedQueriesTotal: nat
    var failedConnectionsTotal: nat
    var threadFailed: bool
    var mParams: WorkerParams
    const queryList: SqlFileParser.QueryList

    ghost function TotalsNow(): Totals
      reads this
    {
      Totals(performedQueriesTotal, failedQueriesTotal, failedConnectionsTotal, threadFailed)
    }

    function Configuration(): Config
      reads this, queryList
      requires mParams.queriesPerThread >= 0
    {
      Config(mParams.queriesPerThread, |queryList.items|, mParams.shuffle)
    }

    constructor (params: WorkerParams)
      ensures TotalsNow() == NO_TOTALS && mParams == params
      ensures fresh(queryList) && queryList.items == []
    {
      performedQueriesTotal, failedQueriesTotal, failedConnectionsTotal := 0, 0, 0;
      threadFailed := false;
      mParams := params;
      queryList := new SqlFileParser.QueryList();
    }

    /** Without shuffling, one thread goes through the whole list once. */
    method AdjustRuntimeParams()
      modifies this`mParams
      ensures mParams == if old(mParams.shuffle) then old(mParams)
                         else old(mParams).(threads := 1, queriesPerThread := |queryList.items|)
    {
      if !mParams.shuffle {
        mParams := mParams.(threads := 1);
        mParams := mParams.(queriesPerThread := |queryList.items|);
      }
    }

    method CalculateQueries(db: Database)
      modifies this`performedQueriesTotal, this`failedQueriesTotal
      ensures performedQueriesTotal == old(performedQueriesTotal) + db.performedQueries
      ensures failedQueriesTotal == old(failedQueriesTotal) + db.failedQueries
    {
      performedQueriesTotal := performedQueriesTotal + db.performedQueries;
      failedQueriesTotal := failedQueriesTotal + db.failedQueries;
    }

    /** One round of the query loop up to the check for failures: which query, and what came of it. */
    method SendQuery(db: Database, i: nat, a: Answer) returns (queryNumber: nat, threw: bool)
      requires mParams.queriesPerThread >= 0 && 0 < |queryList.items|
      requires !mParams.shuffle ==> i < |queryList.items|
      modifies db
      ensures queryNumber == QueryNumber(Configuration(), i, a.pick) && threw == a.outcome.Threw?
      ensures db.Snapshot()
              == if threw then old(db.Snapshot()) else Perform(old(db.Snapshot()), a.outcome.Succeeded?)
    {
      queryNumber := if mParams.shuffle then a.pick % |queryList.items| else i;
      var success;
      success, threw := db.PerformQuery(queryList.items[queryNumber], a.outcome);
    }

    /**
     The code of one thread. It is told what happens by `answers`; `finished` is false
     if they run out first. `sent` are the numbers of the queries it sent.
     */
    method WorkerThread(answers: seq<Answer>) returns (finished: bool, sent: seq<nat>)
      requires mParams.queriesPerThread >= 0
      requires !mParams.shuffle ==> mParams.queriesPerThread == |queryList.items|
      modifies this
      ensures mParams == old(mParams)
      ensures var (tot, t) := Alone(Configuration(), old(TotalsNow()), NEW_THREAD, answers);
              TotalsNow() == tot && finished == t.phase.Ended? && sent == t.sent
    {
      ghost var cfg, start := Configuration(), TotalsNow();
      sent := [];
      if |queryList.items| == 0 {
        AloneEmpty(cfg, start, answers);
        return true, sent;
      }
      if answers == [] {
        AloneStops(cfg, start, NEW_THREAD, answers);
        return false, sent;
      }
      hide Alone, ThreadStep, Perform, Wrap32, QueryNumber;
      AloneConnects(cfg, start, answers);
      var connection := answers[0].connection;
      if connection.ConnectThrew? {
        threadFailed := true;
        return true, sent;
      }
      if connection.NotConnected? {
        failedConnectionsTotal := failedConnectionsTotal + 1;
        return true, sent;
      }
      var db := new Database();
      ghost var t := NEW_THREAD.(phase := Querying(0));
      var i, k := 0, 1;
      while i < mParams.queriesPerThread
        invariant 1 <= k <= |answers| && mParams == old(mParams) && cfg == Configuration() && TotalsNow() == start
        invariant fresh(db) && 0 <= i
        invariant t.phase == Querying(i) && t.db == db.Snapshot() && t.sent == sent
        invariant Alone(cfg, start, NEW_THREAD, answers) == Alone(cfg, start, t, answers[k..])
        decreases |answers| - k
      {
        if k == |answers| {
          AloneStops(cfg, start, t, answers[k..]);
          return false, sent;
        }
        var a := answers[k];
        AloneRound(cfg, start, t, answers, k);
        k := k + 1;
        var queryNumber, threw := SendQuery(db, i, a);
        sent := sent + [queryNumber];
        if threw {
          threadFailed := true;
          return true, sent;
        }
        var maxConFailCount := db.consecutiveFailures;
        if maxConFailCount >= MAX_CON_FAILURES {
          CalculateQueries(db);
          return true, sent;
        }
        i := Wrap32(i + 1);
        t := Thread(Querying(i), db.Snapshot(), t.outcomes + [a.outcome.Succeeded?], sent);
      }
      AloneCompletes(cfg, start, t, answers[k..]);
      CalculateQueries(db);
      return true, sent;
    }

    /**
     The whole run: `connected` says whether the test connection works, `file` is what
     the input file holds, `schedule` how the threads interleave. The join waits for all
     threads: `finished` is false when the schedule stops before the last of them has
     ended, and `result` is then what would be returned if they had all stopped there.
     */
    method ExecuteTests(connected: bool, file: Option<string>, schedule: seq<(nat, Answer)>)
        returns (result: bool, finished: bool, sys: System)
      requires mParams.queriesPerThread >= 0 && mParams.threads >= 0
      requires queryList.items == [] && TotalsNow() == NO_TOTALS
      modifies this, queryList
      ensures var loaded := && connected && file.Some? && mParams.infiletype == eSQL
                            && 0 < |file.value| <= mParams.queryListMaxsize;
              var queries := SqlScan.SplitFile(if file.Some? then file.value else "", mParams.dbtype == ePGSQL);
              if loaded then
                && queryList.items == queries
                && sys == Run(Settings(old(mParams), |queries|), Spawned(ThreadCount(old(mParams))), schedule)
                && TotalsNow() == sys.totals && result == !sys.totals.threw && finished == Joined(sys)
                && DoesAsTold(old(mParams), |queries|, schedule, sys)
                && (finished ==>
                      && performedQueriesTotal == Sum(sys.threads, Performed)
                      && failedQueriesTotal == Sum(sys.threads, FailedOf)
                      && failedConnectionsTotal == Sum(sys.threads, FailedConnection)
                      && (result <==> !SomeThrew(sys.threads)))
              else
                !result && finished && sys == Spawned(0) && TotalsNow() == NO_TOTALS
    {
      sys := Spawned(0);
      if !connected {
        return false, true, sys;
      }
      if file.None? || mParams.infiletype != eSQL {
        return false, true, sys;
      }
      if |file.value| == 0 || |file.value| > mParams.queryListMaxsize {
        return false, true, sys;
      }
      var parser := new SqlFileParser.SqlFileParser(mParams.dbtype == ePGSQL);
      var ok := parser.LoadQueriesFromFile(queryList, file);
      if !ok {
        return false, true, sys;
      }
      AdjustRuntimeParams();
      hide Run, Sum, SomeThrew, DoesAsTold;
      sys := Run(Configuration(), Spawned(mParams.threads), schedule);
      performedQueriesTotal, failedQueriesTotal := sys.totals.performed, sys.totals.failed;
      failedConnectionsTotal, threadFailed := sys.totals.connections, sys.totals.threw;
      TotalsExact(Configuration(), mParams.threads, schedule);
      RunDoesAsTold(old(mParams), |queryList.items|, schedule);
      hide Joined;
      return !threadFailed, Joined(sys), sys;
    }
  }

  /** What the parameters come to once the list has `size` queries. */
  function Settings(p: WorkerParams, size: nat): Config
    requires p.queriesPerThread >= 0
  {
    Config(if p.shuffle then p.queriesPerThread else size, size, p.shuffle)
  }

  function ThreadCount(p: WorkerParams): nat
    requires p.threads >= 0
  {
    if p.shuffle then p.threads else 1
  }

  /**
   What a run over `size` queries does by the parameters of the section: shuffled there
   are as many threads as it says, and each that completes has sent as many queries as it
   says, the ones its random numbers pick; otherwise there is one, and it sends the list.
   */
  ghost predicate DoesAsTold(p: WorkerParams, size: nat, schedule: seq<(nat, Answer)>, sys: System) {
    && |sys.threads| == (if p.shuffle then p.threads else 1)
    && (forall t | t in sys.threads && t.phase == Ended(Completed) ::
          t.db.performed == if p.shuffle then p.queriesPerThread else size)
    && forall tid: nat | tid < |sys.threads| ::
         var sent, told := sys.threads[tid].sent, Own(schedule, tid);
         forall j | 0 <= j < |sent| ::
           j + 1 < |told| && size > 0 && sent[j] == if p.shuffle then told[j + 1].pick % size else j % 4294967296
  }

  lemma RunDoesAsTold(p: WorkerParams, size: nat, schedule: seq<(nat, Answer)>)
    requires p.queriesPerThread >= 0 && p.threads >= 0
    ensures DoesAsTold(p, size, schedule, Run(Settings(p, size), Spawned(ThreadCount(p)), schedule))
  {
    hide Run, Own;
    var cfg, n := Settings(p, size), ThreadCount(p);
    CompletedCounts(cfg, n, schedule);
    forall tid: nat | tid < n
      ensures Picked(cfg, Run(cfg, Spawned(n), schedule).threads[tid].sent, Own(schedule, tid))
    {
      PicksDecide(cfg, n, schedule, tid);
    }
  }

  // ---- replaying a file ------------------------------------------------------------------------------

  function Texts(queries: seq<string>, sent: seq<nat>): seq<string>
    requires forall j | 0 <= j < |sent| :: sent[j] < |queries|
  {
    if sent == [] then [] else Texts(queries, sent[..|sent| - 1]) + [queries[sent[|sent| - 1]]]
  }

  lemma {:induction false} TextsInOrder(queries: seq<string>, sent: seq<nat>)
    requires |sent| <= |queries| && forall j | 0 <= j < |sent| :: sent[j] == j
    ensures Texts(queries, sent) == queries[..|sent|]
  {
    if sent != [] {
      var n := |sent| - 1;
      TextsInOrder(queries, sent[..n]);
      assert queries[..n] + [queries[n]] == queries[..n + 1];
    }
  }

  /**
   With shuffling off, what is sent of a file is its statements in file order, each
   once, from the first on; it stops short only after 250 failures in a row, a failed
   connection or an exception. This for every answer the server gives.
   */
  lemma ReplaySendsTheFile(f: string, p: WorkerParams, schedule: seq<(nat, Answer)>)
    requires !p.shuffle && p.queriesPerThread >= 0
    requires |SqlScan.SplitFile(f, p.dbtype == ePGSQL)| < UINT32
    ensures var queries := SqlScan.SplitFile(f, p.dbtype == ePGSQL);
            var sys := Run(Settings(p, |queries|), Spawned(1), schedule);
            && |sys.threads| == 1
            && var t := sys.threads[0];
               && (forall j | 0 <= j < |t.sent| :: t.sent[j] < |queries|)
               && Texts(queries, t.sent) <= queries
               && (t.phase.Ended? && Texts(queries, t.sent) != queries ==>
                     t.phase.ending in {Aborted, NoConnection, Exception})
  {
    var queries := SqlScan.SplitFile(f, p.dbtype == ePGSQL);
    var cfg := Settings(p, |queries|);
    Replay(cfg, 1, schedule, 0);
    var t := Run(cfg, Spawned(1), schedule).threads[0];
    TextsInOrder(queries, t.sent);
    assert |t.sent| == |queries| ==> queries[..|t.sent|] == queries;
  }
}
