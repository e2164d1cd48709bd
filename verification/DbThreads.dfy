/**
 The threads of one worker. A schedule names, step by step, the thread that runs
 and what it is told; every interleaving of the threads is a schedule. One step is
 one access to the shared totals or one query.
 */
module DbThreads {
  import opened Params
  import opened Database

  datatype Connection = Connected | NotConnected | ConnectThrew

  /** Answers for whatever the thread is about to ask; `pick` stands for the random number. */
  datatype Answer = Answer(connection: Connection, outcome: Outcome, pick: nat)

  /** Queries per thread, length of the query list, random order or replay. */
  datatype Config = Config(limit: nat, size: nat, shuffle: bool)

  datatype Ending = EmptyList | NoConnection | Exception | Aborted | Completed

  datatype Phase =
    | Starting
    | Querying(i: nat)          // the 32-bit loop index
    | AddPerformed(ending: Ending)
    | AddFailed(ending: Ending)
    | Ended(ending: Ending)

  /** `outcomes` and `sent` record what the thread has done so far. */
  datatype Thread = Thread(phase: Phase, db: Counters, outcomes: seq<bool>, sent: seq<nat>)

  datatype Totals = Totals(performed: nat, failed: nat, connections: nat, threw: bool)

  datatype System = System(totals: Totals, threads: seq<Thread>)

  const NEW_THREAD := Thread(Starting, ZERO, [], [])
  const NO_TOTALS := Totals(0, 0, 0, false)

  /** What a 32-bit index holds after counting to `k`. */
  function Wrap32(k: nat): nat {
    k % UINT32
  }

  function QueryNumber(cfg: Config, i: nat, pick: nat): nat {
    if cfg.shuffle && cfg.size > 0 then pick % cfg.size else i
  }

  function ThreadStep(cfg: Config, tot: Totals, t: Thread, a: Answer): (Totals, Thread) {
    match t.phase
    case Starting =>
      if cfg.size == 0 then (tot, t.(phase := Ended(EmptyList)))
      else (match a.connection
            case Connected => (tot, t.(phase := Querying(0)))
            case NotConnected => (tot.(connections := tot.connections + 1), t.(phase := Ended(NoConnection)))
            case ConnectThrew => (tot.(threw := true), t.(phase := Ended(Exception))))
    case Querying(i) =>
      if i >= cfg.limit then (tot, t.(phase := AddPerformed(Completed)))
      else
        var sent := t.sent + [QueryNumber(cfg, i, a.pick)];
        if a.outcome.Threw? then (tot.(threw := true), t.(phase := Ended(Exception), sent := sent))
        else
          var db := Perform(t.db, a.outcome.Succeeded?);
          var next := if db.consecutive >= MAX_CON_FAILURES then AddPerformed(Aborted) else Querying(Wrap32(i + 1));
          (tot, Thread(next, db, t.outcomes + [a.outcome.Succeeded?], sent))
    case AddPerformed(e) => (tot.(performed := tot.performed + t.db.performed), t.(phase := AddFailed(e)))
    case AddFailed(e) => (tot.(failed := tot.failed + t.db.failed), t.(phase := Ended(e)))
    case Ended(_) => (tot, t)
  }

  function Step(cfg: Config, sys: System, tid: nat, a: Answer): System {
    if tid >= |sys.threads| then sys
    else
      var (tot, t) := ThreadStep(cfg, sys.totals, sys.threads[tid], a);
      System(tot, sys.threads[tid := t])
  }

  function Run(cfg: Config, sys: System, schedule: seq<(nat, Answer)>): System
    decreases |schedule|
  {
    if schedule == [] then sys else Run(cfg, Step(cfg, sys, schedule[0].0, schedule[0].1), schedule[1..])
  }

  function Spawned(n: nat): System {
    System(NO_TOTALS, seq(n, _ => NEW_THREAD))
  }

  // ---- each thread on its own --------------------------------------------------------------------

  predicate SentOk(cfg: Config, sent: seq<nat>) {
    forall j | 0 <= j < |sent| :: if cfg.shuffle then sent[j] < cfg.size else sent[j] == Wrap32(j)
  }

  predicate NoEarlyAbort(outcomes: seq<bool>) {
    forall k: nat | k < |outcomes| :: !LastAllFailed(outcomes, k)
  }

  /** The loop was left after exactly these outcomes, and for this reason. */
  predicate LeftLoop(cfg: Config, t: Thread, e: Ending) {
    && cfg.size > 0 && |t.sent| == |t.outcomes| && (cfg.limit < UINT32 ==> |t.outcomes| <= cfg.limit)
    && match e
       case Aborted => LastAllFailed(t.outcomes, |t.outcomes|)
       case Completed => !LastAllFailed(t.outcomes, |t.outcomes|) && cfg.limit == |t.outcomes| < UINT32
       case _ => false
  }

  predicate ThreadInv(cfg: Config, t: Thread) {
    && NoEarlyAbort(t.outcomes) && t.db == PerformAll(t.outcomes) && SentOk(cfg, t.sent)
    && match t.phase
       case Starting => t.outcomes == [] && t.sent == []
       case Querying(i) =>
         && cfg.size > 0 && |t.sent| == |t.outcomes| && i == Wrap32(|t.outcomes|)
         && (cfg.limit < UINT32 ==> |t.outcomes| <= cfg.limit)
         && !LastAllFailed(t.outcomes, |t.outcomes|)
       case AddPerformed(e) => LeftLoop(cfg, t, e)
       case AddFailed(e) => LeftLoop(cfg, t, e)
       case Ended(e) =>
         match e
         case EmptyList => cfg.size == 0 && t.sent == [] && t.outcomes == []
         case NoConnection => t.sent == [] && t.outcomes == []
         case Exception =>
           && |t.outcomes| <= |t.sent| <= |t.outcomes| + 1
           && (cfg.limit < UINT32 ==> |t.sent| <= cfg.limit)
           && !LastAllFailed(t.outcomes, |t.outcomes|)
         case _ => LeftLoop(cfg, t, e)
  }

  lemma IndexStep(k: nat)
    ensures Wrap32(Wrap32(k) + 1) == Wrap32(k + 1)
    ensures k < UINT32 ==> Wrap32(k) == k
  {
  }

  /** What one more outcome does to the run of failures. */
  lemma OutcomeStep(t: Thread, o: bool)
    requires NoEarlyAbort(t.outcomes) && t.db == PerformAll(t.outcomes) && !LastAllFailed(t.outcomes, |t.outcomes|)
    ensures NoEarlyAbort(t.outcomes + [o]) && Perform(t.db, o) == PerformAll(t.outcomes + [o])
    ensures LastAllFailed(t.outcomes + [o], |t.outcomes| + 1) <==> Perform(t.db, o).consecutive >= MAX_CON_FAILURES
  {
    OneMore(t.outcomes, o);
    forall k: nat | k < |t.outcomes + [o]|
      ensures !LastAllFailed(t.outcomes + [o], k)
    {
      LastAllFailedPrefix(t.outcomes, o, k);
    }
    CountersExact(t.outcomes + [o]);
    LastAllFailedIsTrailing(t.outcomes + [o]);
  }

  lemma SentStep(cfg: Config, t: Thread, a: Answer)
    requires ThreadInv(cfg, t) && t.phase.Querying?
    ensures SentOk(cfg, t.sent + [QueryNumber(cfg, t.phase.i, a.pick)])
  {
    hide PerformAll, NoEarlyAbort, LastAllFailed;
  }

  /** The thread after one more answered query. */
  lemma AnsweredKeepsInv(cfg: Config, t: Thread, o: bool, q: nat)
    requires ThreadInv(cfg, t) && t.phase.Querying? && t.phase.i < cfg.limit && SentOk(cfg, t.sent + [q])
    ensures var db := Perform(t.db, o);
            var next := if db.consecutive >= MAX_CON_FAILURES then AddPerformed(Aborted)
                        else Querying(Wrap32(t.phase.i + 1));
            ThreadInv(cfg, Thread(next, db, t.outcomes + [o], t.sent + [q]))
  {
    hide PerformAll, NoEarlyAbort, LastAllFailed, SentOk, Perform, Wrap32;
    IndexStep(|t.outcomes|);
    OutcomeStep(t, o);
    assert |t.outcomes + [o]| == |t.outcomes| + 1;
  }

  lemma QueryKeepsInv(cfg: Config, tot: Totals, t: Thread, a: Answer)
    requires ThreadInv(cfg, t) && t.phase.Querying? && t.phase.i < cfg.limit
    ensures ThreadInv(cfg, ThreadStep(cfg, tot, t, a).1)
  {
    SentStep(cfg, t, a);
    IndexStep(|t.outcomes|);
    if a.outcome.Threw? {
      hide PerformAll, NoEarlyAbort, LastAllFailed, SentOk, Perform, Wrap32, QueryNumber;
      assert |t.sent + [QueryNumber(cfg, t.phase.i, a.pick)]| == |t.sent| + 1;
    } else {
      hide ThreadInv, SentOk, Perform, Wrap32, QueryNumber;
      AnsweredKeepsInv(cfg, t, a.outcome.Succeeded?, QueryNumber(cfg, t.phase.i, a.pick));
    }
  }

  lemma StepKeepsThreadInv(cfg: Config, tot: Totals, t: Thread, a: Answer)
    requires ThreadInv(cfg, t)
    ensures ThreadInv(cfg, ThreadStep(cfg, tot, t, a).1)
  {
    if t.phase.Querying? && t.phase.i < cfg.limit {
      QueryKeepsInv(cfg, tot, t, a);
    }
  }

  // ---- the shared totals -----------------------------------------------------------------------------

  predicate Counted(t: Thread) {
    t.phase.Ended? && (t.phase.ending.Aborted? || t.phase.ending.Completed?)
  }

  function AddedPerformed(t: Thread): nat {
    if t.phase.AddFailed? || Counted(t) then t.db.performed else 0
  }

  function AddedFailed(t: Thread): nat {
    if Counted(t) then t.db.failed else 0
  }

  function FailedConnection(t: Thread): nat {
    if t.phase == Ended(NoConnection) then 1 else 0
  }

  function Sum(ts: seq<Thread>, f: Thread -> nat): nat {
    if ts == [] then 0 else f(ts[0]) + Sum(ts[1..], f)
  }

  lemma {:induction false} SumUpdate(ts: seq<Thread>, f: Thread -> nat, i: nat, t: Thread)
    requires i < |ts|
    ensures Sum(ts[i := t], f) + f(ts[i]) == Sum(ts, f) + f(t)
  {
    if i == 0 {
      assert ts[0 := t][1..] == ts[1..];
    } else {
      assert ts[i := t][1..] == ts[1..][i - 1 := t];
      SumUpdate(ts[1..], f, i - 1, t);
    }
  }

  lemma {:induction false} SumMonotone(ts: seq<Thread>, f: Thread -> nat, g: Thread -> nat)
    requires forall i | 0 <= i < |ts| :: f(ts[i]) <= g(ts[i])
    ensures Sum(ts, f) <= Sum(ts, g)
  {
    if ts != [] {
      SumMonotone(ts[1..], f, g);
    }
  }

  lemma {:induction false} SumZero(ts: seq<Thread>, f: Thread -> nat)
    requires forall i | 0 <= i < |ts| :: f(ts[i]) == 0
    ensures Sum(ts, f) == 0
  {
    if ts != [] {
      SumZero(ts[1..], f);
    }
  }

  lemma {:induction false} SumBounded(ts: seq<Thread>, f: Thread -> nat, b: nat)
    requires forall i | 0 <= i < |ts| :: f(ts[i]) <= b
    ensures Sum(ts, f) <= |ts| * b
  {
    if ts != [] {
      SumBounded(ts[1..], f, b);
      assert |ts| * b == b + |ts[1..]| * b;
    }
  }

  ghost predicate Inv(cfg: Config, sys: System) {
    && (forall i | 0 <= i < |sys.threads| :: ThreadInv(cfg, sys.threads[i]))
    && sys.totals.performed == Sum(sys.threads, AddedPerformed)
    && sys.totals.failed == Sum(sys.threads, AddedFailed)
    && sys.totals.connections == Sum(sys.threads, FailedConnection)
    && (sys.totals.threw <==> SomeThrew(sys.threads))
  }

  /** A step adds to the totals what it marks as added. */
  lemma StepTotals(cfg: Config, tot: Totals, t: Thread, a: Answer)
    requires ThreadInv(cfg, t)
    ensures var (tot', t') := ThreadStep(cfg, tot, t, a);
            && tot'.performed + AddedPerformed(t) == tot.performed + AddedPerformed(t')
            && tot'.failed + AddedFailed(t) == tot.failed + AddedFailed(t')
            && tot'.connections + FailedConnection(t) == tot.connections + FailedConnection(t')
            && (if t.phase == Ended(Exception) then t' == t && tot' == tot
                else tot'.threw <==> tot.threw || t'.phase == Ended(Exception))
  {
    hide PerformAll, NoEarlyAbort, LastAllFailed, SentOk, Perform, Wrap32, QueryNumber;
  }

  lemma StepKeepsInv(cfg: Config, sys: System, tid: nat, a: Answer)
    requires Inv(cfg, sys)
    ensures Inv(cfg, Step(cfg, sys, tid, a))
  {
    if tid < |sys.threads| {
      hide ThreadInv, ThreadStep, AddedPerformed, AddedFailed, FailedConnection, Sum;
      var t, t' := sys.threads[tid], ThreadStep(cfg, sys.totals, sys.threads[tid], a).1;
      var ts' := sys.threads[tid := t'];
      assert t' == t ==> ts' == sys.threads;
      StepKeepsThreadInv(cfg, sys.totals, t, a);
      StepTotals(cfg, sys.totals, t, a);
      SumUpdate(sys.threads, AddedPerformed, tid, t');
      SumUpdate(sys.threads, AddedFailed, tid, t');
      SumUpdate(sys.threads, FailedConnection, tid, t');
      ThrewStep(sys.threads, tid, t');
    }
  }

  ghost predicate SomeThrew(ts: seq<Thread>) {
    exists i :: 0 <= i < |ts| && ts[i].phase == Ended(Exception)
  }

  lemma ThrewStep(ts: seq<Thread>, tid: nat, t': Thread)
    requires tid < |ts| && (ts[tid].phase == Ended(Exception) ==> t' == ts[tid])
    ensures SomeThrew(ts[tid := t']) <==> SomeThrew(ts) || t'.phase == Ended(Exception)
  {
    var ts' := ts[tid := t'];
    if SomeThrew(ts) {
      var i :| 0 <= i < |ts| && ts[i].phase == Ended(Exception);
      assert ts'[i].phase == Ended(Exception);
    }
    if t'.phase == Ended(Exception) {
      assert ts'[tid].phase == Ended(Exception);
    }
  }

  lemma {:induction false} RunKeepsInv(cfg: Config, sys: System, schedule: seq<(nat, Answer)>)
    requires Inv(cfg, sys)
    ensures Inv(cfg, Run(cfg, sys, schedule))
    ensures |Run(cfg, sys, schedule).threads| == |sys.threads|
    decreases |schedule|
  {
    if schedule != [] {
      StepKeepsInv(cfg, sys, schedule[0].0, schedule[0].1);
      RunKeepsInv(cfg, Step(cfg, sys, schedule[0].0, schedule[0].1), schedule[1..]);
    }
  }

  lemma SpawnedInv(cfg: Config, n: nat)
    ensures Inv(cfg, Spawned(n))
  {
    SumZero(Spawned(n).threads, AddedPerformed);
    SumZero(Spawned(n).threads, AddedFailed);
    SumZero(Spawned(n).threads, FailedConnection);
  }

  // ---- theorems over every interleaving -------------------------------------------------------------------

  function Performed(t: Thread): nat {
    if Counted(t) then |t.outcomes| else 0
  }

  function FailedOf(t: Thread): nat {
    if Counted(t) then Failures(t.outcomes) else 0
  }

  predicate Joined(sys: System) {
    forall i | 0 <= i < |sys.threads| :: sys.threads[i].phase.Ended?
  }

  lemma {:induction false} SumSame(ts: seq<Thread>, f: Thread -> nat, g: Thread -> nat)
    requires forall i | 0 <= i < |ts| :: f(ts[i]) == g(ts[i])
    ensures Sum(ts, f) == Sum(ts, g)
  {
    if ts != [] {
      SumSame(ts[1..], f, g);
    }
  }

  /**
   After every step of every interleaving no more failed than performed queries have
   been added up; once all threads have ended, the totals are the sums over the
   threads that ran to the end or gave up after 250 failures.
   */
  lemma TotalsExact(cfg: Config, n: nat, schedule: seq<(nat, Answer)>)
    ensures var sys := Run(cfg, Spawned(n), schedule);
            && sys.totals.failed <= sys.totals.performed
            && (Joined(sys) ==>
                  && sys.totals.performed == Sum(sys.threads, Performed)
                  && sys.totals.failed == Sum(sys.threads, FailedOf))
            && sys.totals.connections == Sum(sys.threads, FailedConnection)
            && (sys.totals.threw <==> SomeThrew(sys.threads))
  {
    SpawnedInv(cfg, n);
    RunKeepsInv(cfg, Spawned(n), schedule);
    var sys := Run(cfg, Spawned(n), schedule);
    forall i | 0 <= i < |sys.threads|
      ensures AddedFailed(sys.threads[i]) <= AddedPerformed(sys.threads[i])
      ensures Joined(sys) ==> AddedPerformed(sys.threads[i]) == Performed(sys.threads[i])
      ensures AddedFailed(sys.threads[i]) == FailedOf(sys.threads[i])
    {
      assert ThreadInv(cfg, sys.threads[i]);
      CountersExact(sys.threads[i].outcomes);
    }
    SumMonotone(sys.threads, AddedFailed, AddedPerformed);
    if Joined(sys) {
      SumSame(sys.threads, AddedPerformed, Performed);
      SumSame(sys.threads, AddedFailed, FailedOf);
    }
  }

  /** The percentage in the final report; there is none before the first query. */
  function SuccessRatio(tot: Totals): real
    requires tot.performed > 0
  {
    (tot.performed - tot.failed) as real * 100.0 / tot.performed as real
  }

  lemma RatioInRange(cfg: Config, n: nat, schedule: seq<(nat, Answer)>)
    requires Run(cfg, Spawned(n), schedule).totals.performed > 0
    ensures 0.0 <= SuccessRatio(Run(cfg, Spawned(n), schedule).totals) <= 100.0
  {
    TotalsExact(cfg, n, schedule);
    var tot := Run(cfg, Spawned(n), schedule).totals;
    RatioBounds((tot.performed - tot.failed) as real, tot.performed as real);
  }

  lemma RatioBounds(good: real, all: real)
    requires 0.0 <= good <= all && all > 0.0
    ensures 0.0 <= good * 100.0 / all <= 100.0
  {
    assert good * 100.0 <= 100.0 * all;
  }

  function Successes(outcomes: seq<bool>): nat {
    if outcomes == [] then 0
    else Successes(outcomes[..|outcomes| - 1]) + if outcomes[|outcomes| - 1] then 1 else 0
  }

  function SucceededOf(t: Thread): nat {
    if Counted(t) then Successes(t.outcomes) else 0
  }

  lemma {:induction false} SuccessesAndFailures(outcomes: seq<bool>)
    ensures Successes(outcomes) + Failures(outcomes) == |outcomes|
  {
    if outcomes != [] {
      SuccessesAndFailures(outcomes[..|outcomes| - 1]);
    }
  }

  lemma {:induction false} SumSplits(ts: seq<Thread>)
    ensures Sum(ts, SucceededOf) + Sum(ts, FailedOf) == Sum(ts, Performed)
  {
    if ts != [] {
      SuccessesAndFailures(ts[0].outcomes);
      SumSplits(ts[1..]);
    }
  }

  lemma RatioOf(tot: Totals, good: nat)
    requires tot.performed > 0 && good + tot.failed == tot.performed
    ensures SuccessRatio(tot) * tot.performed as real == 100.0 * good as real
  {
    assert tot.performed - tot.failed == good;
    var g, p := good as real, tot.performed as real;
    assert g * 100.0 / p * p == g * 100.0;
  }

  /** Once all threads have ended, the ratio is the share of the successful among the counted queries, in percent. */
  lemma RatioExact(cfg: Config, n: nat, schedule: seq<(nat, Answer)>)
    ensures var sys := Run(cfg, Spawned(n), schedule);
            Joined(sys) && sys.totals.performed > 0 ==>
              SuccessRatio(sys.totals) * Sum(sys.threads, Performed) as real
              == 100.0 * Sum(sys.threads, SucceededOf) as real
  {
    TotalsExact(cfg, n, schedule);
    var sys := Run(cfg, Spawned(n), schedule);
    SumSplits(sys.threads);
    hide Run, Sum, SuccessRatio, Joined, SomeThrew;
    if Joined(sys) && sys.totals.performed > 0 {
      RatioOf(sys.totals, Sum(sys.threads, SucceededOf));
    }
  }

  /** With 16-bit thread counts and 32-bit limits the 64-bit totals cannot wrap. */
  lemma TotalsFit(cfg: Config, n: nat, schedule: seq<(nat, Answer)>)
    requires cfg.limit < 4294967296 && n < 65536
    ensures Run(cfg, Spawned(n), schedule).totals.performed < 281474976710656
  {
    SpawnedInv(cfg, n);
    RunKeepsInv(cfg, Spawned(n), schedule);
    var sys := Run(cfg, Spawned(n), schedule);
    forall i | 0 <= i < |sys.threads|
      ensures AddedPerformed(sys.threads[i]) <= cfg.limit
    {
      assert ThreadInv(cfg, sys.threads[i]);
      CountersExact(sys.threads[i].outcomes);
    }
    SumBounded(sys.threads, AddedPerformed, cfg.limit);
    ProductBelow(n, cfg.limit, UINT16, UINT32);
  }

  lemma ProductBelow(a: nat, b: nat, m: nat, n: nat)
    requires a < m && b < n
    ensures a * b < n * m
  {
    assert a * b <= a * n;
    assert a * n < m * n;
  }

  /**
   The abort rule. A thread that gave up did so at the first point where its last 250
   outcomes were all failures; one that completed performed exactly `limit` queries
   without reaching such a point. While a thread runs, the 16-bit counter is the
   current run of failures and at most 250.
   */
  lemma AbortRule(cfg: Config, n: nat, schedule: seq<(nat, Answer)>, tid: nat)
    requires tid < n
    ensures |Run(cfg, Spawned(n), schedule).threads| == n
    ensures var t := Run(cfg, Spawned(n), schedule).threads[tid];
            && t.db == Counters(|t.outcomes|, Failures(t.outcomes), TrailingFailures(t.outcomes))
            && t.db.consecutive <= 250
            && (t.phase == Ended(Aborted) ==>
                  AbortsAt(t.outcomes, |t.outcomes|) && (cfg.limit < UINT32 ==> |t.outcomes| <= cfg.limit))
            && (t.phase == Ended(Completed) ==>
                  |t.outcomes| == cfg.limit && forall k: nat :: !LastAllFailed(t.outcomes, k))
  {
    SpawnedInv(cfg, n);
    RunKeepsInv(cfg, Spawned(n), schedule);
    var t := Run(cfg, Spawned(n), schedule).threads[tid];
    assert ThreadInv(cfg, t);
    CountersExact(t.outcomes);
  }

  /**
   Every query number used is in range. In replay the numbers sent are 0, 1, 2, ...
   in order, each once; the list is not exhausted only if the thread was stopped by
   250 failures, a failed connection or an exception.
   */
  lemma Replay(cfg: Config, n: nat, schedule: seq<(nat, Answer)>, tid: nat)
    requires tid < n && !cfg.shuffle && cfg.limit == cfg.size < UINT32
    ensures |Run(cfg, Spawned(n), schedule).threads| == n
    ensures var t := Run(cfg, Spawned(n), schedule).threads[tid];
            && |t.sent| <= cfg.size
            && (forall j | 0 <= j < |t.sent| :: t.sent[j] == j)
            && (t.phase.Ended? && |t.sent| < cfg.size ==> t.phase.ending in {Aborted, NoConnection, Exception})
  {
    SpawnedInv(cfg, n);
    RunKeepsInv(cfg, Spawned(n), schedule);
    var t := Run(cfg, Spawned(n), schedule).threads[tid];
    assert ThreadInv(cfg, t);
    forall j | 0 <= j < |t.sent|
      ensures t.sent[j] == j
    {
      IndexStep(j);
    }
  }

  /**
   In shuffled runs and in replays alike, every number any thread has sent so far
   indexes the query list, and none is sent when the list is empty.
   */
  lemma SentIndexesTheList(cfg: Config, n: nat, schedule: seq<(nat, Answer)>, tid: nat)
    requires tid < n && (cfg.shuffle || cfg.limit == cfg.size < UINT32)
    ensures |Run(cfg, Spawned(n), schedule).threads| == n
    ensures var t := Run(cfg, Spawned(n), schedule).threads[tid];
            && (forall j | 0 <= j < |t.sent| :: t.sent[j] < cfg.size)
            && (cfg.size == 0 ==> t.sent == [])
  {
    SpawnedInv(cfg, n);
    RunKeepsInv(cfg, Spawned(n), schedule);
    var t := Run(cfg, Spawned(n), schedule).threads[tid];
    if !cfg.shuffle {
      Replay(cfg, n, schedule, tid);
    }
    assert ThreadInv(cfg, t);
    assert t.sent != [] ==> t.sent[0] in t.sent;
  }

  // ---- when a thread can complete at all ---------------------------------------------------------------------

  const FINE := Answer(Connected, Succeeded, 0)

  /** A thread in its loop can be let run to the end, whatever the other threads have done. */
  lemma {:induction false} Finishes(cfg: Config, sys: System, tid: nat) returns (schedule: seq<(nat, Answer)>)
    requires tid < |sys.threads| && sys.threads[tid].phase.Querying?
    requires sys.threads[tid].phase.i <= cfg.limit < UINT32
    ensures |Run(cfg, sys, schedule).threads| == |sys.threads|
    ensures Run(cfg, sys, schedule).threads[tid].phase == Ended(Completed)
    decreases cfg.limit - sys.threads[tid].phase.i
  {
    var sys1 := Step(cfg, sys, tid, FINE);
    if sys.threads[tid].phase.i < cfg.limit {
      IndexStep(sys.threads[tid].phase.i + 1);
      var rest := Finishes(cfg, sys1, tid);
      schedule := [(tid, FINE)] + rest;
      assert schedule[1..] == rest;
    } else {
      var sys2 := Step(cfg, sys1, tid, FINE);
      var sys3 := Step(cfg, sys2, tid, FINE);
      schedule := [(tid, FINE), (tid, FINE), (tid, FINE)];
      assert schedule[1..] == [(tid, FINE), (tid, FINE)] && schedule[1..][1..] == [(tid, FINE)];
      assert Run(cfg, sys2, [(tid, FINE)]) == sys3;
      assert Run(cfg, sys1, [(tid, FINE), (tid, FINE)]) == sys3 by {
        assert [(tid, FINE), (tid, FINE)][1..] == [(tid, FINE)];
      }
    }
  }

  ghost predicate CompletesUnder(cfg: Config, n: nat, tid: nat, schedule: seq<(nat, Answer)>) {
    var ts := Run(cfg, Spawned(n), schedule).threads;
    tid < |ts| && ts[tid].phase == Ended(Completed)
  }

  lemma CanComplete(cfg: Config, n: nat, tid: nat) returns (schedule: seq<(nat, Answer)>)
    requires tid < n && cfg.size > 0 && cfg.limit < UINT32
    ensures CompletesUnder(cfg, n, tid, schedule)
  {
    var sys1 := Step(cfg, Spawned(n), tid, FINE);
    var rest := Finishes(cfg, sys1, tid);
    schedule := [(tid, FINE)] + rest;
    assert schedule[1..] == rest;
  }

  /**
   However many threads there are, each of them can complete in some run exactly if the
   list is not empty and the limit is below 2^32: the loop index is 32 bits wide and
   starts over before it reaches any larger limit.
   */
  lemma CompletionExact(cfg: Config, n: nat, tid: nat)
    requires tid < n
    ensures (exists schedule :: CompletesUnder(cfg, n, tid, schedule)) <==> 0 < cfg.size && cfg.limit < 4294967296
  {
    if 0 < cfg.size && cfg.limit < UINT32 {
      var schedule := CanComplete(cfg, n, tid);
    }
    forall schedule | CompletesUnder(cfg, n, tid, schedule)
      ensures 0 < cfg.size && cfg.limit < UINT32
    {
      SpawnedInv(cfg, n);
      RunKeepsInv(cfg, Spawned(n), schedule);
      assert ThreadInv(cfg, Run(cfg, Spawned(n), schedule).threads[tid]);
    }
  }

  // ---- what a thread is told decides what it does -------------------------------------------------------------

  /** What the schedule tells thread `tid`, step by step. */
  function Own(schedule: seq<(nat, Answer)>, tid: nat): seq<Answer> {
    if schedule == [] then []
    else (if schedule[0].0 == tid then [schedule[0].1] else []) + Own(schedule[1..], tid)
  }

  /** The thread after these steps, whatever the totals. */
  function Trace(cfg: Config, t: Thread, answers: seq<Answer>): Thread
    decreases |answers|
  {
    if answers == [] then t else Trace(cfg, ThreadStep(cfg, NO_TOTALS, t, answers[0]).1, answers[1..])
  }

  /** No thread influences another, except through the totals. */
  lemma {:induction false} ThreadsAreIndependent(cfg: Config, sys: System, schedule: seq<(nat, Answer)>, tid: nat)
    requires tid < |sys.threads|
    ensures |Run(cfg, sys, schedule).threads| == |sys.threads|
    ensures Run(cfg, sys, schedule).threads[tid] == Trace(cfg, sys.threads[tid], Own(schedule, tid))
    decreases |schedule|
  {
    if schedule != [] {
      hide Perform, Wrap32, QueryNumber;
      var (who, a) := schedule[0];
      ThreadsAreIndependent(cfg, Step(cfg, sys, who, a), schedule[1..], tid);
      if who == tid {
        assert Own(schedule, tid)[1..] == Own(schedule[1..], tid);
        assert ThreadStep(cfg, sys.totals, sys.threads[tid], a).1 == ThreadStep(cfg, NO_TOTALS, sys.threads[tid], a).1;
      } else {
        assert Own(schedule, tid) == Own(schedule[1..], tid);
      }
    }
  }

  function Outcomes(answers: seq<Answer>): (r: seq<bool>)
    ensures |r| == |answers| && forall i | 0 <= i < |answers| :: r[i] == answers[i].outcome.Succeeded?
  {
    seq(|answers|, i requires 0 <= i < |answers| => answers[i].outcome.Succeeded?)
  }

  /** The 250 outcomes before the k-th are failures. */
  predicate Failed250(outcomes: seq<bool>, k: nat) {
    250 <= k <= |outcomes| && forall j | k - 250 <= j < k :: !outcomes[j]
  }

  /**
   The thread has ended, and where the answers say: at the first point at which the last
   250 outcomes are failures, or, if there is none, after all of them.
   */
  ghost predicate StopsAsTold(t: Thread, outcomes: seq<bool>) {
    && t.phase.Ended? && t.outcomes <= outcomes && |t.sent| == |t.outcomes|
    && match t.phase.ending
       case Aborted => Failed250(outcomes, |t.outcomes|) && forall k: nat | k < |t.outcomes| :: !Failed250(outcomes, k)
       case Completed => t.outcomes == outcomes && forall k: nat :: !Failed250(outcomes, k)
       case _ => false
  }

  lemma StopIsTold(cfg: Config, t: Thread, outcomes: seq<bool>)
    requires ThreadInv(cfg, t) && t.phase in {Ended(Aborted), Ended(Completed)}
    requires t.outcomes <= outcomes && |outcomes| == cfg.limit
    ensures StopsAsTold(t, outcomes)
  {
    var m := |t.outcomes|;
    forall k: nat | k <= m
      ensures LastAllFailed(outcomes, k) <==> LastAllFailed(t.outcomes, k)
    {
    }
    assert t.phase == Ended(Completed) ==> t.outcomes == outcomes;
    assert forall k: nat :: Failed250(outcomes, k) <==> LastAllFailed(outcomes, k);
    hide PerformAll, SentOk;
  }

  lemma {:induction false} TraceStays(cfg: Config, t: Thread, answers: seq<Answer>)
    requires t.phase.Ended?
    ensures Trace(cfg, t, answers) == t
    decreases |answers|
  {
    if answers != [] {
      TraceStays(cfg, t, answers[1..]);
    }
  }

  lemma TraceAdds(cfg: Config, t: Thread, answers: seq<Answer>)
    requires t.phase.AddPerformed? && |answers| >= 2
    ensures Trace(cfg, t, answers) == t.(phase := Ended(t.phase.ending))
  {
    var e := t.phase.ending;
    var t1, t2 := t.(phase := AddFailed(e)), t.(phase := Ended(e));
    assert Trace(cfg, t, answers) == Trace(cfg, t1, answers[1..]);
    assert Trace(cfg, t1, answers[1..]) == Trace(cfg, t2, answers[1..][1..]);
    TraceStays(cfg, t2, answers[1..][1..]);
  }

  lemma OutcomesStep(done: seq<bool>, answers: seq<Answer>, n: nat)
    requires 0 < n <= |answers|
    ensures done + Outcomes(answers[..n])
            == (done + [answers[0].outcome.Succeeded?]) + Outcomes(answers[1..][..n - 1])
  {
  }

  /** The thread after a round in which nothing is thrown. */
  lemma RoundOf(cfg: Config, t: Thread, a: Answer)
    requires ThreadInv(cfg, t) && t.phase.Querying? && t.phase.i < cfg.limit < UINT32 && !a.outcome.Threw?
    ensures var t' := ThreadStep(cfg, NO_TOTALS, t, a).1;
            && ThreadInv(cfg, t') && t'.outcomes == t.outcomes + [a.outcome.Succeeded?]
            && (t'.phase == AddPerformed(Aborted) || t'.phase == Querying(t.phase.i + 1))
            && t.phase.i == |t.outcomes|
  {
    StepKeepsThreadInv(cfg, NO_TOTALS, t, a);
    IndexStep(|t.outcomes|);
    IndexStep(t.phase.i + 1);
    hide PerformAll, NoEarlyAbort, LastAllFailed, SentOk, QueryNumber;
  }

  lemma {:induction false} TraceLoop(cfg: Config, t: Thread, answers: seq<Answer>)
    requires ThreadInv(cfg, t) && t.phase.Querying? && t.phase.i == |t.outcomes| <= cfg.limit < UINT32
    requires |answers| >= cfg.limit - |t.outcomes| + 3
    requires forall k | 0 <= k < cfg.limit - |t.outcomes| :: !answers[k].outcome.Threw?
    ensures var r := Trace(cfg, t, answers);
            && ThreadInv(cfg, r) && r.phase in {Ended(Aborted), Ended(Completed)}
            && r.outcomes <= t.outcomes + Outcomes(answers[..cfg.limit - |t.outcomes|])
    decreases cfg.limit - |t.outcomes|
  {
    hide ThreadInv, ThreadStep, PerformAll, LastAllFailed;
    var n := cfg.limit - |t.outcomes|;
    var t' := ThreadStep(cfg, NO_TOTALS, t, answers[0]).1;
    StepKeepsThreadInv(cfg, NO_TOTALS, t, answers[0]);
    if n == 0 {
      LeavesLoop(cfg, t, answers[0]);
      TraceAdds(cfg, t', answers[1..]);
      EndKeepsInv(cfg, t');
    } else {
      RoundOf(cfg, t, answers[0]);
      OutcomesStep(t.outcomes, answers, n);
      if t'.phase.Querying? {
        TraceLoop(cfg, t', answers[1..]);
      } else {
        TraceAdds(cfg, t', answers[1..]);
        EndKeepsInv(cfg, t');
      }
    }
  }

  lemma LeavesLoop(cfg: Config, t: Thread, a: Answer)
    requires t.phase.Querying? && t.phase.i >= cfg.limit
    ensures ThreadStep(cfg, NO_TOTALS, t, a).1 == t.(phase := AddPerformed(Completed))
  {
  }

  lemma EndKeepsInv(cfg: Config, t: Thread)
    requires ThreadInv(cfg, t) && t.phase.AddPerformed?
    ensures ThreadInv(cfg, t.(phase := Ended(t.phase.ending)))
    ensures t.phase.ending in {Aborted, Completed}
  {
    hide PerformAll, NoEarlyAbort, LastAllFailed, SentOk;
  }

  /**
   The abort rule from the answers. In every interleaving that lets a thread take its
   steps, a thread that connects and is answered without an exception ends, and has
   performed the smaller of the limit and the first point whose last 250 answers failed.
   */
  lemma AnswersDecide(cfg: Config, n: nat, schedule: seq<(nat, Answer)>, tid: nat)
    requires tid < n && cfg.size > 0 && cfg.limit < UINT32
    requires var answers := Own(schedule, tid);
             && |answers| >= cfg.limit + 4 && answers[0].connection.Connected?
             && forall k | 1 <= k <= cfg.limit :: !answers[k].outcome.Threw?
    ensures |Run(cfg, Spawned(n), schedule).threads| == n
    ensures StopsAsTold(Run(cfg, Spawned(n), schedule).threads[tid], Outcomes(Own(schedule, tid)[1..][..cfg.limit]))
  {
    var answers := Own(schedule, tid);
    ThreadsAreIndependent(cfg, Spawned(n), schedule, tid);
    var t := NEW_THREAD.(phase := Querying(0));
    assert ThreadStep(cfg, NO_TOTALS, NEW_THREAD, answers[0]).1 == t;
    assert Spawned(n).threads[tid] == NEW_THREAD;
    StepKeepsThreadInv(cfg, NO_TOTALS, NEW_THREAD, answers[0]);
    hide ThreadInv, ThreadStep, Run, Own;
    TraceLoop(cfg, t, answers[1..]);
    var outcomes := Outcomes(answers[1..][..cfg.limit]);
    assert [] + outcomes == outcomes;
    StopIsTold(cfg, Trace(cfg, t, answers[1..]), outcomes);
  }

  // ---- which queries are sent --------------------------------------------------------------------------------

  /** What a thread has sent since it had sent `n`, if it was told these answers since. */
  predicate SentAsTold(cfg: Config, sent: seq<nat>, n: nat, answers: seq<Answer>) {
    && n <= |sent| <= n + |answers|
    && forall j | n <= j < |sent| ::
         sent[j] == if cfg.shuffle && cfg.size > 0 then answers[j - n].pick % cfg.size else j % 4294967296
  }

  lemma {:induction false} TraceSentNothing(cfg: Config, t: Thread, answers: seq<Answer>)
    ensures !t.phase.Starting? && !t.phase.Querying? ==> Trace(cfg, t, answers).sent == t.sent
    decreases |answers|
  {
    if answers != [] {
      TraceSentNothing(cfg, ThreadStep(cfg, NO_TOTALS, t, answers[0]).1, answers[1..]);
    }
  }

  lemma {:induction false} TraceSends(cfg: Config, t: Thread, answers: seq<Answer>)
    requires t.phase.Querying? && t.phase.i == |t.sent| % 4294967296
    ensures var sent := Trace(cfg, t, answers).sent;
            t.sent <= sent && SentAsTold(cfg, sent, |t.sent|, answers)
    decreases |answers|
  {
    if answers != [] {
      hide Perform, LastAllFailed;
      IndexStep(|t.sent|);
      var t' := ThreadStep(cfg, NO_TOTALS, t, answers[0]).1;
      if t'.phase.Querying? {
        TraceSends(cfg, t', answers[1..]);
      } else {
        TraceSentNothing(cfg, t', answers[1..]);
      }
    }
  }

  /** What a thread has sent was picked by what it was told, or, without shuffling, was the next one. */
  predicate Picked(cfg: Config, sent: seq<nat>, told: seq<Answer>) {
    && (sent != [] ==> cfg.size > 0 && told != [] && told[0].connection.Connected?)
    && forall j | 0 <= j < |sent| ::
         j + 1 < |told| && sent[j] == if cfg.shuffle then told[j + 1].pick % cfg.size else j % 4294967296
  }

  /**
   In every interleaving a thread sends, for each answer after the one about its
   connection, the query its random number picks, or without shuffling the next one.
   */
  lemma PicksDecide(cfg: Config, n: nat, schedule: seq<(nat, Answer)>, tid: nat)
    requires tid < n
    ensures |Run(cfg, Spawned(n), schedule).threads| == n
    ensures Picked(cfg, Run(cfg, Spawned(n), schedule).threads[tid].sent, Own(schedule, tid))
  {
    var answers := Own(schedule, tid);
    ThreadsAreIndependent(cfg, Spawned(n), schedule, tid);
    assert Spawned(n).threads[tid] == NEW_THREAD;
    if answers != [] {
      var t := ThreadStep(cfg, NO_TOTALS, NEW_THREAD, answers[0]).1;
      if t.phase.Querying? {
        TraceSends(cfg, t, answers[1..]);
      } else {
        TraceSentNothing(cfg, t, answers[1..]);
      }
    }
  }

  /** Who has completed has sent and counted as many queries as the limit says. */
  lemma CompletedCounts(cfg: Config, n: nat, schedule: seq<(nat, Answer)>)
    ensures var ts := Run(cfg, Spawned(n), schedule).threads;
            && |ts| == n
            && forall t | t in ts && t.phase == Ended(Completed) ::
                 |t.sent| == |t.outcomes| == t.db.performed == cfg.limit
  {
    SpawnedInv(cfg, n);
    RunKeepsInv(cfg, Spawned(n), schedule);
    var ts := Run(cfg, Spawned(n), schedule).threads;
    forall t | t in ts && t.phase == Ended(Completed)
      ensures |t.sent| == |t.outcomes| == t.db.performed == cfg.limit
    {
      var i :| 0 <= i < |ts| && ts[i] == t;
      assert ThreadInv(cfg, ts[i]);
      CountersExact(t.outcomes);
    }
  }
}
