/**
 The supervisor. Answers of fork, waitpid and the clock are parameters: one answer
 for each time the program asks. Times are nanoseconds of one monotone clock.
 */
module WorkerPool {
  import opened Params

  const SIGTERM_GRACE := 10 * SECOND

  datatype Signal = SIGTERM | SIGKILL

  /** What the supervisor did and learned, in order. */
  datatype Event =
    | Sent(pid: int, signal: Signal, at: int)
    | Reaped(pid: int, status: int)

  datatype WorkerProc = WorkerProc(
    pid: int,
    name: string,
    hasTimeout: bool,
    deadline: int,
    termSent: bool,
    killDeadline: int)

  /** One non-blocking waitpid: a child that exited, an error, or nobody yet and the time it is. */
  datatype Poll =
    | Exited(pid: int, status: int)
    | NoChild
    | Pending(now: int)

  datatype Fork =
    | ForkFailed
    | InMaster(pid: int, now: int)
    | InChild(success: bool)

  // ---- the state machine of the wait loop ----------------------------------------------------

  datatype Pool = Pool(active: seq<WorkerProc>, verdict: bool, stopped: bool, log: seq<Event>)

  predicate TermDue(p: WorkerProc, now: int) {
    p.hasTimeout && !p.termSent && now > p.deadline
  }

  predicate KillDue(p: WorkerProc, now: int) {
    p.termSent && now > p.killDeadline
  }

  /** The timeout check of worker `i`. */
  function CheckOne(s: Pool, i: nat, now: int): Pool
    requires i < |s.active|
  {
    var p := s.active[i];
    if TermDue(p, now) then
      s.(active := s.active[i := p.(termSent := true, killDeadline := now + SIGTERM_GRACE)],
         verdict := false,
         log := s.log + [Sent(p.pid, SIGTERM, now)])
    else if KillDue(p, now) then s.(log := s.log + [Sent(p.pid, SIGKILL, now)])
    else s
  }

  function CheckFrom(s: Pool, i: nat, now: int): Pool
    decreases |s.active| - i
  {
    if i >= |s.active| then s else CheckFrom(CheckOne(s, i, now), i + 1, now)
  }

  /** Where the worker with this pid is tracked, |ps| if it is not. */
  function Find(ps: seq<WorkerProc>, pid: int): (i: nat)
    ensures i <= |ps|
    ensures i < |ps| ==> ps[i].pid == pid
    ensures forall j | 0 <= j < i :: ps[j].pid != pid
  {
    if ps == [] || ps[0].pid == pid then 0 else 1 + Find(ps[1..], pid)
  }

  function Reap(s: Pool, pid: int, status: int): Pool {
    var i := Find(s.active, pid);
    if i < |s.active| then
      s.(active := s.active[..i] + s.active[i + 1..],
         verdict := s.verdict && status == 0,
         log := s.log + [Reaped(pid, status)])
    else s
  }

  function PollStep(s: Pool, p: Poll): Pool {
    match p
    case Exited(pid, status) => Reap(s, pid, status)
    case NoChild => s.(stopped := true)
    case Pending(now) => CheckFrom(s, 0, now)
  }

  predicate Live(s: Pool) {
    s.active != [] && !s.stopped
  }

  /** The loop, for as long as it goes on and answers are left. */
  function Run(s: Pool, polls: seq<Poll>): Pool
    decreases |polls|
  {
    if polls == [] || !Live(s) then s else Run(PollStep(s, polls[0]), polls[1..])
  }

  /** One round of the loop. */
  lemma RunRound(s: Pool, polls: seq<Poll>, k: nat)
    requires Live(s) && k < |polls|
    ensures Run(s, polls[k..]) == Run(PollStep(s, polls[k]), polls[k + 1..])
  {
    hide PollStep;
    assert polls[k..][1..] == polls[k + 1..];
  }

  lemma RunEnds(s: Pool, polls: seq<Poll>)
    requires polls == [] || !Live(s)
    ensures Run(s, polls) == s
  {
  }

  function Start(ps: seq<WorkerProc>): Pool {
    Pool(ps, true, false, [])
  }

  /** The whole wait of a pool that tracks these workers. */
  function Waited(ps: seq<WorkerProc>, polls: seq<Poll>): Pool {
    Run(Start(ps), polls)
  }

  // ---- spawning ----------------------------------------------------------------------------------

  function Tracked(params: WorkerParams, pid: int, now: int): WorkerProc {
    var timed := params.timeoutSecs > 0;
    WorkerProc(pid, params.myName, timed, if timed then now + params.timeoutSecs * SECOND else 0, false, 0)
  }

  /** The workers tracked after the first `n` forks have all returned in the master. */
  function Spawned(params: seq<WorkerParams>, forks: seq<Fork>, n: nat): seq<WorkerProc>
    requires n <= |params| && n <= |forks| && forall i | 0 <= i < n :: forks[i].InMaster?
  {
    if n == 0 then []
    else Spawned(params, forks, n - 1) + [Tracked(params[n - 1], forks[n - 1].pid, forks[n - 1].now)]
  }

  /** How many forks in a row return in the master. */
  function MasterForks(forks: seq<Fork>): (n: nat)
    ensures n <= |forks| && forall i | 0 <= i < n :: forks[i].InMaster?
    ensures n < |forks| ==> !forks[n].InMaster?
  {
    if forks == [] || !forks[0].InMaster? then 0 else 1 + MasterForks(forks[1..])
  }

  /** The children forked, up to the first fork that does not return in the master, differ in pid. */
  predicate DistinctPids(forks: seq<Fork>) {
    forall i, j | 0 <= i < j < MasterForks(forks) :: forks[i].pid != forks[j].pid
  }

  lemma {:induction false} SpawnedEach(params: seq<WorkerParams>, forks: seq<Fork>, n: nat)
    requires n <= |params| && n <= |forks| && forall i | 0 <= i < n :: forks[i].InMaster?
    ensures |Spawned(params, forks, n)| == n
    ensures forall i | 0 <= i < n :: Spawned(params, forks, n)[i] == Tracked(params[i], forks[i].pid, forks[i].now)
  {
    if n > 0 {
      SpawnedEach(params, forks, n - 1);
    }
  }

  /** The test run in a child; a child whose database is not compiled in fails without one. */
  function Tested(build: Build, params: WorkerParams): seq<WorkerParams> {
    if SupportedDb(build, params.dbtype) then [params] else []
  }

  /** What a process that has gone through RunAll returns and leaves behind. */
  datatype Outcome = Outcome(
    result: bool,
    finished: bool,
    active: seq<WorkerProc>,
    events: seq<Event>,
    tested: seq<WorkerParams>)

  function RunAllOutcome(build: Build, params: seq<WorkerParams>, forks: seq<Fork>, polls: seq<Poll>): Outcome
    requires |forks| == |params|
  {
    var n := MasterForks(forks);
    var ps := Spawned(params, forks, n);
    if n == |params| then
      var r := Waited(ps, polls);
      Outcome(r.verdict, !Live(r), r.active, r.log, [])
    else
      match forks[n]
      case InChild(success) =>
        Outcome(success && SupportedDb(build, params[n].dbtype), true, ps, [], Tested(build, params[n]))
      case _ => Outcome(false, true, ps, [], [])
  }

  // ---- the pool as it runs -------------------------------------------------------------------------

  class WorkerPool {
    var activeWorkers: seq<WorkerProc>
    var events: seq<Event>           // signals sent and children reaped by this process
    var tested: seq<WorkerParams>    // workers whose tests this process has run
    const build: Build

    constructor (build: Build)
      ensures activeWorkers == [] && events == [] && tested == [] && this.build == build
    {
      activeWorkers, events, tested := [], [], [];
      this.build := build;
    }

    method SpawnWorker(params: WorkerParams, fork: Fork) returns (rc: RetCode)
      modifies this
      ensures events == old(events)
      ensures fork.ForkFailed? ==> rc == eERROR && activeWorkers == old(activeWorkers) && tested == old(tested)
      ensures fork.InMaster? ==>
                && rc == eMASTER && tested == old(tested)
                && activeWorkers == old(activeWorkers) + [Tracked(params, fork.pid, fork.now)]
      ensures fork.InChild? ==>
                && rc == (if fork.success && SupportedDb(build, params.dbtype) then eCHILD else eERROR)
                && activeWorkers == old(activeWorkers) && tested == old(tested) + Tested(build, params)
    {
      match fork {
        case ForkFailed =>
          return eERROR;
        case InMaster(pid, now) =>
          var hasTimeout := params.timeoutSecs > 0;
          var proc := WorkerProc(pid, params.myName, hasTimeout, 0, false, 0);
          if hasTimeout {
            proc := proc.(deadline := now + params.timeoutSecs * SECOND);
          }
          activeWorkers := activeWorkers + [proc];
          return eMASTER;
        case InChild(success) =>
          var supported := match params.dbtype
            case eMYSQL => build.haveMysql
            case ePGSQL => build.havePgsql
            case eNONE => false;
          if !supported {
            return eERROR;
          }
          tested := tested + [params];
          if !success {
            return eERROR;
          }
          return eCHILD;
      }
    }

    /** The loop over the tracked workers when nobody has exited. */
    method CheckTimeouts(now: int, retvalue: bool) returns (verdict: bool)
      modifies this
      ensures Pool(activeWorkers, verdict, false, events)
              == CheckFrom(Pool(old(activeWorkers), retvalue, false, old(events)), 0, now)
      ensures tested == old(tested)
    {
      verdict := retvalue;
      ghost var start := Pool(activeWorkers, retvalue, false, events);
      var i := 0;
      while i < |activeWorkers|
        invariant i <= |activeWorkers| == |start.active| && tested == old(tested)
        invariant CheckFrom(Pool(activeWorkers, verdict, false, events), i, now) == CheckFrom(start, 0, now)
      {
        var proc := activeWorkers[i];
        if proc.hasTimeout && !proc.termSent && now > proc.deadline {
          events := events + [Sent(proc.pid, SIGTERM, now)];
          activeWorkers := activeWorkers[i := proc.(termSent := true, killDeadline := now + SIGTERM_GRACE)];
          verdict := false;
        } else if proc.termSent && now > proc.killDeadline {
          events := events + [Sent(proc.pid, SIGKILL, now)];
        }
        i := i + 1;
      }
    }

    method FindWorker(pid: int) returns (i: nat)
      ensures i == Find(activeWorkers, pid)
    {
      i := 0;
      while i < |activeWorkers| && activeWorkers[i].pid != pid
        invariant i <= |activeWorkers|
        invariant Find(activeWorkers, pid) == i + Find(activeWorkers[i..], pid)
      {
        assert activeWorkers[i..][1..] == activeWorkers[i + 1..];
        i := i + 1;
      }
    }

    /**
     The wait loop. `finished` is false when the given answers ran out before the
     loop ended; `retvalue` is then what would be returned if it ended here.
     */
    method WaitForWorkers(polls: seq<Poll>) returns (retvalue: bool, finished: bool)
      modifies this
      ensures tested == old(tested)
      ensures var r := Run(Pool(old(activeWorkers), true, false, old(events)), polls);
              && activeWorkers == r.active && retvalue == r.verdict && events == r.log
              && finished == !Live(r)
    {
      hide Run, CheckFrom, Find;
      retvalue := true;
      ghost var start := Pool(activeWorkers, true, false, events);
      var k := 0;
      while activeWorkers != [] && k < |polls|
        invariant k <= |polls| && tested == old(tested)
        invariant Run(Pool(activeWorkers, retvalue, false, events), polls[k..]) == Run(start, polls)
        decreases |polls| - k
      {
        var answer := polls[k];
        RunRound(Pool(activeWorkers, retvalue, false, events), polls, k);
        k := k + 1;
        match answer {
          case Exited(pid, status) =>
            var i := FindWorker(pid);
            if i < |activeWorkers| {
              if status != 0 {
                retvalue := false;
              }
              events := events + [Reaped(pid, status)];
              activeWorkers := activeWorkers[..i] + activeWorkers[i + 1..];
            }
          case NoChild =>
            RunEnds(Pool(activeWorkers, retvalue, true, events), polls[k..]);
            return retvalue, true;
          case Pending(now) =>
            StaysRunning(Pool(activeWorkers, retvalue, false, events), 0, now);
            retvalue := CheckTimeouts(now, retvalue);
        }
      }
      RunEnds(Pool(activeWorkers, retvalue, false, events), polls[k..]);
      finished := activeWorkers == [];
    }

    /**
     Forks one worker per section in order. Whichever process this is, the first fork
     that does not return in the master ends the loop; only the master waits.
     */
    method RunAll(params: seq<WorkerParams>, forks: seq<Fork>, polls: seq<Poll>) returns (result: bool, finished: bool)
      requires |forks| == |params| && activeWorkers == [] && events == [] && tested == []
      modifies this
      ensures Outcome(result, finished, activeWorkers, events, tested) == RunAllOutcome(build, params, forks, polls)
    {
      var i := 0;
      while i < |params|
        invariant i <= |params| && events == [] && tested == []
        invariant i <= MasterForks(forks)
        invariant activeWorkers == Spawned(params, forks, i)
      {
        var wrc := SpawnWorker(params[i], forks[i]);
        match wrc {
          case eERROR => return false, true;
          case eCHILD => return true, true;
          case eMASTER =>
        }
        i := i + 1;
      }
      result, finished := WaitForWorkers(polls);
    }
  }

  lemma {:induction false} StaysRunning(s: Pool, i: nat, now: int)
    ensures CheckFrom(s, i, now).stopped == s.stopped
    ensures |CheckFrom(s, i, now).active| == |s.active|
    decreases |s.active| - i
  {
    if i < |s.active| {
      StaysRunning(CheckOne(s, i, now), i + 1, now);
    }
  }
}
