/** What every run of the wait loop keeps, whatever the operating system answers. */
module WorkerPoolSafety {
  import opened WorkerPool

  // ---- reading the log ---------------------------------------------------------------------

  ghost predicate WasReaped(log: seq<Event>, pid: int) {
    exists status :: Reaped(pid, status) in log
  }

  ghost predicate WasTermed(log: seq<Event>, pid: int) {
    exists at :: Sent(pid, SIGTERM, at) in log
  }

  ghost predicate WasSignalled(log: seq<Event>, pid: int) {
    exists signal, at :: Sent(pid, signal, at) in log
  }

  function Pids(ps: seq<WorkerProc>): set<int> {
    set i | 0 <= i < |ps| :: ps[i].pid
  }

  function TimedPids(ps: seq<WorkerProc>): set<int> {
    set i | 0 <= i < |ps| && ps[i].hasTimeout :: ps[i].pid
  }

  /** `e` may happen after `before`: the rules of signalling and reaping. */
  ghost predicate Allowed(before: seq<Event>, e: Event, tracked: set<int>, timed: set<int>) {
    match e
    case Reaped(pid, _) =>
      pid in tracked && !WasReaped(before, pid)
    case Sent(pid, SIGTERM, _) =>
      pid in timed && !WasReaped(before, pid) && !WasSignalled(before, pid)
    case Sent(pid, SIGKILL, at) =>
      && pid in timed && !WasReaped(before, pid)
      && exists t :: Sent(pid, SIGTERM, t) in before && at > t + SIGTERM_GRACE
  }

  ghost predicate Safe(log: seq<Event>, tracked: set<int>, timed: set<int>) {
    forall j | 0 <= j < |log| :: Allowed(log[..j], log[j], tracked, timed)
  }

  // ---- the invariant ---------------------------------------------------------------------------

  predicate Distinct(ps: seq<WorkerProc>) {
    forall i, j | 0 <= i < j < |ps| :: ps[i].pid != ps[j].pid
  }

  /** Distinct pids, no signal sent yet: what spawning leaves behind. */
  predicate Fresh(ps: seq<WorkerProc>) {
    Distinct(ps) && forall i | 0 <= i < |ps| :: !ps[i].termSent
  }

  ghost predicate ProcInv(p: WorkerProc, log: seq<Event>, tracked: set<int>, timed: set<int>) {
    && p.pid in tracked && (p.hasTimeout <==> p.pid in timed)
    && !WasReaped(log, p.pid)
    && (p.termSent ==> p.hasTimeout && Sent(p.pid, SIGTERM, p.killDeadline - SIGTERM_GRACE) in log)
    && (!p.termSent ==> !WasSignalled(log, p.pid))
  }

  ghost predicate Blemished(e: Event) {
    (e.Reaped? && e.status != 0) || (e.Sent? && e.signal.SIGTERM?)
  }

  ghost predicate Clean(log: seq<Event>) {
    forall e | e in log :: !Blemished(e)
  }

  ghost predicate Inv(s: Pool, tracked: set<int>, timed: set<int>) {
    && Distinct(s.active)
    && (forall i | 0 <= i < |s.active| :: ProcInv(s.active[i], s.log, tracked, timed))
    && (forall pid | pid in tracked :: pid in Pids(s.active) || WasReaped(s.log, pid))
    && Safe(s.log, tracked, timed)
    && (s.verdict <==> Clean(s.log))
  }

  lemma SafeAppend(log: seq<Event>, e: Event, tracked: set<int>, timed: set<int>)
    requires Safe(log, tracked, timed) && Allowed(log, e, tracked, timed)
    ensures Safe(log + [e], tracked, timed)
  {
    forall j | 0 <= j < |log + [e]|
      ensures Allowed((log + [e])[..j], (log + [e])[j], tracked, timed)
    {
      if j < |log| {
        assert (log + [e])[..j] == log[..j];
      } else {
        assert (log + [e])[..j] == log;
      }
    }
  }

  lemma CleanAppend(log: seq<Event>, e: Event)
    ensures Clean(log + [e]) <==> Clean(log) && !Blemished(e)
  {
    assert e in log + [e];
    assert forall d | d in log :: d in log + [e];
  }

  lemma ReapedAppend(log: seq<Event>, e: Event, pid: int)
    ensures WasReaped(log + [e], pid) <==> WasReaped(log, pid) || (e.Reaped? && e.pid == pid)
  {
    if WasReaped(log, pid) {
      var st :| Reaped(pid, st) in log;
      assert Reaped(pid, st) in log + [e];
    } else if e.Reaped? && e.pid == pid {
      assert Reaped(pid, e.status) in log + [e];
    }
  }

  lemma SignalledAppend(log: seq<Event>, e: Event, pid: int)
    ensures WasSignalled(log + [e], pid) <==> WasSignalled(log, pid) || (e.Sent? && e.pid == pid)
  {
    if WasSignalled(log, pid) {
      var sg, at :| Sent(pid, sg, at) in log;
      assert Sent(pid, sg, at) in log + [e];
    } else if e.Sent? && e.pid == pid {
      assert Sent(pid, e.signal, e.at) in log + [e];
    }
  }

  /** An event about one worker leaves what is known of the others as it was. */
  lemma OthersKeep(p: WorkerProc, log: seq<Event>, e: Event, tracked: set<int>, timed: set<int>)
    requires ProcInv(p, log, tracked, timed) && e.pid != p.pid
    ensures ProcInv(p, log + [e], tracked, timed)
  {
    ReapedAppend(log, e, p.pid);
    SignalledAppend(log, e, p.pid);
  }

  /** The signal that the check of `p` sends, and what is then known of `p`. */
  lemma CheckedProc(s: Pool, i: nat, now: int, tracked: set<int>, timed: set<int>) returns (e: Event)
    requires i < |s.active| && ProcInv(s.active[i], s.log, tracked, timed)
    requires CheckOne(s, i, now) != s
    ensures var p, s' := s.active[i], CheckOne(s, i, now);
            && e.Sent? && e.pid == p.pid && s'.log == s.log + [e]
            && Allowed(s.log, e, tracked, timed)
            && ProcInv(s'.active[i], s'.log, tracked, timed)
            && s'.verdict == (s.verdict && !Blemished(e))
  {
    var p := s.active[i];
    e := Sent(p.pid, if TermDue(p, now) then SIGTERM else SIGKILL, now);
    ReapedAppend(s.log, e, p.pid);
    assert e in s.log + [e];
    if !TermDue(p, now) {
      assert Sent(p.pid, SIGTERM, p.killDeadline - SIGTERM_GRACE) in s.log;
    }
  }

  lemma CheckKeepsInv(s: Pool, i: nat, now: int, tracked: set<int>, timed: set<int>)
    requires Inv(s, tracked, timed) && i < |s.active|
    ensures Inv(CheckOne(s, i, now), tracked, timed)
    ensures Pids(CheckOne(s, i, now).active) == Pids(s.active)
  {
    var s' := CheckOne(s, i, now);
    if s' != s {
      hide CheckOne;
      SamePids(s, i, now);
      var e := CheckedProc(s, i, now, tracked, timed);
      SafeAppend(s.log, e, tracked, timed);
      CleanAppend(s.log, e);
      forall j | 0 <= j < |s'.active|
        ensures ProcInv(s'.active[j], s'.log, tracked, timed)
      {
        if j != i {
          OthersKeep(s.active[j], s.log, e, tracked, timed);
        }
      }
      forall pid | pid in tracked
        ensures pid in Pids(s'.active) || WasReaped(s'.log, pid)
      {
        ReapedAppend(s.log, e, pid);
      }
    }
  }

  lemma SamePids(s: Pool, i: nat, now: int)
    requires i < |s.active|
    ensures var s' := CheckOne(s, i, now);
            && |s'.active| == |s.active| && Pids(s'.active) == Pids(s.active)
            && (Distinct(s.active) ==> Distinct(s'.active))
            && forall j | 0 <= j < |s.active| && j != i :: s'.active[j] == s.active[j]
  {
    var s' := CheckOne(s, i, now);
    assert forall j | 0 <= j < |s.active| :: s'.active[j].pid == s.active[j].pid;
  }

  lemma {:induction false} CheckFromKeepsInv(s: Pool, i: nat, now: int, tracked: set<int>, timed: set<int>)
    requires Inv(s, tracked, timed)
    ensures Inv(CheckFrom(s, i, now), tracked, timed)
    ensures Pids(CheckFrom(s, i, now).active) == Pids(s.active)
    decreases |s.active| - i
  {
    if i < |s.active| {
      CheckKeepsInv(s, i, now, tracked, timed);
      CheckFromKeepsInv(CheckOne(s, i, now), i + 1, now, tracked, timed);
    }
  }

  lemma RemovePids(ps: seq<WorkerProc>, i: nat)
    requires Distinct(ps) && i < |ps|
    ensures Pids(ps[..i] + ps[i + 1..]) == Pids(ps) - {ps[i].pid}
    ensures Distinct(ps[..i] + ps[i + 1..])
  {
    var rest := ps[..i] + ps[i + 1..];
    forall pid
      ensures pid in Pids(rest) <==> pid in Pids(ps) - {ps[i].pid}
    {
      if pid in Pids(ps) - {ps[i].pid} {
        var j :| 0 <= j < |ps| && ps[j].pid == pid;
        assert rest[if j < i then j else j - 1] == ps[j];
      }
      if pid in Pids(rest) {
        var j :| 0 <= j < |rest| && rest[j].pid == pid;
        assert rest[j] == ps[if j < i then j else j + 1];
      }
    }
  }

  lemma ReapKeepsInv(s: Pool, pid: int, status: int, tracked: set<int>, timed: set<int>)
    requires Inv(s, tracked, timed)
    ensures Inv(Reap(s, pid, status), tracked, timed)
    ensures Pids(Reap(s, pid, status).active) == Pids(s.active) - {pid}
  {
    var i := Find(s.active, pid);
    if i < |s.active| {
      var e := Reaped(pid, status);
      CleanAppend(s.log, e);
      SafeAppend(s.log, e, tracked, timed);
      RemovePids(s.active, i);
      RemovedProcs(s, i, e, tracked, timed);
      forall q | q in tracked
        ensures q in Pids(s.active) - {pid} || WasReaped(s.log + [e], q)
      {
        ReapedAppend(s.log, e, q);
      }
    }
  }

  lemma RemovedProcs(s: Pool, i: nat, e: Event, tracked: set<int>, timed: set<int>)
    requires Inv(s, tracked, timed) && i < |s.active| && e.pid == s.active[i].pid
    ensures var ps := s.active[..i] + s.active[i + 1..];
            forall j | 0 <= j < |ps| :: ProcInv(ps[j], s.log + [e], tracked, timed)
  {
    var ps := s.active[..i] + s.active[i + 1..];
    forall j | 0 <= j < |ps|
      ensures ProcInv(ps[j], s.log + [e], tracked, timed)
    {
      var k := if j < i then j else j + 1;
      assert ps[j] == s.active[k];
      OthersKeep(s.active[k], s.log, e, tracked, timed);
    }
  }

  lemma PollKeepsInv(s: Pool, p: Poll, tracked: set<int>, timed: set<int>)
    requires Inv(s, tracked, timed)
    ensures Inv(PollStep(s, p), tracked, timed)
    ensures Pids(PollStep(s, p).active) == if p.Exited? then Pids(s.active) - {p.pid} else Pids(s.active)
  {
    match p
    case Exited(pid, status) => ReapKeepsInv(s, pid, status, tracked, timed);
    case NoChild =>
    case Pending(now) => CheckFromKeepsInv(s, 0, now, tracked, timed);
  }

  lemma {:induction false} RunKeepsInv(s: Pool, polls: seq<Poll>, tracked: set<int>, timed: set<int>)
    requires Inv(s, tracked, timed)
    ensures Inv(Run(s, polls), tracked, timed)
    decreases |polls|
  {
    if polls != [] && Live(s) {
      PollKeepsInv(s, polls[0], tracked, timed);
      RunKeepsInv(PollStep(s, polls[0]), polls[1..], tracked, timed);
    }
  }

  lemma StartInv(ps: seq<WorkerProc>)
    requires Fresh(ps)
    ensures Inv(Start(ps), Pids(ps), TimedPids(ps))
  {
    forall i | 0 <= i < |ps|
      ensures ps[i].hasTimeout <==> ps[i].pid in TimedPids(ps)
    {
      if ps[i].pid in TimedPids(ps) {
        var j :| 0 <= j < |ps| && ps[j].hasTimeout && ps[j].pid == ps[i].pid;
        assert i == j;
      }
    }
  }

  // ---- safety over whole runs -------------------------------------------------------------------

  /**
   In every run: a signal goes only to a tracked worker that has a timeout and has
   not been reaped; SIGTERM is the first signal a worker gets and comes once;
   SIGKILL follows a SIGTERM by more than the grace period; nobody is reaped twice;
   the workers still tracked are exactly those not reaped, and their pids differ.
   */
  lemma SignalSafety(ps: seq<WorkerProc>, polls: seq<Poll>)
    requires Fresh(ps)
    ensures var s := Run(Start(ps), polls);
            && Safe(s.log, Pids(ps), TimedPids(ps))
            && Distinct(s.active)
            && forall pid | pid in Pids(ps) :: pid in Pids(s.active) <==> !WasReaped(s.log, pid)
  {
    StartInv(ps);
    RunKeepsInv(Start(ps), polls, Pids(ps), TimedPids(ps));
  }

  /**
   The verdict is true exactly if no tracked worker was reaped with a status other
   than zero and no SIGTERM was sent.
   */
  lemma VerdictExact(ps: seq<WorkerProc>, polls: seq<Poll>)
    requires Fresh(ps)
    ensures var s := Run(Start(ps), polls);
            s.verdict <==> && (forall pid, status | Reaped(pid, status) in s.log :: status == 0)
                           && (forall pid :: !WasTermed(s.log, pid))
  {
    StartInv(ps);
    RunKeepsInv(Start(ps), polls, Pids(ps), TimedPids(ps));
    var log := Run(Start(ps), polls).log;
    if forall pid :: !WasTermed(log, pid) {
      forall e | e in log && e.Sent?
        ensures !e.signal.SIGTERM?
      {
        assert !WasTermed(log, e.pid);
        assert e == Sent(e.pid, e.signal, e.at);
      }
    }
    if Clean(log) {
      forall pid
        ensures !WasTermed(log, pid)
      {
        assert forall at :: Sent(pid, SIGTERM, at) in log ==> Blemished(Sent(pid, SIGTERM, at));
      }
      assert forall pid, status | Reaped(pid, status) in log :: !Blemished(Reaped(pid, status));
    }
    if forall pid, status | Reaped(pid, status) in log :: status == 0 {
      assert forall e | e in log && e.Reaped? :: e == Reaped(e.pid, e.status);
    }
  }

  // ---- an operating system that keeps its word --------------------------------------------------

  /**
   The answers fit the children: only a child that has not been reaped can exit,
   "nobody yet" is only said while there are children, "no child" only when there
   are none.
   */
  predicate Honest(polls: seq<Poll>, children: set<int>)
    decreases |polls|
  {
    polls == [] ||
    match polls[0]
    case Exited(pid, _) => pid in children && Honest(polls[1..], children - {pid})
    case NoChild => children == {} && Honest(polls[1..], children)
    case Pending(_) => children != {} && Honest(polls[1..], children)
  }

  /** The children left after those answers. */
  function Left(polls: seq<Poll>, children: set<int>): set<int>
    decreases |polls|
  {
    if polls == [] then children
    else Left(polls[1..], if polls[0].Exited? then children - {polls[0].pid} else children)
  }

  lemma {:induction false} NoneLeft(polls: seq<Poll>)
    ensures Left(polls, {}) == {}
    decreases |polls|
  {
    if polls != [] {
      if polls[0].Exited? {
        assert {} - {polls[0].pid} == {};
      }
      NoneLeft(polls[1..]);
    }
  }

  lemma {:induction false} TracksChildren(s: Pool, polls: seq<Poll>, tracked: set<int>, timed: set<int>)
    requires Inv(s, tracked, timed) && !s.stopped && Honest(polls, Pids(s.active))
    ensures !Run(s, polls).stopped && Pids(Run(s, polls).active) == Left(polls, Pids(s.active))
    decreases |polls|
  {
    if polls != [] {
      if s.active == [] {
        NoneLeft(polls);
        assert Pids([]) == {};
      } else {
        hide Inv;
        assert s.active[0].pid in Pids(s.active);
        PollKeepsInv(s, polls[0], tracked, timed);
        if polls[0].Pending? {
          StaysRunning(s, 0, polls[0].now);
        }
        TracksChildren(PollStep(s, polls[0]), polls[1..], tracked, timed);
      }
    }
  }

  /**
   If the tracked workers are the children and the system keeps its word, the loop
   tracks exactly the children left, never gives up on one, and ends exactly when
   none is left; it then returns with nobody tracked.
   */
  lemma WaitsForAll(ps: seq<WorkerProc>, polls: seq<Poll>)
    requires Fresh(ps) && Honest(polls, Pids(ps))
    ensures var s := Run(Start(ps), polls);
            && Pids(s.active) == Left(polls, Pids(ps))
            && (!Live(s) <==> Left(polls, Pids(ps)) == {})
            && (!Live(s) <==> s.active == [])
  {
    StartInv(ps);
    TracksChildren(Start(ps), polls, Pids(ps), TimedPids(ps));
    var s := Run(Start(ps), polls);
    if s.active != [] {
      assert s.active[0].pid in Pids(s.active);
    }
  }
}
