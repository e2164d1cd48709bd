/** When workers are signalled, in terms of their sections' timeouts and of nanoseconds. */
module WorkerDeadlines {
  import opened Params
  import opened WorkerPool
  import opened WorkerPoolSafety
  import opened WorkerPoolTiming

  // ---- never too early, whatever the clock does ------------------------------------------------------

  /** A SIGTERM comes only to a worker with a timeout, and only after its deadline. */
  predicate NotEarly(e: Event, ps: seq<WorkerProc>) {
    e.Sent? && e.signal.SIGTERM? ==>
      exists i :: 0 <= i < |ps| && ps[i].pid == e.pid && ps[i].hasTimeout && ps[i].deadline < e.at
  }

  ghost predicate EarlyInv(s: Pool, ps: seq<WorkerProc>) {
    && (forall i | 0 <= i < |s.active| :: FromStart(s.active[i], ps))
    && (forall e | e in s.log :: NotEarly(e, ps))
  }

  lemma CheckNotEarly(s: Pool, ps: seq<WorkerProc>, i: nat, now: int)
    requires i < |s.active| && EarlyInv(s, ps)
    ensures EarlyInv(CheckOne(s, i, now), ps)
  {
    var p, s' := s.active[i], CheckOne(s, i, now);
    var k :| 0 <= k < |ps| && ps[k].pid == p.pid && ps[k].hasTimeout == p.hasTimeout && ps[k].deadline == p.deadline;
    assert TermDue(p, now) ==> NotEarly(Sent(p.pid, SIGTERM, now), ps);
    assert FromStart(s'.active[i], ps);
  }

  lemma {:induction false} CheckFromNotEarly(s: Pool, ps: seq<WorkerProc>, i: nat, now: int)
    requires EarlyInv(s, ps)
    ensures EarlyInv(CheckFrom(s, i, now), ps)
    decreases |s.active| - i
  {
    if i < |s.active| {
      hide EarlyInv;
      CheckNotEarly(s, ps, i, now);
      CheckFromNotEarly(CheckOne(s, i, now), ps, i + 1, now);
    }
  }

  lemma {:induction false} RunNotEarly(s: Pool, ps: seq<WorkerProc>, polls: seq<Poll>)
    requires EarlyInv(s, ps)
    ensures EarlyInv(Run(s, polls), ps)
    decreases |polls|
  {
    if polls != [] && Live(s) {
      if polls[0].Pending? {
        CheckFromNotEarly(s, ps, 0, polls[0].now);
      }
      RunNotEarly(PollStep(s, polls[0]), ps, polls[1..]);
    }
  }

  lemma WaitNotEarly(ps: seq<WorkerProc>, polls: seq<Poll>)
    ensures forall e | e in Waited(ps, polls).log :: NotEarly(e, ps)
  {
    assert EarlyInv(Start(ps), ps);
    RunNotEarly(Start(ps), ps, polls);
  }

  /**
   In every run a SIGTERM to a worker comes after the seconds its section sets, counted
   from the look at the clock that followed its fork, and never to a worker whose section
   sets none; a SIGKILL comes more than ten seconds after a SIGTERM.
   */
  lemma NeverTooEarly(build: Build, params: seq<WorkerParams>, forks: seq<Fork>, polls: seq<Poll>)
    requires |forks| == |params| && DistinctPids(forks)
    ensures var events := RunAllOutcome(build, params, forks, polls).events;
            && (forall i, at | 0 <= i < MasterForks(forks) && Sent(forks[i].pid, SIGTERM, at) in events ::
                  params[i].timeoutSecs > 0 && at > forks[i].now + params[i].timeoutSecs * 1_000_000_000)
            && (forall pid, at | Sent(pid, SIGKILL, at) in events ::
                  exists t :: Sent(pid, SIGTERM, t) in events && at > t + 10_000_000_000)
  {
    var n := MasterForks(forks);
    if n == |params| {
      var ps := Spawned(params, forks, n);
      SpawnedEach(params, forks, n);
      hide Spawned, MasterForks, Run;
      WaitNotEarly(ps, polls);
      assert Fresh(ps);
      SignalSafety(ps, polls);
      var log := Waited(ps, polls).log;
      forall i, at | 0 <= i < n && Sent(forks[i].pid, SIGTERM, at) in log
        ensures params[i].timeoutSecs > 0 && at > forks[i].now + params[i].timeoutSecs * 1_000_000_000
      {
        assert NotEarly(Sent(forks[i].pid, SIGTERM, at), ps);
        var k :| 0 <= k < |ps| && ps[k].pid == forks[i].pid && ps[k].hasTimeout && ps[k].deadline < at;
        assert k == i && ps[i] == Tracked(params[i], forks[i].pid, forks[i].now);
      }
      forall pid, at | Sent(pid, SIGKILL, at) in log
        ensures exists t :: Sent(pid, SIGTERM, t) in log && at > t + 10_000_000_000
      {
        var j :| 0 <= j < |log| && log[j] == Sent(pid, SIGKILL, at);
        assert Allowed(log[..j], log[j], Pids(ps), TimedPids(ps));
        var t :| Sent(pid, SIGTERM, t) in log[..j] && at > t + SIGTERM_GRACE;
        assert Sent(pid, SIGTERM, t) in log;
      }
    }
  }

  // ---- and never too late, if the clock is looked at often enough ------------------------------------------

  ghost predicate KilledIn(events: seq<Event>, pid: int, from: int, to: int) {
    exists k :: Sent(pid, SIGKILL, k) in events && from < k <= to
  }

  /**
   A SIGTERM came at most `gap` after the timeout was over, and if the clock has been seen
   more than ten seconds after that, a SIGKILL at most `gap` after those ten seconds.
   */
  ghost predicate Stopped(events: seq<Event>, pid: int, over: int, gap: nat, last: int) {
    exists t ::
      && Sent(pid, SIGTERM, t) in events && over < t <= over + gap
      && (last > t + 10_000_000_000 ==>
            KilledIn(events, pid, t + 10_000_000_000, t + 10_000_000_000 + gap))
  }

  /** A worker not yet reaped is tracked, with the deadline it was spawned with. */
  lemma ActiveIsFromStart(ps: seq<WorkerProc>, polls: seq<Poll>, pid: int, i: nat)
    requires Fresh(ps) && i < |ps| && ps[i].pid == pid && !WasReaped(Waited(ps, polls).log, pid)
    ensures var s := Waited(ps, polls);
            exists k :: && 0 <= k < |s.active| && s.active[k].pid == pid
                        && s.active[k].hasTimeout == ps[i].hasTimeout && s.active[k].deadline == ps[i].deadline
  {
    assert EarlyInv(Start(ps), ps);
    RunNotEarly(Start(ps), ps, polls);
    SignalSafety(ps, polls);
    hide Run, NotEarly, Safe;
    var s := Waited(ps, polls);
    assert pid in Pids(ps);
    assert pid in Pids(s.active);
    var k :| 0 <= k < |s.active| && s.active[k].pid == pid;
    var p := s.active[k];
    assert FromStart(p, ps);
    var j :| 0 <= j < |ps| && ps[j].pid == p.pid && ps[j].hasTimeout == p.hasTimeout && ps[j].deadline == p.deadline;
    assert j == i;
  }

  lemma TrackedIsStopped(ps: seq<WorkerProc>, polls: seq<Poll>, start: int, gap: nat, i: nat)
    requires Fresh(ps) && Spaced(polls, start, gap) && i < |ps| && ps[i].hasTimeout
    requires forall k | 0 <= k < |ps| && ps[k].hasTimeout :: start <= ps[k].deadline
    ensures var s, last := Waited(ps, polls), LastTime(polls, start);
            Live(s) && !WasReaped(s.log, ps[i].pid) && last > ps[i].deadline ==>
              Stopped(s.log, ps[i].pid, ps[i].deadline, gap, last)
  {
    BoundedEscalation(ps, polls, start, gap);
    var s, last := Waited(ps, polls), LastTime(polls, start);
    hide Run, InWindow, Fresh, Spaced, LastTime;
    if Live(s) && !WasReaped(s.log, ps[i].pid) && last > ps[i].deadline {
      ActiveIsFromStart(ps, polls, ps[i].pid, i);
      var k :| && 0 <= k < |s.active| && s.active[k].pid == ps[i].pid
               && s.active[k].hasTimeout == ps[i].hasTimeout && s.active[k].deadline == ps[i].deadline;
      EscalatedIsStopped(s.active[k], s.log, last, gap);
    }
  }

  lemma EscalatedIsStopped(p: WorkerProc, log: seq<Event>, last: int, gap: nat)
    requires Escalated(p, log, last, gap) && last > p.deadline
    ensures Stopped(log, p.pid, p.deadline, gap, last)
  {
    var t :| && Sent(p.pid, SIGTERM, t) in log && p.deadline < t <= p.deadline + gap
             && (last > t + SIGTERM_GRACE ==> KilledInTime(log, p.pid, t + SIGTERM_GRACE, gap));
  }

  /**
   Let the clock be looked at at most `gap` apart, first at most `gap` after `start`, when
   no timeout was over. Then every SIGTERM comes at most `gap` after its worker's timeout
   is over. While the master waits, a worker with a timeout that has not been reaped has
   got its SIGTERM once the clock was seen past that, and a SIGKILL once it was seen ten
   seconds past the SIGTERM.
   */
  lemma NeverTooLate(
      build: Build, params: seq<WorkerParams>, forks: seq<Fork>, polls: seq<Poll>, start: int, gap: nat, i: nat)
    requires |forks| == |params| == MasterForks(forks) && DistinctPids(forks) && i < |params|
    requires Spaced(polls, start, gap)
    requires forall k | 0 <= k < |params| && params[k].timeoutSecs > 0 ::
               start <= forks[k].now + params[k].timeoutSecs * 1_000_000_000
    ensures var o := RunAllOutcome(build, params, forks, polls);
            var pid, over := forks[i].pid, forks[i].now + params[i].timeoutSecs * 1_000_000_000;
            && (forall at | Sent(pid, SIGTERM, at) in o.events :: over < at <= over + gap)
            && (!o.finished && params[i].timeoutSecs > 0
                && !WasReaped(o.events, pid) && LastTime(polls, start) > over ==>
                  Stopped(o.events, pid, over, gap, LastTime(polls, start)))
  {
    var ps := Spawned(params, forks, |params|);
    SpawnedEach(params, forks, |params|);
    NeverTooEarly(build, params, forks, polls);
    hide Spawned, MasterForks, Run, Stopped, LastTime, Spaced, WasReaped, Live;
    assert Fresh(ps);
    forall k | 0 <= k < |ps| && ps[k].hasTimeout
      ensures start <= ps[k].deadline
    {
      assert ps[k] == Tracked(params[k], forks[k].pid, forks[k].now);
    }
    hide Fresh;
    assert ps[i] == Tracked(params[i], forks[i].pid, forks[i].now);
    BoundedEscalation(ps, polls, start, gap);
    var s, pid := Waited(ps, polls), forks[i].pid;
    forall at | Sent(pid, SIGTERM, at) in s.log
      ensures at <= forks[i].now + params[i].timeoutSecs * 1_000_000_000 + gap
    {
      assert InWindow(Sent(pid, SIGTERM, at), ps, gap);
    }
    if params[i].timeoutSecs > 0 {
      TrackedIsStopped(ps, polls, start, gap, i);
    }
  }
}
