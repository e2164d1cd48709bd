/** How late the supervisor can be. */
module WorkerPoolTiming {
  import opened WorkerPool
  import opened WorkerPoolSafety

  /** The clock does not go back, and two looks at it are at most `gap` apart. */
  predicate Spaced(polls: seq<Poll>, last: int, gap: nat)
    decreases |polls|
  {
    polls == [] ||
    if polls[0].Pending? then last <= polls[0].now <= last + gap && Spaced(polls[1..], polls[0].now, gap)
    else Spaced(polls[1..], last, gap)
  }

  function LastTime(polls: seq<Poll>, last: int): int
    decreases |polls|
  {
    if polls == [] then last
    else LastTime(polls[1..], if polls[0].Pending? then polls[0].now else last)
  }

  ghost predicate KilledInTime(log: seq<Event>, pid: int, due: int, gap: nat) {
    exists k :: Sent(pid, SIGKILL, k) in log && due < k <= due + gap
  }

  /** What is known of a tracked worker when the clock was last seen at `last`. */
  ghost predicate OnTime(p: WorkerProc, log: seq<Event>, last: int, gap: nat) {
    if p.termSent then
      && p.deadline < p.killDeadline - SIGTERM_GRACE <= p.deadline + gap
      && p.killDeadline - SIGTERM_GRACE <= last
      && (last <= p.killDeadline || KilledInTime(log, p.pid, p.killDeadline, gap))
    else
      p.hasTimeout ==> last <= p.deadline
  }

  /** `p` is still timed as the worker that was spawned with this pid. */
  predicate FromStart(p: WorkerProc, ps: seq<WorkerProc>) {
    exists i :: 0 <= i < |ps| && ps[i].pid == p.pid && ps[i].hasTimeout == p.hasTimeout && ps[i].deadline == p.deadline
  }

  ghost predicate InWindow(e: Event, ps: seq<WorkerProc>, gap: nat) {
    e.Sent? && e.signal.SIGTERM? ==>
      forall i | 0 <= i < |ps| && ps[i].pid == e.pid :: ps[i].deadline < e.at <= ps[i].deadline + gap
  }

  ghost predicate TimeInv(s: Pool, ps: seq<WorkerProc>, from: nat, last: int, now: int, gap: nat) {
    && (forall i | 0 <= i < |s.active| :: OnTime(s.active[i], s.log, if i < from then now else last, gap))
    && (forall i | 0 <= i < |s.active| :: FromStart(s.active[i], ps))
    && (forall e | e in s.log :: InWindow(e, ps, gap))
  }

  lemma LongerLogOnTime(p: WorkerProc, log: seq<Event>, e: Event, last: int, gap: nat)
    requires OnTime(p, log, last, gap)
    ensures OnTime(p, log + [e], last, gap)
  {
    if p.termSent && last > p.killDeadline {
      var k :| Sent(p.pid, SIGKILL, k) in log && p.killDeadline < k <= p.killDeadline + gap;
      assert Sent(p.pid, SIGKILL, k) in log + [e];
    }
  }

  lemma CheckedOnTime(s: Pool, i: nat, last: int, now: int, gap: nat)
    requires i < |s.active| && OnTime(s.active[i], s.log, last, gap) && last <= now <= last + gap
    ensures OnTime(CheckOne(s, i, now).active[i], CheckOne(s, i, now).log, now, gap)
  {
    var p, s' := s.active[i], CheckOne(s, i, now);
    if KillDue(p, now) {
      if last <= p.killDeadline {
        assert Sent(p.pid, SIGKILL, now) in s'.log;
      } else {
        LongerLogOnTime(p, s.log, Sent(p.pid, SIGKILL, now), last, gap);
      }
    }
  }

  lemma CheckTimeInv(s: Pool, ps: seq<WorkerProc>, i: nat, last: int, now: int, gap: nat)
    requires i < |s.active| && TimeInv(s, ps, i, last, now, gap) && last <= now <= last + gap && Distinct(ps)
    ensures TimeInv(CheckOne(s, i, now), ps, i + 1, last, now, gap)
  {
    var p, s' := s.active[i], CheckOne(s, i, now);
    CheckedOnTime(s, i, last, now, gap);
    if s' != s {
      var e := Sent(p.pid, if TermDue(p, now) then SIGTERM else SIGKILL, now);
      assert s'.log == s.log + [e];
      SamePids(s, i, now);
      forall j | 0 <= j < |s'.active| && j != i
        ensures OnTime(s'.active[j], s'.log, if j < i + 1 then now else last, gap)
      {
        LongerLogOnTime(s.active[j], s.log, e, if j < i then now else last, gap);
      }
      assert FromStart(s'.active[i], ps) by {
        var k :| && 0 <= k < |ps| && ps[k].pid == p.pid
                 && ps[k].hasTimeout == p.hasTimeout && ps[k].deadline == p.deadline;
        assert ps[k].pid == s'.active[i].pid;
      }
      TermInWindow(p, e, ps, last, now, gap);
    }
  }

  lemma TermInWindow(p: WorkerProc, e: Event, ps: seq<WorkerProc>, last: int, now: int, gap: nat)
    requires FromStart(p, ps) && Distinct(ps) && last <= now <= last + gap
    requires (p.hasTimeout && !p.termSent ==> last <= p.deadline)
    requires e == Sent(p.pid, if TermDue(p, now) then SIGTERM else SIGKILL, now)
    ensures InWindow(e, ps, gap)
  {
    var k :| 0 <= k < |ps| && ps[k].pid == p.pid && ps[k].hasTimeout == p.hasTimeout && ps[k].deadline == p.deadline;
    assert forall i | 0 <= i < |ps| && ps[i].pid == p.pid :: i == k;
  }

  lemma {:induction false} CheckFromTimeInv(s: Pool, ps: seq<WorkerProc>, i: nat, last: int, now: int, gap: nat)
    requires TimeInv(s, ps, i, last, now, gap) && last <= now <= last + gap && Distinct(ps)
    ensures TimeInv(CheckFrom(s, i, now), ps, 0, now, now, gap)
    decreases |s.active| - i
  {
    if i < |s.active| {
      hide TimeInv;
      CheckTimeInv(s, ps, i, last, now, gap);
      SamePids(s, i, now);
      CheckFromTimeInv(CheckOne(s, i, now), ps, i + 1, last, now, gap);
    }
  }

  lemma ReapTimeInv(s: Pool, ps: seq<WorkerProc>, pid: int, status: int, last: int, gap: nat)
    requires TimeInv(s, ps, 0, last, last, gap)
    ensures TimeInv(Reap(s, pid, status), ps, 0, last, last, gap)
  {
    var i := Find(s.active, pid);
    if i < |s.active| {
      var e, s' := Reaped(pid, status), Reap(s, pid, status);
      forall j | 0 <= j < |s'.active|
        ensures OnTime(s'.active[j], s'.log, last, gap) && FromStart(s'.active[j], ps)
      {
        var k := if j < i then j else j + 1;
        assert s'.active[j] == s.active[k];
        LongerLogOnTime(s.active[k], s.log, e, last, gap);
      }
    }
  }

  /** `seen` is the last time the loop looked at the clock. */
  lemma {:induction false} RunTimeInv(s: Pool, ps: seq<WorkerProc>, polls: seq<Poll>, last: int, gap: nat)
      returns (seen: int)
    requires TimeInv(s, ps, 0, last, last, gap) && Spaced(polls, last, gap) && Distinct(ps)
    ensures TimeInv(Run(s, polls), ps, 0, seen, seen, gap)
    ensures Live(Run(s, polls)) ==> seen == LastTime(polls, last)
    decreases |polls|
  {
    if polls == [] || !Live(s) {
      seen := last;
    } else {
      match polls[0]
      case Exited(pid, status) =>
        ReapTimeInv(s, ps, pid, status, last, gap);
        seen := RunTimeInv(PollStep(s, polls[0]), ps, polls[1..], last, gap);
      case NoChild =>
        seen := RunTimeInv(PollStep(s, polls[0]), ps, polls[1..], last, gap);
      case Pending(now) =>
        CheckFromTimeInv(s, ps, 0, last, now, gap);
        seen := RunTimeInv(PollStep(s, polls[0]), ps, polls[1..], now, gap);
    }
  }

  /**
   Bounded escalation. Let the clock be looked at at most `gap` apart, first at most
   `gap` after `start`, when no deadline had passed. Every SIGTERM of the run falls
   in (deadline, deadline + gap]. A worker with a timeout that is still tracked has
   been signalled exactly if the clock has been seen past its deadline; its SIGTERM
   at T is followed by a SIGKILL in (T + 10 s, T + 10 s + gap] once the clock has
   been seen past T + 10 s.
   */
  lemma BoundedEscalation(ps: seq<WorkerProc>, polls: seq<Poll>, start: int, gap: nat)
    requires Fresh(ps) && Spaced(polls, start, gap)
    requires forall i | 0 <= i < |ps| && ps[i].hasTimeout :: start <= ps[i].deadline
    ensures var s := Run(Start(ps), polls);
            && (forall e | e in s.log :: InWindow(e, ps, gap))
            && (Live(s) ==> forall i | 0 <= i < |s.active| && s.active[i].hasTimeout ::
                  Escalated(s.active[i], s.log, LastTime(polls, start), gap))
  {
    assert TimeInv(Start(ps), ps, 0, start, start, gap);
    var seen := RunTimeInv(Start(ps), ps, polls, start, gap);
    StartInv(ps);
    RunKeepsInv(Start(ps), polls, Pids(ps), TimedPids(ps));
    var s, last := Run(Start(ps), polls), LastTime(polls, start);
    if Live(s) {
      forall i | 0 <= i < |s.active| && s.active[i].hasTimeout
        ensures Escalated(s.active[i], s.log, last, gap)
      {
        OnTimeEscalates(s.active[i], s.log, last, gap, Pids(ps), TimedPids(ps));
      }
    }
  }

  ghost predicate Escalated(p: WorkerProc, log: seq<Event>, last: int, gap: nat) {
    && (WasSignalled(log, p.pid) <==> last > p.deadline)
    && (last > p.deadline ==>
          exists t :: && Sent(p.pid, SIGTERM, t) in log && p.deadline < t <= p.deadline + gap
                      && (last > t + SIGTERM_GRACE ==> KilledInTime(log, p.pid, t + SIGTERM_GRACE, gap)))
  }

  lemma OnTimeEscalates(p: WorkerProc, log: seq<Event>, last: int, gap: nat, tracked: set<int>, timed: set<int>)
    requires OnTime(p, log, last, gap) && ProcInv(p, log, tracked, timed) && p.hasTimeout
    ensures Escalated(p, log, last, gap)
  {
    if p.termSent {
      var t := p.killDeadline - SIGTERM_GRACE;
      assert Sent(p.pid, SIGTERM, t) in log;
    }
  }
}
