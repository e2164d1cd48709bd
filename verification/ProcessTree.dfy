/**
 The process tree. Master and children run the same code, each on its own copy of the
 state after the fork; here all of them run interleaved, in any order, with any outcome
 of fork, of the tests and of waiting.
 */
module ProcessTree {
  import opened Strings
  import opened Params
  import opened WorkerPool

  /** Where a process is: at the head of the loop, in the tests, back from spawning, waiting, or done. */
  datatype Phase =
    | AtLoop(index: nat)
    | Testing(index: nat)
    | Back(index: nat, rc: RetCode)
    | Waiting
    | Done(result: bool)

  /**
   `children` in the order of forking; `active`, `events` and `tested` are the fields of
   the pool of the process. `forks` and `polls` record what fork and waitpid answered it;
   a child has the answers of its parent up to the fork it came from.
   */
  datatype Process = Process(
    parent: Option<nat>,
    phase: Phase,
    children: seq<nat>,
    active: seq<WorkerProc>,
    events: seq<Event>,
    tested: seq<WorkerParams>,
    forks: seq<Fork>,
    polls: seq<Poll>,
    waited: bool)

  type System = map<nat, Process>

  /** What is to be run, and by which build of the program. */
  datatype Job = Job(build: Build, params: seq<WorkerParams>)

  /**
   How the environment answers: pid of the new child (None: fork fails) and the time it
   is, result of the tests, everything waitpid answers.
   */
  datatype Answer = Answer(child: Option<nat>, now: int, success: bool, polls: seq<Poll>)

  function Booted(master: nat): System {
    map[master := Process(None, AtLoop(0), [], [], [], [], [], [], false)]
  }

  /** One step of process `pid`; waiting is one step, taken once the answers end the wait. */
  function Step(sys: System, job: Job, pid: nat, a: Answer): System {
    if pid !in sys then sys
    else
      var p := sys[pid];
      match p.phase
      case AtLoop(i) =>
        if i >= |job.params| then sys[pid := p.(phase := Waiting, waited := true)]
        else if a.child.None? || a.child.value in sys then
          sys[pid := p.(phase := Back(i, eERROR), forks := p.forks + [ForkFailed])]
        else
          var c := a.child.value;
          sys[pid := p.(phase := Back(i, eMASTER),
                        children := p.children + [c],
                        active := p.active + [Tracked(job.params[i], c, a.now)],
                        forks := p.forks + [InMaster(c, a.now)])]
             [c := p.(parent := Some(pid), phase := Testing(i), children := [])]
      case Testing(i) =>
        if i >= |job.params| then sys
        else
          var supported := SupportedDb(job.build, job.params[i].dbtype);
          sys[pid := p.(phase := Back(i, if a.success && supported then eCHILD else eERROR),
                        tested := if supported then p.tested + [job.params[i]] else p.tested,
                        forks := p.forks + [InChild(a.success)])]
      case Back(i, rc) =>
        sys[pid := p.(phase := match rc
                               case eERROR => Done(false)
                               case eCHILD => Done(true)
                               case eMASTER => AtLoop(i + 1))]
      case Waiting =>
        var r := Waited(p.active, a.polls);
        if Live(r) then sys
        else sys[pid := p.(phase := Done(r.verdict), active := r.active, events := r.log, polls := a.polls)]
      case Done(_) => sys
  }

  function Interleaved(sys: System, job: Job, schedule: seq<(nat, Answer)>): System
    decreases |schedule|
  {
    if schedule == [] then sys
    else Interleaved(Step(sys, job, schedule[0].0, schedule[0].1), job, schedule[1..])
  }

  // ---- each process does what RunAll does ------------------------------------------------------------

  /** A pool after `i` forks have returned in this process or in the one it is a copy of. */
  predicate HasForked(
      job: Job, i: nat, forks: seq<Fork>, active: seq<WorkerProc>, events: seq<Event>, tested: seq<WorkerParams>)
  {
    && i <= |job.params| && |forks| == i && (forall k | 0 <= k < i :: forks[k].InMaster?)
    && active == Spawned(job.params, forks, i) && events == [] && tested == []
  }

  /** Whatever the forks that are never reached would answer, RunAll returns this and leaves this pool. */
  ghost predicate EndsAsRunAll(
      job: Job, result: bool, forks: seq<Fork>, polls: seq<Poll>, active: seq<WorkerProc>, events: seq<Event>,
      tested: seq<WorkerParams>)
  {
    && |forks| <= |job.params|
    && forall all | |all| == |job.params| && forks <= all ::
         RunAllOutcome(job.build, job.params, all, polls) == Outcome(result, true, active, events, tested)
  }

  ghost predicate Forked(p: Process, job: Job, i: nat) {
    HasForked(job, i, p.forks, p.active, p.events, p.tested)
  }

  ghost predicate Ends(p: Process, job: Job, result: bool) {
    EndsAsRunAll(job, result, p.forks, p.polls, p.active, p.events, p.tested)
  }

  /** The phases in the order of RunAll, with the pool as RunAll has it there. */
  ghost predicate PhaseOk(p: Process, job: Job) {
    match p.phase
    case AtLoop(i) => Forked(p, job, i)
    case Testing(i) => i < |job.params| && Forked(p, job, i)
    case Back(i, rc) => if rc.eMASTER? then Forked(p, job, i + 1) else Ends(p, job, rc.eCHILD?)
    case Waiting => Forked(p, job, |job.params|)
    case Done(result) => Ends(p, job, result)
  }

  lemma MasterForksIs(forks: seq<Fork>, n: nat)
    requires n <= |forks| && (forall k | 0 <= k < n :: forks[k].InMaster?) && (n < |forks| ==> !forks[n].InMaster?)
    ensures MasterForks(forks) == n
  {
    hide MasterForks;
    var m := MasterForks(forks);
    assert m < |forks| ==> !forks[m].InMaster?;
  }

  /** Spawned looks at the first `n` forks only. */
  lemma {:induction false} SpawnedLocal(params: seq<WorkerParams>, a: seq<Fork>, b: seq<Fork>, n: nat)
    requires n <= |params| && n <= |a| && n <= |b| && (forall k | 0 <= k < n :: a[k] == b[k] && a[k].InMaster?)
    ensures Spawned(params, a, n) == Spawned(params, b, n)
  {
    if n > 0 {
      SpawnedLocal(params, a, b, n - 1);
    }
  }

  lemma ForkStep(job: Job, i: nat, forks: seq<Fork>, active: seq<WorkerProc>, c: nat, now: int)
    requires HasForked(job, i, forks, active, [], []) && i < |job.params|
    ensures HasForked(job, i + 1, forks + [InMaster(c, now)], active + [Tracked(job.params[i], c, now)], [], [])
  {
    hide Tracked;
    SpawnedLocal(job.params, forks, forks + [InMaster(c, now)], i);
  }

  /** A fork that fails, or that returns in the child, ends the loop. */
  lemma StopStep(job: Job, i: nat, forks: seq<Fork>, active: seq<WorkerProc>, f: Fork, polls: seq<Poll>)
    requires HasForked(job, i, forks, active, [], []) && i < |job.params| && !f.InMaster?
    ensures var supported := f.InChild? && SupportedDb(job.build, job.params[i].dbtype);
            EndsAsRunAll(job, supported && f.success, forks + [f], polls, active, [],
                         if supported then [job.params[i]] else [])
  {
    var mine := forks + [f];
    forall all | |all| == |job.params| && mine <= all
      ensures MasterForks(all) == i && all[i] == f && Spawned(job.params, all, i) == active
    {
      assert all[i] == mine[i];
      assert forall k | 0 <= k < i :: all[k] == mine[k] == forks[k];
      MasterForksIs(all, i);
      SpawnedLocal(job.params, forks, all, i);
    }
    hide MasterForks, Spawned, SupportedDb;
  }

  lemma WaitStep(job: Job, forks: seq<Fork>, active: seq<WorkerProc>, polls: seq<Poll>)
    requires HasForked(job, |job.params|, forks, active, [], []) && !Live(Waited(active, polls))
    ensures var r := Waited(active, polls);
            EndsAsRunAll(job, r.verdict, forks, polls, r.active, r.log, [])
  {
    MasterForksIs(forks, |job.params|);
    hide MasterForks, Spawned, Waited;
    assert forall all | |all| == |job.params| && forks <= all :: all == forks;
  }

  lemma ForkedIs(p: Process, job: Job, i: nat)
    requires Forked(p, job, i)
    ensures i <= |job.params| && p.events == [] && p.tested == []
  {
  }

  /** The head of the loop: a child starts from a copy of the pool of its parent. */
  lemma LoopPhase(sys: System, job: Job, pid: nat, a: Answer)
    requires pid in sys && PhaseOk(sys[pid], job) && sys[pid].phase.AtLoop?
    ensures var after := Step(sys, job, pid, a);
            pid in after && forall q | q in after && (q == pid || q !in sys) :: PhaseOk(after[q], job)
  {
    var p := sys[pid];
    var i := p.phase.index;
    hide HasForked, EndsAsRunAll, Spawned, SupportedDb, Tracked;
    ForkedIs(p, job, i);
    if i < |job.params| {
      if a.child.None? || a.child.value in sys {
        StopStep(job, i, p.forks, p.active, ForkFailed, p.polls);
      } else {
        ForkStep(job, i, p.forks, p.active, a.child.value, a.now);
      }
    }
  }

  lemma TestingPhase(sys: System, job: Job, pid: nat, a: Answer)
    requires pid in sys && PhaseOk(sys[pid], job) && sys[pid].phase.Testing?
    ensures var after := Step(sys, job, pid, a); after.Keys == sys.Keys && PhaseOk(after[pid], job)
  {
    var p := sys[pid];
    var i := p.phase.index;
    hide HasForked, EndsAsRunAll, Spawned, SupportedDb;
    ForkedIs(p, job, i);
    StopStep(job, i, p.forks, p.active, InChild(a.success), p.polls);
    assert [] + [job.params[i]] == [job.params[i]];
  }

  lemma WaitingPhase(sys: System, job: Job, pid: nat, a: Answer)
    requires pid in sys && PhaseOk(sys[pid], job) && sys[pid].phase.Waiting?
    ensures var after := Step(sys, job, pid, a); after.Keys == sys.Keys && PhaseOk(after[pid], job)
  {
    var p := sys[pid];
    hide HasForked, EndsAsRunAll, Spawned, Waited, Live;
    ForkedIs(p, job, |job.params|);
    if !Live(Waited(p.active, a.polls)) {
      WaitStep(job, p.forks, p.active, a.polls);
    }
  }

  /** The process that takes the step, and the child it may have forked, go on in the order of RunAll. */
  lemma StepKeepsPhase(sys: System, job: Job, pid: nat, a: Answer)
    requires pid in sys && PhaseOk(sys[pid], job)
    ensures var after := Step(sys, job, pid, a);
            pid in after && forall q | q in after && (q == pid || q !in sys) :: PhaseOk(after[q], job)
  {
    match sys[pid].phase
    case AtLoop(_) =>
      hide Step, PhaseOk;
      LoopPhase(sys, job, pid, a);
    case Testing(_) =>
      hide Step, PhaseOk;
      TestingPhase(sys, job, pid, a);
    case Waiting =>
      hide Step, PhaseOk;
      WaitingPhase(sys, job, pid, a);
    case Back(_, _) => hide HasForked, EndsAsRunAll;
    case Done(_) =>
  }

  // ---- the shape of the tree ---------------------------------------------------------------------------

  /** The master: forks, waits only after the last fork, tests nothing. */
  predicate MasterOk(p: Process, n: nat) {
    && p.parent.None? && p.tested == [] && |p.children| <= n
    && (p.waited ==> |p.children| == n)
    && match p.phase
       case AtLoop(i) => i == |p.children| && !p.waited
       case Testing(_) => false
       case Back(i, rc) => !p.waited && (if rc.eMASTER? then i + 1 == |p.children| else rc.eERROR? && i == |p.children|)
       case Waiting => p.waited
       case Done(_) => true
  }

  /** The child forked for section `i`: tests that section alone, forks nothing, waits for nobody. */
  predicate ChildOk(p: Process, job: Job, master: nat, i: nat) {
    && i < |job.params| && p.parent == Some(master) && p.children == [] && !p.waited
    && match p.phase
       case AtLoop(_) => false
       case Testing(j) => j == i && p.tested == []
       case Back(j, rc) => j == i && !rc.eMASTER? && p.tested == Tested(job.build, job.params[i])
       case Waiting => false
       case Done(_) => p.tested == Tested(job.build, job.params[i])
  }

  ghost predicate Inv(sys: System, job: Job, master: nat) {
    && master in sys && MasterOk(sys[master], |job.params|)
    && (forall i | 0 <= i < |sys[master].children| ::
          && sys[master].children[i] in sys && sys[master].children[i] != master
          && ChildOk(sys[sys[master].children[i]], job, master, i))
    && (forall pid | pid in sys && pid != master :: pid in sys[master].children)
  }

  lemma MasterStep(sys: System, job: Job, master: nat, a: Answer)
    requires master in sys && MasterOk(sys[master], |job.params|)
    ensures var after := Step(sys, job, master, a);
            && master in after && MasterOk(after[master], |job.params|)
            && (forall q | q in sys && q != master :: q in after && after[q] == sys[q])
            && (if after.Keys == sys.Keys then after[master].children == sys[master].children
                else
                  && a.child.Some? && a.child.value !in sys && a.child.value in after
                  && (forall q | q in after :: q in sys || q == a.child.value)
                  && after[master].children == sys[master].children + [a.child.value]
                  && ChildOk(after[a.child.value], job, master, |sys[master].children|))
  {
    hide Tracked, Waited, Live, SupportedDb;
  }

  lemma ChildStep(sys: System, job: Job, master: nat, pid: nat, i: nat, a: Answer)
    requires pid in sys && ChildOk(sys[pid], job, master, i)
    ensures var after := Step(sys, job, pid, a);
            && after.Keys == sys.Keys && ChildOk(after[pid], job, master, i)
            && forall q | q in sys && q != pid :: after[q] == sys[q]
  {
    hide Tracked, Waited, Live, SupportedDb;
    assert i < |job.params| ==> [] + [job.params[i]] == [job.params[i]];
  }

  lemma StepKeepsInv(sys: System, job: Job, master: nat, pid: nat, a: Answer)
    requires Inv(sys, job, master)
    ensures Inv(Step(sys, job, pid, a), job, master)
  {
    var m := sys[master];
    var after := Step(sys, job, pid, a);
    if pid == master {
      MasterStep(sys, job, master, a);
      hide Step, MasterOk, ChildOk;
      var m1 := after[master];
      forall i | 0 <= i < |m1.children|
        ensures m1.children[i] in after && m1.children[i] != master
        ensures ChildOk(after[m1.children[i]], job, master, i)
      {
        if i < |m.children| {
          assert m1.children[i] == m.children[i];
        }
      }
      forall q | q in after && q != master
        ensures q in m1.children
      {
        if q in sys {
          assert q in m.children;
        } else {
          assert m1.children[|m.children|] == q;
        }
      }
    } else if pid in sys {
      var k :| 0 <= k < |m.children| && m.children[k] == pid;
      ChildStep(sys, job, master, pid, k, a);
      forall i | 0 <= i < |m.children|
        ensures ChildOk(after[m.children[i]], job, master, i)
      {
        assert ChildOk(sys[m.children[i]], job, master, i);
        if m.children[i] == pid {
          ChildStep(sys, job, master, pid, i, a);
        }
      }
    }
  }

  ghost predicate AllPhasesOk(sys: System, job: Job) {
    forall pid | pid in sys :: PhaseOk(sys[pid], job)
  }

  lemma OthersUntouched(sys: System, job: Job, pid: nat, a: Answer)
    ensures forall q | q in sys && q != pid :: q in Step(sys, job, pid, a) && Step(sys, job, pid, a)[q] == sys[q]
  {
    hide Tracked, Waited, Live, SupportedDb;
  }

  lemma {:induction false} RunKeepsInv(sys: System, job: Job, master: nat, schedule: seq<(nat, Answer)>)
    requires Inv(sys, job, master) && AllPhasesOk(sys, job)
    ensures Inv(Interleaved(sys, job, schedule), job, master) && AllPhasesOk(Interleaved(sys, job, schedule), job)
    decreases |schedule|
  {
    if schedule != [] {
      hide Inv, PhaseOk;
      var pid, a := schedule[0].0, schedule[0].1;
      StepKeepsInv(sys, job, master, pid, a);
      StillAllOk(sys, job, pid, a);
      hide Step, AllPhasesOk;
      RunKeepsInv(Step(sys, job, pid, a), job, master, schedule[1..]);
    }
  }

  lemma StillAllOk(sys: System, job: Job, pid: nat, a: Answer)
    requires AllPhasesOk(sys, job)
    ensures AllPhasesOk(Step(sys, job, pid, a), job)
  {
    OthersUntouched(sys, job, pid, a);
    if pid in sys {
      StepKeepsPhase(sys, job, pid, a);
    }
    assert pid !in sys ==> Step(sys, job, pid, a) == sys;
    hide Step, PhaseOk;
  }

  lemma BootedOk(job: Job, master: nat)
    ensures Inv(Booted(master), job, master) && AllPhasesOk(Booted(master), job)
  {
  }

  /**
   In every interleaving: each process but the master is a child of the master, the
   i-th child forked tests section i and nothing else, no child ever forks or waits,
   and the master waits only after it has forked a child for every section.
   */
  lemma TreeShape(job: Job, master: nat, schedule: seq<(nat, Answer)>)
    ensures var sys := Interleaved(Booted(master), job, schedule);
            && master in sys && sys[master].tested == []
            && (sys[master].waited ==> |sys[master].children| == |job.params|)
            && forall pid | pid in sys && pid != master ::
                 && sys[pid].parent == Some(master) && sys[pid].children == [] && !sys[pid].waited
                 && exists i :: && 0 <= i < |sys[master].children| && sys[master].children[i] == pid
                                && ChildOk(sys[pid], job, master, i)
  {
    BootedOk(job, master);
    RunKeepsInv(Booted(master), job, master, schedule);
    var sys := Interleaved(Booted(master), job, schedule);
    forall pid | pid in sys && pid != master
      ensures sys[pid].parent == Some(master) && sys[pid].children == [] && !sys[pid].waited
      ensures exists i :: && 0 <= i < |sys[master].children| && sys[master].children[i] == pid
                          && ChildOk(sys[pid], job, master, i)
    {
      var i :| 0 <= i < |sys[master].children| && sys[master].children[i] == pid;
      assert ChildOk(sys[sys[master].children[i]], job, master, i);
    }
  }

  /**
   Master or child, a process that is done has returned what RunAll returns for the
   answers that process got from fork and waitpid, and leaves the pool RunAll leaves.
   */
  lemma EachEndsAsRunAll(job: Job, master: nat, schedule: seq<(nat, Answer)>, pid: nat)
    requires pid in Interleaved(Booted(master), job, schedule)
    requires Interleaved(Booted(master), job, schedule)[pid].phase.Done?
    ensures var p := Interleaved(Booted(master), job, schedule)[pid];
            EndsAsRunAll(job, p.phase.result, p.forks, p.polls, p.active, p.events, p.tested)
  {
    hide Step, Inv, EndsAsRunAll, HasForked;
    BootedOk(job, master);
    RunKeepsInv(Booted(master), job, master, schedule);
    assert PhaseOk(Interleaved(Booted(master), job, schedule)[pid], job);
  }
}
