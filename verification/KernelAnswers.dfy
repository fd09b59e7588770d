/** What the calls answer: in any run, what a step leaves behind, told on the states
    before and after it. */
module KernelAnswers {
  import opened Basics
  import opened SleepWakeup
  import opened Wakeups
  import opened KernelRuns

  /** Step i of the run is made by CPU c for process p, which is at pc. */
  ghost predicate Makes(ss: seq<State>, es: seq<Event>, i: nat, c: nat, p: nat, pc: Pc) {
    && i < |es| && |ss| == |es| + 1 && es[i] == Continue(c) && c < |ss[i].cpu| && ss[i].cpu[c] == Runs(p)
    && p < |ss[i].pc| && ss[i].pc[p] == pc
  }

  lemma StepIs(ss: seq<State>, es: seq<Event>, i: nat)
    requires IsRun(ss, es) && i < |es|
    ensures |ss| == |es| + 1 && Inv(ss[i]) && Sized(ss[i]) && Can(ss[i], es[i]) && ss[i + 1] == Do(ss[i], es[i])
  {
    hide Inv, Can, Do;
    RunInv(ss, es, i);
    assert es[i] == es[i];
  }

  lemma RunIs(ss: seq<State>, es: seq<Event>, i: nat, c: nat, p: nat, pc: Pc)
    requires IsRun(ss, es) && Makes(ss, es, i, c, p, pc)
    ensures Inv(ss[i]) && Sized(ss[i]) && Ready(ss[i], p) && ss[i + 1] == Run(ss[i], c, p) && PcOk(ss[i], p)
  {
    hide Inv, Run, IsRun, Ready, PcOk;
    StepIs(ss, es, i);
    LabelsOf(ss[i], p);
  }

  lemma LabelsOf(s: State, p: nat)
    requires Inv(s) && Sized(s) && p < |s.pc|
    ensures PcOk(s, p)
  {
    hide Core, NoLost, Holders, Family, ForksApart, Pids, History, PcOk;
  }

  /** Nothing else about the processes changes: q is the only one with a new state, and
      nobody gets another parent, pid, channel or kill mark. */
  ghost predicate OnlyState(s: State, s': State, q: nat) {
    && |s'.st| == |s.st| && (forall r :: 0 <= r < |s.st| && r != q ==> s'.st[r] == s.st[r])
    && s'.parent == s.parent && s'.pid == s.pid && s'.chan == s.chan && s'.killed == s.killed
  }

  // ------------------------------------------------------------------------- wait()

  /** At the end of its scan wait() returns -1 exactly if the caller has no children or
      has been killed; otherwise it goes to sleep on the caller, still holding
      wait_lock. */
  lemma WaitSaysNone(ss: seq<State>, es: seq<Event>, i: nat, c: nat, p: nat, n: nat, kids: bool)
    requires IsRun(ss, es) && Makes(ss, es, i, c, p, WaitScan(n, kids)) && n >= |ss[i].pc|
    ensures Sized(ss[i]) && Sized(ss[i + 1]) && p < |ss[i + 1].pc| && OnlyState(ss[i], ss[i + 1], p) && ss[i + 1].st == ss[i].st
    ensures ss[i + 1].pc[p] == User <==> (forall q :: 0 <= q < |ss[i].pc| ==> ss[i].parent[q] != Some(p)) || ss[i].killed[p]
    ensures ss[i + 1].pc[p] == User ==> WaitLock !in ss[i + 1].lk
    ensures ss[i + 1].pc[p] != User ==>
      ss[i + 1].pc[p] == SleepWant(Wt(p)) && WaitLock in ss[i + 1].lk && ss[i + 1].lk[WaitLock] == p
    ensures ss[i + 1].reaped == ss[i].reaped
  {
    hide IsRun, Inv, NobodyCommitted, NoZombies;
    RunIs(ss, es, i, c, p, WaitScan(n, kids));
    ScanHolds(ss[i], p);
  }

  lemma ScanHolds(s: State, p: nat)
    requires Inv(s) && Sized(s) && p < |s.pc| && s.pc[p].WaitScan?
    ensures WaitLock in s.lk && s.lk[WaitLock] == p
  {
    hide CpusOk, WakeOk, Labels, NoLost, Holders, Family, ForksApart, Pids, History;
    assert HeldLock(s.pc[p]) == Some(WaitLock);
  }

  /** A child that has exited is freed by its parent's wait(), which returns its pid:
      this is what reaping does, and nothing else reaps. */
  lemma WaitReaps(ss: seq<State>, es: seq<Event>, i: nat, c: nat, p: nat, n: nat, kids: bool)
    requires IsRun(ss, es) && Makes(ss, es, i, c, p, WaitScan(n, kids)) && n < |ss[i].pc| && Sized(ss[i])
    requires ss[i].parent[n] == Some(p) && ss[i].st[n] == ZOMBIE
    ensures Sized(ss[i + 1]) && |ss[i + 1].pc| == |ss[i].pc|
    ensures ss[i + 1].pc[p] == User && WaitLock !in ss[i + 1].lk && ss[i + 1].reaped == ss[i].reaped + [ss[i].pid[n]]
    ensures ss[i + 1].st == ss[i].st[n := UNUSED] && ss[i + 1].parent == ss[i].parent[n := None] && ss[i + 1].pid == ss[i].pid[n := 0]
    ensures ss[i + 1].killed == ss[i].killed[n := false] && ss[i + 1].chan == ss[i].chan[n := None]
  {
    hide IsRun, Inv, NobodyCommitted, NoZombies;
    RunIs(ss, es, i, c, p, WaitScan(n, kids));
    NotItself(ss[i], p, n);
  }

  lemma NotItself(s: State, p: nat, n: nat)
    requires Inv(s) && Sized(s) && p < |s.pc| && n < |s.pc| && s.st[n] == ZOMBIE && s.pc[p].WaitScan?
    ensures n != p
  {
    hide LocksOk, WakeOk, Labels, NoLost, Holders, Family, ForksApart, Pids, History;
    assert StateOk(s.st[p], s.chan[p], s.pc[p]);
  }

  lemma OnlyWaitReaps(ss: seq<State>, es: seq<Event>, i: nat)
    requires IsRun(ss, es) && i < |es| && i + 1 < |ss| && ss[i + 1].reaped != ss[i].reaped
    ensures Sized(ss[i]) && es[i].Continue? && es[i].c < |ss[i].cpu| && ss[i].cpu[es[i].c].Runs?
    ensures var p := ss[i].cpu[es[i].c].p;
      && p < |ss[i].pc| && ss[i].pc[p].WaitScan? && ss[i].pc[p].i < |ss[i].pc|
      && ss[i].parent[ss[i].pc[p].i] == Some(p) && ss[i].st[ss[i].pc[p].i] == ZOMBIE
  {
    hide IsRun, Inv;
    StepIs(ss, es, i);
    if es[i].Continue? {
      ReapsOnlyThere(ss[i], es[i].c);
    }
  }

  lemma ReapsOnlyThere(s: State, c: nat)
    requires Sized(s) && IsRunning(s, c) && Ready(s, s.cpu[c].p) && Run(s, c, s.cpu[c].p).reaped != s.reaped
    ensures var p := s.cpu[c].p;
      s.pc[p].WaitScan? && s.pc[p].i < |s.pc| && s.parent[s.pc[p].i] == Some(p) && s.st[s.pc[p].i] == ZOMBIE
  {
    hide Ready, Freed, LockOf, AfterSleep, AfterWake;
  }

  // -------------------------------------------------------------- kill() and fork()

  /** kill() marks its target, wakes it if it sleeps, and changes nothing else. */
  lemma KillMarks(ss: seq<State>, es: seq<Event>, i: nat, c: nat, t: nat)
    requires IsRun(ss, es) && i < |es| && es[i] == Kill(c, t)
    ensures Sized(ss[i]) && t < |ss[i].pc| && ss[i + 1].killed == ss[i].killed[t := true]
    ensures ss[i + 1].st == ss[i].st[t := if ss[i].st[t] == SLEEPING then RUNNABLE else ss[i].st[t]]
    ensures ss[i + 1] == ss[i].(killed := ss[i + 1].killed, st := ss[i + 1].st)
  {
    hide IsRun, Inv;
    StepIs(ss, es, i);
  }

  /** fork() takes an unused slot for the child, under a pid that no process has. */
  lemma ForkTakes(ss: seq<State>, es: seq<Event>, i: nat, c: nat, t: nat)
    requires IsRun(ss, es) && i < |es| && es[i] == Fork(c, t)
    ensures Sized(ss[i]) && Sized(ss[i + 1]) && t < |ss[i].pc| == |ss[i + 1].pc| && c < |ss[i].cpu| && ss[i].cpu[c].Runs?
    ensures ss[i].st[t] == UNUSED && ss[i + 1].st == ss[i].st[t := USED] && ss[i + 1].parent == ss[i].parent
    ensures ss[i].cpu[c].p < |ss[i].pc| && ss[i + 1].pc[ss[i].cpu[c].p] == ForkParent(t)
    ensures ss[i + 1].pid[t] > 0 && forall q :: 0 <= q < |ss[i].pc| && q != t ==>
      ss[i + 1].pid[q] == ss[i].pid[q] && (ss[i].st[q] != UNUSED ==> ss[i + 1].pid[q] != ss[i + 1].pid[t])
    ensures ss[i + 1].pid[t] !in ss[i].exited
  {
    hide IsRun, Core, Labels, NoLost, Holders, Family, ForksApart;
    StepIs(ss, es, i);
  }

  /** And lets it run as the caller's child. */
  lemma ForkStarts(ss: seq<State>, es: seq<Event>, i: nat, c: nat, p: nat, t: nat)
    requires IsRun(ss, es) && Makes(ss, es, i, c, p, ForkRun(t))
    ensures Sized(ss[i]) && Sized(ss[i + 1]) && t < |ss[i].pc| == |ss[i + 1].pc| && ss[i].st[t] == USED
    ensures ss[i + 1].st == ss[i].st[t := RUNNABLE] && ss[i].parent[t] == Some(p) && OnlyState(ss[i], ss[i + 1], t)
    ensures ss[i + 1].pc[p] == User
  {
    hide IsRun, Inv, NobodyCommitted, NoZombies;
    RunIs(ss, es, i, c, p, ForkRun(t));
  }

  // -------------------------------------------------------------------- sleep-locks

  /** acquiresleep() comes back with the lock, and to nobody else. */
  lemma AcquireHolds(ss: seq<State>, es: seq<Event>, i: nat, c: nat, p: nat, l: nat)
    requires IsRun(ss, es) && Makes(ss, es, i, c, p, AcqDone(l))
    ensures Sized(ss[i + 1]) && p < |ss[i + 1].pc| && ss[i + 1].pc[p] == User && Inner(l) !in ss[i + 1].lk
    ensures (p, l) in ss[i + 1].holding && l in ss[i + 1].locked && Sized(ss[i]) && ss[i + 1].locked[l] == ss[i].pid[p]
    ensures forall q :: (q, l) in ss[i + 1].holding ==> q == p
  {
    hide IsRun, Core, Labels, NoLost, Family, ForksApart, Pids, History, Staying, NobodyCommitted, NoZombies;
    RunIs(ss, es, i, c, p, AcqDone(l));
  }

  /** It takes the lock if it is free, and only then; else it goes to sleep on it. */
  lemma AcquireTests(ss: seq<State>, es: seq<Event>, i: nat, c: nat, p: nat, l: nat)
    requires IsRun(ss, es) && Makes(ss, es, i, c, p, AcqTest(l))
    ensures Sized(ss[i]) && Sized(ss[i + 1]) && p < |ss[i + 1].pc|
    ensures if l in ss[i].locked
      then ss[i + 1].pc[p] == SleepWant(Sl(l)) && ss[i + 1].locked == ss[i].locked && ss[i + 1].holding == ss[i].holding
      else ss[i + 1].pc[p] == AcqDone(l) && ss[i + 1].locked == ss[i].locked[l := ss[i].pid[p]] && ss[i + 1].holding == ss[i].holding + {(p, l)}
  {
    hide IsRun, Inv, NobodyCommitted, NoZombies;
    RunIs(ss, es, i, c, p, AcqTest(l));
  }

  /** releasesleep() gives it up and starts to wake those who sleep on it. */
  lemma ReleaseGives(ss: seq<State>, es: seq<Event>, i: nat, c: nat, p: nat, l: nat)
    requires IsRun(ss, es) && Makes(ss, es, i, c, p, RelClear(l))
    ensures Sized(ss[i + 1]) && p < |ss[i + 1].pc| && ss[i + 1].pc[p] == Wake(Sl(l), 0, ToRelDone(l))
    ensures (p, l) in ss[i].holding && ss[i + 1].locked == ss[i].locked - {l} && ss[i + 1].holding == ss[i].holding - {(p, l)}
  {
    hide IsRun, Inv, NobodyCommitted, NoZombies;
    RunIs(ss, es, i, c, p, RelClear(l));
  }

  /** wakeup() makes the process it has reached runnable if it sleeps on the channel,
      and touches no other. */
  lemma WakeWakes(ss: seq<State>, es: seq<Event>, i: nat, c: nat, p: nat, ch: Chan, q: nat, k: Cont)
    requires IsRun(ss, es) && Makes(ss, es, i, c, p, Wake(ch, q, k)) && q < |ss[i].pc|
    ensures Sized(ss[i]) && Sized(ss[i + 1]) && p < |ss[i + 1].pc| && OnlyState(ss[i], ss[i + 1], q)
    ensures ss[i + 1].st[q] == if q != p && ss[i].st[q] == SLEEPING && ss[i].chan[q] == Some(ch) then RUNNABLE else ss[i].st[q]
    ensures ss[i + 1].pc[p] == Wake(ch, q + 1, k)
  {
    hide IsRun, Inv, NobodyCommitted, NoZombies;
    RunIs(ss, es, i, c, p, Wake(ch, q, k));
  }

  // ----------------------------------------------- exit(), sleep() and the scheduler

  /** exit() gives each child it meets to init, and meets them all. */
  lemma OrphanGiven(ss: seq<State>, es: seq<Event>, i: nat, c: nat, p: nat, n: nat)
    requires IsRun(ss, es) && Makes(ss, es, i, c, p, ExitScan(n)) && n < |ss[i].pc|
    ensures Sized(ss[i]) && Sized(ss[i + 1]) && p < |ss[i + 1].pc| && ss[i + 1].st == ss[i].st
    ensures if ss[i].parent[n] == Some(p)
            then ss[i + 1].parent == ss[i].parent[n := Some(INIT)] && ss[i + 1].pc[p] == Wake(Wt(INIT), 0, ToExitScan(n + 1))
            else ss[i + 1].parent == ss[i].parent && ss[i + 1].pc[p] == ExitScan(n + 1)
  {
    hide IsRun, Inv;
    RunIs(ss, es, i, c, p, ExitScan(n));
  }

  /** exit() leaves a zombie without children; its parent, which is there, can find it. */
  lemma ExitLeaves(ss: seq<State>, es: seq<Event>, i: nat, c: nat, p: nat)
    requires IsRun(ss, es) && Makes(ss, es, i, c, p, ExitZombie)
    ensures Sized(ss[i]) && Sized(ss[i + 1]) && |ss[i + 1].pc| == |ss[i].pc| && OnlyState(ss[i], ss[i + 1], p)
    ensures ss[i + 1].st[p] == ZOMBIE && ss[i + 1].exited == ss[i].exited + [ss[i].pid[p]] && ss[i].parent[p].Some?
    ensures forall q :: 0 <= q < |ss[i].pc| ==> ss[i].parent[q] != Some(p)
  {
    hide IsRun, Inv, NobodyCommitted, NoZombies;
    RunIs(ss, es, i, c, p, ExitZombie);
  }

  /** sleep() marks the caller as asleep on its channel before it lets go of the CPU. */
  lemma SleepSleeps(ss: seq<State>, es: seq<Event>, i: nat, c: nat, p: nat, ch: Chan)
    requires IsRun(ss, es) && Makes(ss, es, i, c, p, SleepSched(ch))
    ensures Sized(ss[i]) && Sized(ss[i + 1]) && |ss[i + 1].pc| == |ss[i].pc| && c < |ss[i + 1].cpu|
    ensures ss[i].st[p] == SLEEPING && ss[i].chan[p] == Some(ch) && ss[i + 1].st == ss[i].st && OnlyState(ss[i], ss[i + 1], p)
    ensures ss[i + 1].cpu[c] == Back(p) && ss[i + 1].plock[p] == ByCpu(c)
  {
    hide IsRun, LocksOk, WakeOk, Labels, NoLost, Holders, Family, ForksApart, Pids, History, NobodyCommitted, NoZombies;
    RunIs(ss, es, i, c, p, SleepSched(ch));
    assert StateOk(ss[i].st[p], ss[i].chan[p], ss[i].pc[p]);
  }

  /** yield() leaves the caller ready to run. */
  lemma YieldGives(ss: seq<State>, es: seq<Event>, i: nat, c: nat)
    requires IsRun(ss, es) && i < |es| && es[i] == StartYield(c)
    ensures Sized(ss[i]) && Sized(ss[i + 1]) && c < |ss[i].cpu| && ss[i].cpu[c].Runs?
    ensures var p := ss[i].cpu[c].p;
      p < |ss[i].st| && ss[i + 1].st == ss[i].st[p := RUNNABLE] && OnlyState(ss[i], ss[i + 1], p)
  {
    hide IsRun, Inv;
    StepIs(ss, es, i);
  }

  /** The scheduler runs a runnable process on a CPU that had none, where nobody else
      runs it. */
  lemma DispatchRuns(ss: seq<State>, es: seq<Event>, i: nat, c: nat, t: nat)
    requires IsRun(ss, es) && i < |es| && es[i] == Dispatch(c, t)
    ensures Sized(ss[i]) && t < |ss[i].pc| && c < |ss[i].cpu| && ss[i].st[t] == RUNNABLE && ss[i].cpu[c] == Idle
    ensures ss[i + 1].st == ss[i].st[t := RUNNING] && ss[i + 1].cpu == ss[i].cpu[c := Runs(t)] && OnlyState(ss[i], ss[i + 1], t)
    ensures var cpu := ss[i + 1].cpu; forall d :: 0 <= d < |cpu| && cpu[d] == Runs(t) ==> d == c
  {
    hide IsRun, Inv;
    StepIs(ss, es, i);
    RunInv(ss, es, i + 1);
    OneCpu(ss[i + 1], c, t);
  }

  lemma OneCpu(s: State, c: nat, t: nat)
    requires Inv(s) && c < |s.cpu| && s.cpu[c] == Runs(t)
    ensures forall d :: 0 <= d < |s.cpu| && s.cpu[d] == Runs(t) ==> d == c
  {
    hide LocksOk, WakeOk, Labels, NoLost, Holders, Family, ForksApart, Pids, History, StateOk;
  }

  /** A process runs on one CPU at most. */
  lemma RunsOnce(ss: seq<State>, es: seq<Event>, i: nat, c: nat, d: nat)
    requires IsRun(ss, es) && i < |ss| && c < |ss[i].cpu| && d < |ss[i].cpu| && ss[i].cpu[c].Runs? && ss[i].cpu[c] == ss[i].cpu[d]
    ensures c == d
  {
    hide IsRun, Inv;
    RunInv(ss, es, i);
    OneCpu(ss[i], c, ss[i].cpu[c].p);
  }
}
