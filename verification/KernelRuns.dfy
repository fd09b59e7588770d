/** Every step of every run keeps the invariant, and what follows from it. */
module KernelRuns {
  import opened Basics
  import opened SleepWakeup
  import opened Wakeups

  /** The invariant, and process p of CPU c can go on. */
  ghost predicate Turn(s: State, c: nat, p: nat) {
    Inv(s) && Sized(s) && c < |s.cpu| && s.cpu[c] == Runs(p) && p < |s.pc| && Ready(s, p)
  }

  lemma TurnFacts(s: State, c: nat, p: nat)
    requires Turn(s, c, p)
    ensures Acts(s, c, p) && PcOk(s, p) && StateOk(s.st[p], s.chan[p], s.pc[p])
  {
    hide LocksOk, WakeOk, CpusOk, NoLost, Holders, Family, ForksApart, Pids, History;
    CoreAt(s, p);
  }

  lemma TurnSleepWant(s: State, c: nat, p: nat, ch: Chan)
    requires Turn(s, c, p) && s.pc[p] == SleepWant(ch)
    ensures Inv(Run(s, c, p))
  {
    hide Inv, Core, NobodyCommitted;
    TurnFacts(s, c, p);
    StepSleepWant(s, c, p, ch);
    QuietKeeps(s, Run(s, c, p), p);
  }

  lemma TurnSleepHas(s: State, c: nat, p: nat, ch: Chan)
    requires Turn(s, c, p) && s.pc[p] == SleepHas(ch)
    ensures Inv(Run(s, c, p))
  {
    hide Inv, Core, NobodyCommitted;
    TurnFacts(s, c, p);
    StepSleepHas(s, c, p, ch);
    QuietKeeps(s, Run(s, c, p), p);
  }

  lemma TurnSleepSet(s: State, c: nat, p: nat, ch: Chan)
    requires Turn(s, c, p) && s.pc[p] == SleepSet(ch)
    ensures Inv(Run(s, c, p))
  {
    hide Inv, Core, NobodyCommitted;
    TurnFacts(s, c, p);
    StepSleepSet(s, c, p, ch);
    QuietKeeps(s, Run(s, c, p), p);
  }

  lemma TurnSleepSched(s: State, c: nat, p: nat, ch: Chan)
    requires Turn(s, c, p) && s.pc[p] == SleepSched(ch)
    ensures Inv(Run(s, c, p))
  {
    hide Inv, Core, NobodyCommitted;
    TurnFacts(s, c, p);
    StepSleepSched(s, c, p, ch);
    QuietKeeps(s, Run(s, c, p), p);
  }

  lemma TurnSleepBack(s: State, c: nat, p: nat, ch: Chan)
    requires Turn(s, c, p) && s.pc[p] == SleepBack(ch)
    ensures Inv(Run(s, c, p))
  {
    hide Inv, Core, NobodyCommitted;
    TurnFacts(s, c, p);
    StepSleepBack(s, c, p, ch);
    QuietKeeps(s, Run(s, c, p), p);
  }

  lemma TurnSleepDrop(s: State, c: nat, p: nat, ch: Chan)
    requires Turn(s, c, p) && s.pc[p] == SleepDrop(ch)
    ensures Inv(Run(s, c, p))
  {
    hide Inv, Core, NobodyCommitted;
    TurnFacts(s, c, p);
    StepSleepDrop(s, c, p, ch);
    QuietKeeps(s, Run(s, c, p), p);
  }

  lemma TurnSleepAgain(s: State, c: nat, p: nat, ch: Chan)
    requires Turn(s, c, p) && s.pc[p] == SleepAgain(ch)
    ensures Inv(Run(s, c, p))
  {
    hide Inv, Core, NobodyCommitted;
    TurnFacts(s, c, p);
    StepSleepAgain(s, c, p, ch);
    QuietKeeps(s, Run(s, c, p), p);
  }

  lemma TurnAcqWant(s: State, c: nat, p: nat, l: nat)
    requires Turn(s, c, p) && s.pc[p] == AcqWant(l)
    ensures Inv(Run(s, c, p))
  {
    hide Inv, Core, NobodyCommitted;
    TurnFacts(s, c, p);
    StepAcqWant(s, c, p, l);
    QuietKeeps(s, Run(s, c, p), p);
  }

  lemma TurnAcqBusy(s: State, c: nat, p: nat, l: nat)
    requires Turn(s, c, p) && s.pc[p] == AcqTest(l) && l in s.locked
    ensures Inv(Run(s, c, p))
  {
    hide Inv, Core, NobodyCommitted;
    TurnFacts(s, c, p);
    StepAcqTest(s, c, p, l);
    QuietKeeps(s, Run(s, c, p), p);
  }

  lemma TurnAcqDone(s: State, c: nat, p: nat, l: nat)
    requires Turn(s, c, p) && s.pc[p] == AcqDone(l)
    ensures Inv(Run(s, c, p))
  {
    hide Inv, Core, NobodyCommitted;
    TurnFacts(s, c, p);
    StepAcqDone(s, c, p, l);
    QuietKeeps(s, Run(s, c, p), p);
  }

  lemma TurnRelWant(s: State, c: nat, p: nat, l: nat)
    requires Turn(s, c, p) && s.pc[p] == RelWant(l)
    ensures Inv(Run(s, c, p))
  {
    hide Inv, Core, NobodyCommitted;
    TurnFacts(s, c, p);
    StepRelWant(s, c, p, l);
    QuietKeeps(s, Run(s, c, p), p);
  }

  lemma TurnRelDone(s: State, c: nat, p: nat, l: nat)
    requires Turn(s, c, p) && s.pc[p] == RelDone(l)
    ensures Inv(Run(s, c, p))
  {
    hide Inv, Core, NobodyCommitted;
    TurnFacts(s, c, p);
    StepRelDone(s, c, p, l);
    QuietKeeps(s, Run(s, c, p), p);
  }

  lemma TurnYieldSched(s: State, c: nat, p: nat)
    requires Turn(s, c, p) && s.pc[p] == YieldSched
    ensures Inv(Run(s, c, p))
  {
    hide Inv, Core, NobodyCommitted;
    TurnFacts(s, c, p);
    StepYieldSched(s, c, p);
    QuietKeeps(s, Run(s, c, p), p);
  }

  lemma TurnYieldBack(s: State, c: nat, p: nat)
    requires Turn(s, c, p) && s.pc[p] == YieldBack
    ensures Inv(Run(s, c, p))
  {
    hide Inv, Core, NobodyCommitted;
    TurnFacts(s, c, p);
    StepYieldBack(s, c, p);
    QuietKeeps(s, Run(s, c, p), p);
  }

  lemma TurnExitWant(s: State, c: nat, p: nat)
    requires Turn(s, c, p) && s.pc[p] == ExitWant
    ensures Inv(Run(s, c, p))
  {
    hide Inv, Core, NobodyCommitted;
    TurnFacts(s, c, p);
    StepExitWant(s, c, p);
    QuietKeeps(s, Run(s, c, p), p);
  }

  lemma TurnExitSkip(s: State, c: nat, p: nat, i: nat)
    requires Turn(s, c, p) && s.pc[p] == ExitScan(i) && (i >= |s.pc| || s.parent[i] != Some(p))
    ensures Inv(Run(s, c, p))
  {
    hide Inv, Core, NobodyCommitted;
    TurnFacts(s, c, p);
    StepExitScan(s, c, p, i);
    QuietKeeps(s, Run(s, c, p), p);
  }

  lemma TurnExitWake(s: State, c: nat, p: nat)
    requires Turn(s, c, p) && s.pc[p] == ExitWake
    ensures Inv(Run(s, c, p))
  {
    hide Inv, Core, NobodyCommitted;
    TurnFacts(s, c, p);
    StepExitWake(s, c, p);
    QuietKeeps(s, Run(s, c, p), p);
  }

  lemma TurnExitOwn(s: State, c: nat, p: nat)
    requires Turn(s, c, p) && s.pc[p] == ExitOwn
    ensures Inv(Run(s, c, p))
  {
    hide Inv, Core, NobodyCommitted;
    TurnFacts(s, c, p);
    StepExitOwn(s, c, p);
    NobodyElse(s, Run(s, c, p), p, Wt(s.parent[p].value));
    QuietKeeps(s, Run(s, c, p), p);
  }

  lemma TurnExitRel(s: State, c: nat, p: nat)
    requires Turn(s, c, p) && s.pc[p] == ExitRel
    ensures Inv(Run(s, c, p))
  {
    hide Inv, Core, NobodyCommitted;
    TurnFacts(s, c, p);
    StepExitRel(s, c, p);
    QuietKeeps(s, Run(s, c, p), p);
  }

  lemma TurnExitSched(s: State, c: nat, p: nat)
    requires Turn(s, c, p) && s.pc[p] == ExitSched
    ensures Inv(Run(s, c, p))
  {
    hide Inv, Core, NobodyCommitted;
    TurnFacts(s, c, p);
    StepExitSched(s, c, p);
    QuietKeeps(s, Run(s, c, p), p);
  }

  lemma TurnWaitWant(s: State, c: nat, p: nat)
    requires Turn(s, c, p) && s.pc[p] == WaitWant
    ensures Inv(Run(s, c, p))
  {
    hide Inv, Core, NobodyCommitted;
    TurnFacts(s, c, p);
    StepWaitWant(s, c, p);
    QuietKeeps(s, Run(s, c, p), p);
  }

  lemma TurnWaitEnd(s: State, c: nat, p: nat, i: nat, kids: bool)
    requires Turn(s, c, p) && s.pc[p] == WaitScan(i, kids) && i >= |s.pc|
    ensures Inv(Run(s, c, p))
  {
    hide Inv, Core, NobodyCommitted;
    TurnFacts(s, c, p);
    StepWaitEnd(s, c, p, i, kids);
    QuietKeeps(s, Run(s, c, p), p);
  }

  lemma TurnWaitSkip(s: State, c: nat, p: nat, i: nat, kids: bool)
    requires Turn(s, c, p) && s.pc[p] == WaitScan(i, kids) && i < |s.pc| && !(s.parent[i] == Some(p) && s.st[i] == ZOMBIE)
    ensures Inv(Run(s, c, p))
  {
    hide Inv, Core, NobodyCommitted, Freed, LockOf, AfterSleep, AfterWake, Woken, Switch;
    TurnFacts(s, c, p);
    StepWaitScan(s, c, p, i, kids);
    QuietKeeps(s, Run(s, c, p), p);
  }

  lemma NobodyElse(s: State, s': State, p: nat, ch: Chan)
    requires OnlyProc(s, s', p) && NobodyCommitted(s, ch) && Bound(s'.st[p], s'.pc[p]) == None
    ensures NobodyCommitted(s', ch)
  {
    hide Bound;
    forall q | 0 <= q < |s'.pc|
      ensures !Committed(s', q, ch)
    {
      assert !Committed(s, q, ch);
    }
  }

  /** acquiresleep() finds the lock free. */
  lemma TurnAcqFree(s: State, c: nat, p: nat, l: nat)
    requires Turn(s, c, p) && s.pc[p] == AcqTest(l) && l !in s.locked
    ensures Inv(Run(s, c, p))
  {
    hide Inv, Core, NobodyCommitted;
    TurnFacts(s, c, p);
    StepAcqTest(s, c, p, l);
    var s1 := s.(locked := s.locked[l := s.pid[p]], holding := s.holding + {(p, l)});
    LockTaken(s, s1, p, l);
    QuietKeeps(s1, Run(s, c, p), p);
  }

  /** releasesleep() clears the lock and calls wakeup(). */
  lemma TurnRelClear(s: State, c: nat, p: nat, l: nat)
    requires Turn(s, c, p) && s.pc[p] == RelClear(l)
    ensures Inv(Run(s, c, p))
  {
    hide Inv, Core, NobodyCommitted, Plain;
    TurnFacts(s, c, p);
    PlainRel(l);
    PlainWake(Sl(l), 0, ToRelDone(l));
    var s1 := At(s, p, Wake(Sl(l), 0, ToRelDone(l)));
    PlainMove(s, s1, p, Some(Inner(l)));
    QuietKeeps(s, s1, p);
    LockDropped(s1, Run(s, c, p), p, l);
  }

  lemma TurnForkParent(s: State, c: nat, p: nat, t: nat)
    requires Turn(s, c, p) && s.pc[p] == ForkParent(t)
    ensures Inv(Run(s, c, p))
  {
    hide Inv, Core, NobodyCommitted;
    TurnFacts(s, c, p);
    StepForkParent(s, c, p, t);
    var s1 := s.(parent := s.parent[t := Some(p)]);
    ParentSet(s, s1, p, t);
    QuietKeeps(s1, Run(s, c, p), p);
  }

  lemma TurnForkRun(s: State, c: nat, p: nat, t: nat)
    requires Turn(s, c, p) && s.pc[p] == ForkRun(t)
    ensures Inv(Run(s, c, p))
  {
    hide Inv, Core, NobodyCommitted, Plain;
    TurnFacts(s, c, p);
    ChildReady(s, p, t);
    PlainFork(t);
    PlainUser();
    var s1 := At(s, p, User);
    PlainMove(s, s1, p, None);
    QuietKeeps(s, s1, p);
    StepForkRun(s, c, p, t);
    assert Run(s, c, p).pc == s1.pc[t := YieldOff];
    ChildStarts(s1, Run(s, c, p), t);
  }

  lemma ChildReady(s: State, p: nat, t: nat)
    requires Inv(s) && p < |s.pc| && s.pc[p] == ForkRun(t)
    ensures t < |s.pc| && s.st[t] == USED && s.pc[t] == NoThread && t != p && s.parent[t] == Some(p) && Untargeted(At(s, p, User), Some(t))
  {
    hide LocksOk, CpusOk, WakeOk, NoLost, Holders, Family, Pids, History;
    assert PcOk(s, p);
    CoreAt(s, t);
    CoreAt(s, p);
    assert forall q :: 0 <= q < |s.pc| && q != p ==> ForkTarget(s.pc[p]) != ForkTarget(s.pc[q]);
  }

  /** exit() passes a child to init and calls wakeup(). */
  lemma TurnExitChild(s: State, c: nat, p: nat, i: nat)
    requires Turn(s, c, p) && s.pc[p] == ExitScan(i) && i < |s.pc| && s.parent[i] == Some(p)
    ensures Inv(Run(s, c, p))
  {
    hide Inv, Core, PcOk;
    TurnFacts(s, c, p);
    var s1 := At(s, p, Wake(Wt(INIT), 0, ToExitScan(i)));
    ScanToWake(s, p, i);
    var s2 := s1.(parent := s1.parent[i := Some(INIT)]);
    Reparented(s1, s2, p, i);
    StepExitScan(s, c, p, i);
    assert Run(s, c, p).pc == s2.pc[p := Wake(Wt(INIT), 0, ToExitScan(i + 1))];
    ChildPassed(s2, Run(s, c, p), p, i);
  }

  lemma ScanToWake(s: State, p: nat, i: nat)
    requires Inv(s) && Sized(s) && Core(s) && p < |s.pc| && s.pc[p] == ExitScan(i) && PcOk(s, p)
    ensures Inv(At(s, p, Wake(Wt(INIT), 0, ToExitScan(i))))
  {
    hide Inv, Core, NobodyCommitted, Plain;
    PlainExit(i);
    PlainWake(Wt(INIT), 0, ToExitScan(i));
    var s1 := At(s, p, Wake(Wt(INIT), 0, ToExitScan(i)));
    PlainMove(s, s1, p, Some(WaitLock));
    QuietKeeps(s, s1, p);
  }

  lemma ChildPassed(s: State, s': State, p: nat, i: nat)
    requires Inv(s) && Sized(s) && p < |s.pc| && s.pc[p] == Wake(Wt(INIT), 0, ToExitScan(i)) && i < |s.pc| && s.parent[i] == Some(INIT)
    requires s' == At(s, p, Wake(Wt(INIT), 0, ToExitScan(i + 1))) && Core(s')
    ensures Inv(s')
  {
    hide Inv, Core, NobodyCommitted;
    ScanStill(s, p);
    QuietKeeps(s, s', p);
  }

  lemma TurnExitZombie(s: State, c: nat, p: nat)
    requires Turn(s, c, p) && s.pc[p] == ExitZombie
    ensures Inv(Run(s, c, p))
  {
    hide Inv, Core, NobodyCommitted;
    TurnFacts(s, c, p);
    StepExitZombie(s, c, p);
    Exited(s, Run(s, c, p), p);
  }

  /** wait() frees a child and returns its pid. */
  lemma TurnReap(s: State, c: nat, p: nat, i: nat, kids: bool)
    requires Turn(s, c, p) && s.pc[p] == WaitScan(i, kids) && i < |s.pc| && s.parent[i] == Some(p) && s.st[i] == ZOMBIE
    ensures Inv(Run(s, c, p))
  {
    hide Inv, Core, NobodyCommitted;
    TurnFacts(s, c, p);
    StepReap(s, c, p, i, kids);
    ReapInv(s, c, p, i, kids);
    var s1 := Freed(s, i).(reaped := s.reaped + [s.pid[i]]);
    QuietKeeps(s1, Run(s, c, p), p);
  }

  lemma ReapInv(s: State, c: nat, p: nat, i: nat, kids: bool)
    requires Turn(s, c, p) && s.pc[p] == WaitScan(i, kids) && i < |s.pc| && s.parent[i] == Some(p) && s.st[i] == ZOMBIE
    ensures var s1 := Freed(s, i).(reaped := s.reaped + [s.pid[i]]); Inv(s1) && Sized(s1) && p < |s1.pc| && PcOk(s1, p)
  {
    hide Inv, Core, NobodyCommitted;
    TurnFacts(s, c, p);
    FreeChild(s, i);
    DeadNotInit(s, i);
    CoreReaped(Freed(s, i), Freed(s, i).(reaped := s.reaped + [s.pid[i]]));
    Reaped(s, Freed(s, i).(reaped := s.reaped + [s.pid[i]]), i);
    ScanStill(Freed(s, i).(reaped := s.reaped + [s.pid[i]]), p);
  }

  lemma ScanStill(s: State, p: nat)
    requires Inv(s) && p < |s.pc|
    ensures PcOk(s, p)
  {
    hide Core, NoLost, Holders, Family, ForksApart, Pids, History, PcOk;
  }

  lemma DeadNotInit(s: State, i: nat)
    requires Inv(s) && i < |s.pc| && s.pc[i] == Dead
    ensures i != INIT
  {
    hide Core, NoLost, Holders, Family, ForksApart, Pids, History;
    assert PcOk(s, i);
  }

  lemma CoreReaped(s: State, s': State)
    requires Core(s) && Sized(s') && s'.st == s.st && s'.chan == s.chan && s'.pc == s.pc && s'.plock == s.plock
    requires s'.cpu == s.cpu && s'.lk == s.lk
    ensures Core(s')
  {
    hide LocksOk, CpusOk, WakeOk;
    CoreData(s, s');
  }

  /** wakeup() is done: it has left nobody behind. */
  lemma TurnWakeEnd(s: State, c: nat, p: nat, ch: Chan, i: nat, k: Cont)
    requires Turn(s, c, p) && s.pc[p] == Wake(ch, i, k) && i >= |s.pc|
    ensures Inv(Run(s, c, p))
  {
    hide Inv, Core, NobodyCommitted;
    TurnFacts(s, c, p);
    NobodyBehind(s, p, ch, i, k);
    StepWake(s, c, p, ch, i, k);
    var s' := Run(s, c, p);
    NobodyElse(s, s', p, ch);
    AfterWakeLabel(s, s', p, ch, i, k);
    NobodyIs(s', ch);
    QuietKeeps(s, s', p);
  }

  lemma NobodyIs(s: State, ch: Chan)
    requires Sized(s) && NobodyCommitted(s, ch)
    ensures forall q :: 0 <= q < |s.pc| ==> !Committed(s, q, ch)
  {
  }

  lemma NobodyBehind(s: State, p: nat, ch: Chan, i: nat, k: Cont)
    requires Core(s) && Sized(s) && p < |s.pc| && s.pc[p] == Wake(ch, i, k) && i >= |s.pc|
    ensures NobodyCommitted(s, ch)
  {
    hide LocksOk, CpusOk, WakeOk, Bound;
    CoreAt(s, p);
  }

  lemma AfterWakeLabel(s: State, s': State, p: nat, ch: Chan, i: nat, k: Cont)
    requires Sized(s) && p < |s.pc| && s.pc[p] == Wake(ch, i, k) && PcOk(s, p) && s' == At(s, p, AfterWake(k)) && NobodyCommitted(s', ch)
    ensures PcOk(s', p)
  {
    hide NobodyCommitted;
  }

  lemma TurnWakeSelf(s: State, c: nat, p: nat, ch: Chan, i: nat, k: Cont)
    requires Turn(s, c, p) && s.pc[p] == Wake(ch, i, k) && i == p
    ensures Inv(Run(s, c, p))
  {
    hide Inv, Core, NobodyCommitted;
    TurnFacts(s, c, p);
    StepWake(s, c, p, ch, i, k);
    Advance(s, p, ch, i, k);
  }

  /** The waker steps past i, who is not committed. */
  lemma Advance(s: State, p: nat, ch: Chan, i: nat, k: Cont)
    requires Inv(s) && Sized(s) && p < |s.pc| && s.pc[p] == Wake(ch, i, k) && i < |s.pc| && !Committed(s, i, ch)
    requires Core(At(s, p, Wake(ch, i + 1, k)))
    ensures Inv(At(s, p, Wake(ch, i + 1, k)))
  {
    hide Inv, Core, NobodyCommitted;
    var s' := At(s, p, Wake(ch, i + 1, k));
    BehindOnly(s, p);
    forall r | 0 <= r < |s.pc| && Committed(s', r, ch)
      ensures i + 1 <= r
    {
      assert r != p ==> Committed(s, r, ch);
    }
    ScanStill(s, p);
    QuietKeeps(s, s', p);
  }

  lemma BehindOnly(s: State, p: nat)
    requires Inv(s) && p < |s.pc| && s.pc[p].Wake?
    ensures forall r :: 0 <= r < |s.pc| && r < s.pc[p].i ==> !Committed(s, r, s.pc[p].ch)
  {
    hide LocksOk, CpusOk, WakeOk, Bound, NoLost, Holders, Family, ForksApart, Pids, History, Labels;
    CoreAt(s, p);
  }

  lemma TurnWakeOther(s: State, c: nat, p: nat, ch: Chan, i: nat, k: Cont)
    requires Turn(s, c, p) && s.pc[p] == Wake(ch, i, k) && i < |s.pc| && i != p
    ensures Inv(Run(s, c, p))
  {
    hide Inv, Core, NobodyCommitted, Bound;
    TurnFacts(s, c, p);
    StepWake(s, c, p, ch, i, k);
    var s1 := Woken(s, i, ch);
    if s.st[i] == SLEEPING && s.chan[i] == Some(ch) {
      MadeRunnable(s, s1, i);
    }
    NotCommitted(s, s1, i, ch);
    Advance(s1, p, ch, i, k);
  }

  /** A sleeper becomes runnable. */
  lemma MadeRunnable(s: State, s': State, i: nat)
    requires Inv(s) && Sized(s) && i < |s.pc| && s.plock[i] == Open && s.st[i] == SLEEPING
    requires Sized(s') && s'.st == s.st[i := RUNNABLE] && s'.chan == s.chan && s'.pc == s.pc && s'.plock == s.plock
    requires s'.cpu == s.cpu && s'.lk == s.lk && SameData(s, s')
    ensures Inv(s')
  {
    hide Inv, Core, NobodyCommitted;
    InvCore(s);
    CoreWoken(s, s', i);
    ScanStill(s, i);
    QuietKeeps(s, s', i);
  }

  lemma InvCore(s: State)
    requires Inv(s)
    ensures Core(s) && Sized(s)
  {
    hide LocksOk, CpusOk, WakeOk, NoLost, Holders, Family, ForksApart, Pids, History;
  }

  lemma NotCommitted(s: State, s1: State, i: nat, ch: Chan)
    requires Inv(s) && Sized(s) && i < |s.pc| && s.plock[i] == Open && s1 == Woken(s, i, ch)
    ensures !Committed(s1, i, ch)
  {
    hide LocksOk, CpusOk, WakeOk, NoLost, Holders, Family, ForksApart, Pids, History, Labels;
    CoreAt(s, i);
  }

  // --------------------------------------------------------------- other events

  lemma InvDispatch(s: State, c: nat, t: nat)
    requires Inv(s) && Sized(s) && Can(s, Dispatch(c, t))
    ensures Inv(Do(s, Dispatch(c, t)))
  {
    hide Inv, Core, NobodyCommitted;
    InvCore(s);
    EventDispatch(s, c, t);
    ScanStill(s, t);
    QuietKeeps(s, Do(s, Dispatch(c, t)), t);
  }

  lemma InvDropBack(s: State, c: nat)
    requires Inv(s) && Sized(s) && Can(s, DropBack(c))
    ensures Inv(Do(s, DropBack(c)))
  {
    hide Inv, Core, NobodyCommitted, PcOk;
    InvCore(s);
    EventDropBack(s, c);
    BackOff(s, c);
    var s' := Do(s, DropBack(c));
    ScanStill(s, s.cpu[c].p);
    OffLabel(s, s', s.cpu[c].p);
    QuietKeeps(s, s', s.cpu[c].p);
  }

  lemma BackOff(s: State, c: nat)
    requires Inv(s) && c < |s.cpu| && s.cpu[c].Back? && s.cpu[c].p < |s.pc|
    ensures Off(s.pc[s.cpu[c].p])
  {
    hide CpusOk, WakeOk, NoLost, Holders, Family, ForksApart, Pids, History, Labels;
  }

  lemma OffLabel(s: State, s': State, p: nat)
    requires Sized(s) && Sized(s') && p < |s.pc| && s'.pc == s.pc && s'.parent == s.parent && Off(s.pc[p]) && PcOk(s, p)
    ensures PcOk(s', p)
  {
    hide NobodyCommitted;
  }

  /** Starting something is quiet. */
  lemma InvStart(s: State, c: nat, pc: Pc)
    requires Inv(s) && Sized(s) && IsRunning(s, c) && s.pc[s.cpu[c].p] == User
    requires pc.AcqWant? || pc.RelWant? || pc == WaitWant || pc == ExitWant
    requires pc.RelWant? ==> (s.cpu[c].p, pc.lock) in s.holding
    requires pc == ExitWant ==> s.cpu[c].p != INIT && forall l :: (s.cpu[c].p, l) !in s.holding
    ensures Inv(At(s, s.cpu[c].p, pc))
  {
    hide Inv, Core, NobodyCommitted;
    InvCore(s);
    EventStart(s, c, pc);
    QuietKeeps(s, At(s, s.cpu[c].p, pc), s.cpu[c].p);
  }

  lemma InvYield(s: State, c: nat)
    requires Inv(s) && Sized(s) && Can(s, StartYield(c))
    ensures Inv(Do(s, StartYield(c)))
  {
    hide Inv, Core, NobodyCommitted;
    InvCore(s);
    EventYield(s, c);
    CoreAt(s, s.cpu[c].p);
    QuietKeeps(s, Do(s, StartYield(c)), s.cpu[c].p);
  }

  lemma InvKill(s: State, c: nat, t: nat)
    requires Inv(s) && Sized(s) && Can(s, Kill(c, t))
    ensures Inv(Do(s, Kill(c, t)))
  {
    hide Inv, Core, NobodyCommitted, PcOk;
    InvCore(s);
    var s1 := s.(killed := s.killed[t := true]);
    KilledOnly(s, s1);
    if s.st[t] == SLEEPING {
      MadeRunnable(s1, Do(s, Kill(c, t)), t);
    }
  }

  lemma KilledOnly(s: State, s': State)
    requires Inv(s) && SamePlaces(s, s') && SameData(s, s')
    ensures Inv(s')
  {
    hide Core, Labels, NoLost, Holders, Family, ForksApart, Pids, History;
    SameCore(s, s');
    SameFamily(s, s');
    SameHolders(s, s');
    LockTakenLabels(s, s');
    LockTakenNoLost(s, s');
    SamePids(s, s');
  }

  lemma InvFork(s: State, c: nat, t: nat)
    requires Inv(s) && Sized(s) && Can(s, Fork(c, t))
    ensures Inv(Do(s, Fork(c, t)))
  {
    hide Inv, Core, NobodyCommitted;
    InvCore(s);
    var p := s.cpu[c].p;
    CoreAt(s, p);
    CoreAt(s, t);
    UseSlot(s, t);
    var s1 := SetState(s, t, USED).(pid := s.pid[t := s.nextpid], nextpid := s.nextpid + 1);
    NoParent(s, t);
    SlotUsed(s, s1, t);
    EventFork(s, c, t);
    QuietKeeps(s1, Do(s, Fork(c, t)), p);
  }

  lemma NoParent(s: State, t: nat)
    requires Inv(s) && t < |s.pc| && s.st[t] == UNUSED
    ensures Sized(s) && s.parent[t] == None
  {
    hide Core, NoLost, Holders, Labels, ForksApart, Pids, History;
  }

  lemma InvWaitFail(s: State, c: nat)
    requires Inv(s) && Sized(s) && Can(s, WaitFail(c))
    ensures Inv(Do(s, WaitFail(c)))
  {
    hide Inv, Core, NobodyCommitted;
    InvCore(s);
    EventWaitFail(s, c);
    QuietKeeps(s, Do(s, WaitFail(c)), s.cpu[c].p);
  }

  // ------------------------------------------------------------------ all runs

  lemma TurnInv(s: State, c: nat, p: nat)
    requires Turn(s, c, p)
    ensures Inv(Run(s, c, p))
  {
    hide Inv, Run;
    match s.pc[p] {
      case SleepWant(ch) => TurnSleepWant(s, c, p, ch);
      case SleepHas(ch) => TurnSleepHas(s, c, p, ch);
      case SleepSet(ch) => TurnSleepSet(s, c, p, ch);
      case SleepSched(ch) => TurnSleepSched(s, c, p, ch);
      case SleepBack(ch) => TurnSleepBack(s, c, p, ch);
      case SleepDrop(ch) => TurnSleepDrop(s, c, p, ch);
      case SleepAgain(ch) => TurnSleepAgain(s, c, p, ch);
      case Wake(ch, i, k) => TurnWake(s, c, p, ch, i, k);
      case AcqWant(l) => TurnAcqWant(s, c, p, l);
      case AcqTest(l) => if l in s.locked { TurnAcqBusy(s, c, p, l); } else { TurnAcqFree(s, c, p, l); }
      case AcqDone(l) => TurnAcqDone(s, c, p, l);
      case RelWant(l) => TurnRelWant(s, c, p, l);
      case RelClear(l) => TurnRelClear(s, c, p, l);
      case RelDone(l) => TurnRelDone(s, c, p, l);
      case YieldSched => TurnYieldSched(s, c, p);
      case YieldBack => TurnYieldBack(s, c, p);
      case ForkParent(t) => TurnForkParent(s, c, p, t);
      case ForkRun(t) => TurnForkRun(s, c, p, t);
      case ExitWant => TurnExitWant(s, c, p);
      case ExitScan(i) => if i < |s.pc| && s.parent[i] == Some(p) { TurnExitChild(s, c, p, i); } else { TurnExitSkip(s, c, p, i); }
      case ExitWake => TurnExitWake(s, c, p);
      case ExitOwn => TurnExitOwn(s, c, p);
      case ExitZombie => TurnExitZombie(s, c, p);
      case ExitRel => TurnExitRel(s, c, p);
      case ExitSched => TurnExitSched(s, c, p);
      case WaitWant => TurnWaitWant(s, c, p);
      case WaitScan(i, kids) => TurnWait(s, c, p, i, kids);
      case _ =>
    }
  }

  lemma TurnWake(s: State, c: nat, p: nat, ch: Chan, i: nat, k: Cont)
    requires Turn(s, c, p) && s.pc[p] == Wake(ch, i, k)
    ensures Inv(Run(s, c, p))
  {
    hide Inv, Run;
    if i >= |s.pc| {
      TurnWakeEnd(s, c, p, ch, i, k);
    } else if i == p {
      TurnWakeSelf(s, c, p, ch, i, k);
    } else {
      TurnWakeOther(s, c, p, ch, i, k);
    }
  }

  lemma TurnWait(s: State, c: nat, p: nat, i: nat, kids: bool)
    requires Turn(s, c, p) && s.pc[p] == WaitScan(i, kids)
    ensures Inv(Run(s, c, p))
  {
    hide Inv, Run;
    if i >= |s.pc| {
      TurnWaitEnd(s, c, p, i, kids);
    } else if s.parent[i] == Some(p) && s.st[i] == ZOMBIE {
      TurnReap(s, c, p, i, kids);
    } else {
      TurnWaitSkip(s, c, p, i, kids);
    }
  }

  /** Every step keeps the invariant. */
  lemma StepInv(s: State, e: Event)
    requires Inv(s) && Sized(s) && Can(s, e)
    ensures Inv(Do(s, e))
  {
    hide Inv, Run, Ready;
    match e {
      case Dispatch(c, t) => InvDispatch(s, c, t);
      case DropBack(c) => InvDropBack(s, c);
      case StartAcquire(c, l) => InvStart(s, c, AcqWant(l));
      case StartRelease(c, l) => InvStart(s, c, RelWant(l));
      case StartYield(c) => InvYield(s, c);
      case StartWait(c) => InvStart(s, c, WaitWant);
      case StartExit(c) => InvStart(s, c, ExitWant);
      case Kill(c, t) => InvKill(s, c, t);
      case Fork(c, t) => InvFork(s, c, t);
      case ForkFail(c) => PidSkipped(s);
      case WaitFail(c) => InvWaitFail(s, c);
      case Continue(c) => TurnInv(s, c, s.cpu[c].p);
    }
  }

  /** After userinit(): init can run, and all other slots are free. */
  ghost predicate Initial(s: State) {
    && Sized(s) && INIT < |s.pc|
    && s.st[INIT] == RUNNABLE && s.pc[INIT] == YieldOff && s.pid[INIT] == 1 && s.nextpid == 2
    && (forall p :: 0 <= p < |s.pc| && p != INIT ==> s.st[p] == UNUSED && s.pc[p] == NoThread)
    && (forall p :: 0 <= p < |s.pc| ==> s.plock[p] == Open && s.parent[p] == None)
    && (forall c :: 0 <= c < |s.cpu| ==> s.cpu[c] == Idle)
    && s.lk == map[] && s.locked == map[] && s.holding == {} && s.exited == [] && s.reaped == []
  }

  lemma InitialInv(s: State)
    requires Initial(s)
    ensures Inv(s)
  {
    InitialCore(s);
    hide Core;
  }

  lemma InitialCore(s: State)
    requires Initial(s)
    ensures Core(s)
  {
  }

  /** es leads from ss[0] through all of ss. */
  ghost predicate IsRun(ss: seq<State>, es: seq<Event>) {
    && |ss| == |es| + 1 && Initial(ss[0])
    && forall i {:trigger es[i]} :: 0 <= i < |es| ==> Sized(ss[i]) && Can(ss[i], es[i]) && ss[i + 1] == Do(ss[i], es[i])
  }

  lemma {:induction false} RunInv(ss: seq<State>, es: seq<Event>, i: nat)
    requires IsRun(ss, es) && i < |ss|
    ensures Inv(ss[i])
  {
    hide Inv, Initial, Can, Do;
    if i == 0 {
      InitialInv(ss[0]);
    } else {
      RunInv(ss, es, i - 1);
      assert es[i - 1] == es[i - 1];
      StepInv(ss[i - 1], es[i - 1]);
    }
  }

  // ----------------------------------------------------------------- what it means

  /** No lost wakeup, for a sleep-lock: when its spinlock is free, whoever sleeps on
      it has reason to. */
  lemma SleepersHaveReason(ss: seq<State>, es: seq<Event>, i: nat, p: nat, l: nat)
    requires IsRun(ss, es) && i < |ss| && p < |ss[i].pc| && p < |ss[i].st| && p < |ss[i].chan|
    requires ss[i].st[p] == SLEEPING && ss[i].chan[p] == Some(Sl(l)) && Inner(l) !in ss[i].lk
    ensures l in ss[i].locked
  {
    hide IsRun, Inv;
    RunInv(ss, es, i);
    InvCore(ss[i]);
    SleeperReason(ss[i], p, Sl(l));
  }

  lemma SleeperReason(s: State, p: nat, ch: Chan)
    requires Inv(s) && Sized(s) && p < |s.pc| && s.st[p] == SLEEPING && s.chan[p] == Some(ch) && LockOf(ch) !in s.lk
    ensures Cond(s, ch)
  {
    hide Core, Labels, Holders, Family, ForksApart, Pids, History, Bound;
    SleeperBound(s, p);
    assert Committed(s, p, ch);
  }

  lemma SleeperBound(s: State, p: nat)
    requires Inv(s) && Sized(s) && p < |s.pc| && s.st[p] == SLEEPING
    ensures Bound(s.st[p], s.pc[p]) == s.chan[p]
  {
    hide LocksOk, WakeOk, Labels, NoLost, Holders, Family, ForksApart, Pids, History;
    assert StateOk(s.st[p], s.chan[p], s.pc[p]);
  }

  /** A sleep-lock has one holder, and has one exactly when it is locked. */
  lemma OneHolder(ss: seq<State>, es: seq<Event>, i: nat, l: nat)
    requires IsRun(ss, es) && i < |ss|
    ensures forall p, q :: (p, l) in ss[i].holding && (q, l) in ss[i].holding ==> p == q
    ensures l in ss[i].locked <==> exists p :: (p, l) in ss[i].holding
  {
    hide Core, Labels, NoLost, Family, ForksApart, Pids, History, IsRun, Staying;
    RunInv(ss, es, i);
  }

  /** holdingsleep() gives the right answer to every process. */
  lemma HoldingSleep(ss: seq<State>, es: seq<Event>, i: nat, p: nat, l: nat)
    requires IsRun(ss, es) && i < |ss| && Sized(ss[i]) && p < |ss[i].pc| && ss[i].st[p] != UNUSED
    ensures (l in ss[i].locked && ss[i].locked[l] == ss[i].pid[p]) <==> (p, l) in ss[i].holding
  {
    hide IsRun, Inv;
    RunInv(ss, es, i);
    HoldingIs(ss[i], p, l);
  }

  lemma HoldingIs(s: State, p: nat, l: nat)
    requires Inv(s) && Sized(s) && p < |s.pc| && s.st[p] != UNUSED
    ensures (l in s.locked && s.locked[l] == s.pid[p]) <==> (p, l) in s.holding
  {
    hide LocksOk, WakeOk, Labels, NoLost, Family, ForksApart, History;
    if l in s.locked && s.locked[l] == s.pid[p] {
      var q :| (q, l) in s.holding;
      assert StateOk(s.st[q], s.chan[q], s.pc[q]);
    }
  }

  /** The process tree: parents are alive and zombies have parents. */
  lemma ParentsAlive(ss: seq<State>, es: seq<Event>, i: nat, q: nat)
    requires IsRun(ss, es) && i < |ss| && Sized(ss[i]) && q < |ss[i].pc|
    ensures ss[i].parent[q].Some? ==> ss[i].parent[q].value < |ss[i].pc| && Going(ss[i].st[ss[i].parent[q].value])
    ensures ss[i].st[q] == ZOMBIE ==> ss[i].parent[q].Some?
  {
    hide IsRun, Inv;
    RunInv(ss, es, i);
    ParentAlive(ss[i], q);
  }

  lemma ParentAlive(s: State, q: nat)
    requires Inv(s) && Sized(s) && q < |s.pc|
    ensures s.parent[q].Some? ==> s.parent[q].value < |s.pc| && Going(s.st[s.parent[q].value])
    ensures s.st[q] == ZOMBIE ==> s.parent[q].Some?
  {
    hide LocksOk, WakeOk, NoLost, Holders, ForksApart, Pids, History, NobodyCommitted;
    assert StateOk(s.st[q], s.chan[q], s.pc[q]) && PcOk(s, q);
    if s.parent[q].Some? {
      var r := s.parent[q].value;
      assert StateOk(s.st[r], s.chan[r], s.pc[r]) && PcOk(s, r);
    }
  }

  /** No lost wakeup, for wait(): when wait_lock is free, no process sleeps in
      wait() that has an exited child. */
  lemma WaitersHaveReason(ss: seq<State>, es: seq<Event>, i: nat, p: nat, q: nat)
    requires IsRun(ss, es) && i < |ss| && Sized(ss[i]) && p < |ss[i].pc| && q < |ss[i].pc| && WaitLock !in ss[i].lk
    requires ss[i].st[p] == SLEEPING && ss[i].chan[p] == Some(Wt(p)) && ss[i].parent[q] == Some(p)
    ensures ss[i].st[q] != ZOMBIE
  {
    hide IsRun, Inv;
    RunInv(ss, es, i);
    SleeperReason(ss[i], p, Wt(p));
  }

  /** Each process that exits is returned by at most one wait(), and until then it
      is a zombie. */
  lemma ReapedOnce(ss: seq<State>, es: seq<Event>, i: nat)
    requires IsRun(ss, es) && i < |ss| && Sized(ss[i])
    ensures Distinct(ss[i].exited) && Distinct(ss[i].reaped)
    ensures forall x :: x in ss[i].reaped ==> x in ss[i].exited
    ensures forall x :: x in ss[i].exited ==>
      (x !in ss[i].reaped <==> exists p :: 0 <= p < |ss[i].pc| && ss[i].st[p] == ZOMBIE && ss[i].pid[p] == x)
  {
    hide Core, Labels, NoLost, Holders, Family, ForksApart, Pids, IsRun;
    RunInv(ss, es, i);
  }
}
