/** From a call to its return: whatever else happens in between, on any CPU, a call that
    comes back has done what it is for, and exit() does not come back. */
module KernelCalls {
  import opened Basics
  import opened SleepWakeup
  import opened Wakeups
  import opened KernelRuns
  import opened KernelAnswers

  datatype Call = Acquire(lock: nat) | Release(lock: nat) | Waiting | Forking(child: nat) | Yielding | Exiting

  /** The call that a step begins. */
  function Begun(e: Event): Option<Call> {
    match e
    case StartAcquire(_, l) => Some(Acquire(l))
    case StartRelease(_, l) => Some(Release(l))
    case StartYield(_) => Some(Yielding)
    case StartWait(_) => Some(Waiting)
    case StartExit(_) => Some(Exiting)
    case Fork(_, t) => Some(Forking(t))
    case _ => None
  }

  /** What has become of the call when p is back in user code. */
  ghost predicate Returned(s: State, s': State, p: nat, k: Call)
    requires Sized(s) && Sized(s') && p < |s.pc| == |s'.pc|
  {
    match k
    case Acquire(l) =>
      && (p, l) in s'.holding && (forall q :: (q, l) in s'.holding ==> q == p)
      && l in s'.locked && s'.locked[l] == s'.pid[p] && Inner(l) !in s'.lk
    case Release(l) => (p, l) !in s'.holding && Inner(l) !in s'.lk
    case Waiting =>
      && WaitLock !in s'.lk
      && ((exists q: nat :: IsZombieOf(s, q, p) && s'.st == s.st[q := UNUSED] && s'.reaped == s.reaped + [s.pid[q]])
          || (s'.reaped == s.reaped && s'.st == s.st
              && (s.killed[p] || (exists q: nat :: IsZombieOf(s, q, p)) || forall q :: 0 <= q < |s.pc| ==> s.parent[q] != Some(p))))
    case Forking(t) => t < |s'.pc| && s'.st[t] == RUNNABLE && s'.parent[t] == Some(p)
    case Yielding => true
    case Exiting => false
  }

  ghost predicate IsZombieOf(s: State, q: nat, p: nat)
    requires Sized(s)
  {
    q < |s.pc| && s.parent[q] == Some(p) && s.st[q] == ZOMBIE
  }

  // ---------------------------------------------------------------- on the way

  function OfChan(ch: Chan): Call {
    match ch
    case Sl(l) => Acquire(l)
    case Wt(_) => Waiting
  }

  function OfCont(k: Cont): Call {
    match k
    case ToRelDone(l) => Release(l)
    case _ => Exiting
  }

  /** The call that a process is in. */
  function CallOf(pc: Pc): Option<Call> {
    match pc
    case NoThread => None
    case User => None
    case SleepWant(ch) => Some(OfChan(ch))
    case SleepHas(ch) => Some(OfChan(ch))
    case SleepSet(ch) => Some(OfChan(ch))
    case SleepSched(ch) => Some(OfChan(ch))
    case SleepOff(ch) => Some(OfChan(ch))
    case SleepBack(ch) => Some(OfChan(ch))
    case SleepDrop(ch) => Some(OfChan(ch))
    case SleepAgain(ch) => Some(OfChan(ch))
    case Wake(_, _, k) => Some(OfCont(k))
    case AcqWant(l) => Some(Acquire(l))
    case AcqTest(l) => Some(Acquire(l))
    case AcqDone(l) => Some(Acquire(l))
    case RelWant(l) => Some(Release(l))
    case RelClear(l) => Some(Release(l))
    case RelDone(l) => Some(Release(l))
    case YieldSched => Some(Yielding)
    case YieldOff => Some(Yielding)
    case YieldBack => Some(Yielding)
    case ForkParent(t) => Some(Forking(t))
    case ForkRun(t) => Some(Forking(t))
    case WaitWant => Some(Waiting)
    case WaitScan(_, _) => Some(Waiting)
    case _ => Some(Exiting)
  }

  /** p is in the call; in releasesleep() it no longer holds the lock once it has
      cleared it. */
  ghost predicate Along(s: State, p: nat, k: Call) {
    && p < |s.pc| && CallOf(s.pc[p]) == Some(k)
    && (k.Release? && (s.pc[p].Wake? || s.pc[p].RelDone?) ==> (p, k.lock) !in s.holding)
  }

  // ------------------------------------------------------------------ one step

  /** A step of p itself. */
  lemma OwnStep(ss: seq<State>, es: seq<Event>, i: nat, c: nat, p: nat, k: Call)
    requires IsRun(ss, es) && i < |es| && |ss| == |es| + 1 && p < |ss[i].pc| && Makes(ss, es, i, c, p, ss[i].pc[p]) && Along(ss[i], p, k)
    ensures Right(ss[i], ss[i + 1], p, k)
  {
    hide IsRun, Inv, PcOk, Along, Right, Ready, Run;
    RunIs(ss, es, i, c, p, ss[i].pc[p]);
    match ss[i].pc[p] {
      case AcqDone(l) => AcquireBack(ss, es, i, c, p, k);
      case WaitScan(n, kids) => WaitBack(ss, es, i, c, p, n, kids, k);
      case ForkRun(t) => ForkBack(ss, es, i, c, p, t, k);
      case _ => PlainStep(ss[i], c, p, k);
    }
  }

  /** The step leads on within the call or out of it, rightly. */
  ghost predicate Right(s: State, s': State, p: nat, k: Call) {
    && Sized(s) && Sized(s') && p < |s.pc| == |s'.pc|
    && if s'.pc[p] == User then Returned(s, s', p, k) else Along(s', p, k)
  }

  /** Everything but the three steps in which there is something to return. */
  lemma PlainStep(s: State, c: nat, p: nat, k: Call)
    requires Sized(s) && p < |s.pc| && c < |s.cpu| && Ready(s, p) && Along(s, p, k)
    requires !s.pc[p].AcqDone? && !s.pc[p].WaitScan? && !s.pc[p].ForkRun?
    ensures Right(s, Run(s, c, p), p, k)
  {
    hide Right, Run;
    var pc := s.pc[p];
    if pc.AcqWant? || pc.AcqTest? {
      LockStep(s, c, p, k);
    } else if pc.RelWant? || pc.RelClear? || pc.RelDone? {
      ReleaseStep(s, c, p, k);
    } else if pc.Wake? {
      WakeStep(s, c, p, k);
    } else if SleepLike(pc) {
      SleepStep(s, c, p, k);
    } else if pc.ExitScan? || pc.ExitWake? {
      LeaveStep(s, c, p, k);
    } else if pc.ExitWant? || pc.ExitRel? {
      QuitStep(s, c, p, k);
    } else if k == Exiting {
      DieStep(s, c, p, k);
    } else {
      RestStep(s, c, p, k);
    }
  }

  predicate SleepLike(pc: Pc) {
    || pc.SleepWant? || pc.SleepHas? || pc.SleepSet? || pc.SleepSched? || pc.SleepBack? || pc.SleepDrop? || pc.SleepAgain?
  }

  lemma LockStep(s: State, c: nat, p: nat, k: Call)
    requires Sized(s) && p < |s.pc| && c < |s.cpu| && Ready(s, p) && Along(s, p, k)
    requires s.pc[p].AcqWant? || s.pc[p].AcqTest?
    ensures Right(s, Run(s, c, p), p, k)
  {
    hide Returned;
  }

  lemma ReleaseStep(s: State, c: nat, p: nat, k: Call)
    requires Sized(s) && p < |s.pc| && c < |s.cpu| && Ready(s, p) && Along(s, p, k)
    requires s.pc[p].RelWant? || s.pc[p].RelClear? || s.pc[p].RelDone?
    ensures Right(s, Run(s, c, p), p, k)
  {
  }

  lemma WakeStep(s: State, c: nat, p: nat, k: Call)
    requires Sized(s) && p < |s.pc| && c < |s.cpu| && Ready(s, p) && Along(s, p, k)
    requires s.pc[p].Wake?
    ensures Right(s, Run(s, c, p), p, k)
  {
    hide Returned;
  }

  lemma LeaveStep(s: State, c: nat, p: nat, k: Call)
    requires Sized(s) && p < |s.pc| && c < |s.cpu| && Ready(s, p) && Along(s, p, k)
    requires s.pc[p].ExitScan? || s.pc[p].ExitWake?
    ensures Right(s, Run(s, c, p), p, k)
  {
    hide Returned, Woken, Freed, LockOf, AfterSleep, AfterWake, OfChan;
  }

  lemma SleepStep(s: State, c: nat, p: nat, k: Call)
    requires Sized(s) && p < |s.pc| && c < |s.cpu| && Ready(s, p) && Along(s, p, k)
    requires SleepLike(s.pc[p])
    ensures Right(s, Run(s, c, p), p, k)
  {
    hide Returned, LockOf;
  }

  lemma QuitStep(s: State, c: nat, p: nat, k: Call)
    requires Sized(s) && p < |s.pc| && c < |s.cpu| && Ready(s, p) && Along(s, p, k)
    requires s.pc[p].ExitWant? || s.pc[p].ExitRel?
    ensures Right(s, Run(s, c, p), p, k)
  {
    hide Returned, Woken, Freed, LockOf, AfterSleep, AfterWake, OfChan;
  }

  lemma DieStep(s: State, c: nat, p: nat, k: Call)
    requires Sized(s) && p < |s.pc| && c < |s.cpu| && Ready(s, p) && Along(s, p, k)
    requires s.pc[p].ExitOwn? || s.pc[p].ExitZombie? || s.pc[p].ExitSched?
    ensures Right(s, Run(s, c, p), p, k)
  {
    hide Returned, Woken, Freed, LockOf, AfterSleep, AfterWake, OfChan;
  }

  lemma RestStep(s: State, c: nat, p: nat, k: Call)
    requires Sized(s) && p < |s.pc| && c < |s.cpu| && Ready(s, p) && Along(s, p, k)
    requires s.pc[p].ForkParent? || s.pc[p].YieldSched? || s.pc[p].YieldBack? || s.pc[p].WaitWant?
    ensures Right(s, Run(s, c, p), p, k)
  {
  }

  lemma AcquireBack(ss: seq<State>, es: seq<Event>, i: nat, c: nat, p: nat, k: Call)
    requires IsRun(ss, es) && i < |es| && |ss| == |es| + 1 && p < |ss[i].pc| && Makes(ss, es, i, c, p, ss[i].pc[p]) && Along(ss[i], p, k)
    requires ss[i].pc[p].AcqDone?
    ensures Right(ss[i], ss[i + 1], p, k)
  {
    hide IsRun, Inv, PcOk, Ready;
    AcquireHolds(ss, es, i, c, p, ss[i].pc[p].lock);
    RunIs(ss, es, i, c, p, ss[i].pc[p]);
  }

  lemma WaitBack(ss: seq<State>, es: seq<Event>, i: nat, c: nat, p: nat, n: nat, kids: bool, k: Call)
    requires IsRun(ss, es) && i < |es| && |ss| == |es| + 1 && p < |ss[i].pc| && Makes(ss, es, i, c, p, WaitScan(n, kids)) && Along(ss[i], p, k)
    ensures Right(ss[i], ss[i + 1], p, k)
  {
    hide IsRun, Inv, PcOk, Ready, OnlyState;
    RunIs(ss, es, i, c, p, WaitScan(n, kids));
    if n >= |ss[i].pc| {
      WaitSaysNone(ss, es, i, c, p, n, kids);
    } else if ss[i].parent[n] == Some(p) && ss[i].st[n] == ZOMBIE {
      WaitReaps(ss, es, i, c, p, n, kids);
      assert IsZombieOf(ss[i], n, p);
    }
  }

  lemma ForkBack(ss: seq<State>, es: seq<Event>, i: nat, c: nat, p: nat, t: nat, k: Call)
    requires IsRun(ss, es) && i < |es| && |ss| == |es| + 1 && p < |ss[i].pc| && Makes(ss, es, i, c, p, ForkRun(t)) && Along(ss[i], p, k)
    ensures Right(ss[i], ss[i + 1], p, k)
  {
    hide IsRun, Inv;
    ForkStarts(ss, es, i, c, p, t);
  }

  /** A step of another process. */
  lemma OtherStep(s: State, c: nat, p: nat, q: nat, k: Call)
    requires Inv(s) && Sized(s) && p < |s.pc| && q < |s.pc| && p != q && c < |s.cpu| && Ready(s, q) && PcOk(s, q) && Along(s, p, k)
    ensures var s' := Run(s, c, q); Sized(s') && |s'.pc| == |s.pc| && (s'.pc[p] == NoThread || Along(s', p, k))
  {
    hide Inv, Run, Ready;
    if s.pc[q].ForkRun? {
      NoThreadYet(s, s.pc[q].child);
      OtherForks(s, c, p, q);
    } else if s.pc[q].WaitScan? {
      OtherWaits(s, c, p, q);
    } else {
      OtherMoves(s, c, p, q);
    }
  }

  /** Where another process is, and what it holds, does not change. */
  ghost predicate LeftAlone(s: State, s': State, p: nat) {
    && Sized(s) && Sized(s') && p < |s.pc| == |s'.pc| && s'.pc[p] == s.pc[p]
    && forall l :: (p, l) in s'.holding <==> (p, l) in s.holding
  }

  lemma OtherMoves(s: State, c: nat, p: nat, q: nat)
    requires Sized(s) && p < |s.pc| && q < |s.pc| && p != q && c < |s.cpu| && Ready(s, q)
    requires !s.pc[q].ForkRun? && !s.pc[q].WaitScan?
    ensures LeftAlone(s, Run(s, c, q), p)
  {
    hide Run, LeftAlone, Ready;
    if SleepLike(s.pc[q]) {
      OtherSleeps(s, c, p, q);
    } else if LockLike(s.pc[q]) {
      OtherLocks(s, c, p, q);
    } else {
      OtherLeaves(s, c, p, q);
    }
  }

  predicate LockLike(pc: Pc) {
    pc.Wake? || pc.AcqWant? || pc.AcqTest? || pc.AcqDone? || pc.RelWant? || pc.RelClear? || pc.RelDone?
  }

  lemma OtherSleeps(s: State, c: nat, p: nat, q: nat)
    requires Sized(s) && p < |s.pc| && q < |s.pc| && p != q && c < |s.cpu| && Ready(s, q) && SleepLike(s.pc[q])
    ensures LeftAlone(s, Run(s, c, q), p)
  {
    hide LockOf, AfterSleep;
  }

  lemma OtherLocks(s: State, c: nat, p: nat, q: nat)
    requires Sized(s) && p < |s.pc| && q < |s.pc| && p != q && c < |s.cpu| && Ready(s, q) && LockLike(s.pc[q])
    ensures LeftAlone(s, Run(s, c, q), p)
  {
    hide LockOf, AfterWake;
  }

  lemma OtherLeaves(s: State, c: nat, p: nat, q: nat)
    requires Sized(s) && p < |s.pc| && q < |s.pc| && p != q && c < |s.cpu| && Ready(s, q)
    requires !s.pc[q].ForkRun? && !s.pc[q].WaitScan? && !SleepLike(s.pc[q]) && !LockLike(s.pc[q])
    ensures LeftAlone(s, Run(s, c, q), p)
  {
  }

  lemma OtherForks(s: State, c: nat, p: nat, q: nat)
    requires Sized(s) && p < |s.pc| && q < |s.pc| && p != q && c < |s.cpu| && Ready(s, q)
    requires s.pc[q].ForkRun? && s.pc[q].child != p
    ensures LeftAlone(s, Run(s, c, q), p)
  {
  }

  lemma OtherWaits(s: State, c: nat, p: nat, q: nat)
    requires Sized(s) && p < |s.pc| && q < |s.pc| && p != q && c < |s.cpu| && Ready(s, q) && s.pc[q].WaitScan?
    ensures var s' := Run(s, c, q); Sized(s') && |s'.pc| == |s.pc| && (s'.pc[p] == NoThread || LeftAlone(s, s', p))
  {
  }

  lemma NoThreadYet(s: State, t: nat)
    requires Inv(s) && Sized(s) && t < |s.pc| && s.st[t] == USED
    ensures s.pc[t] == NoThread
  {
    hide LocksOk, WakeOk, Labels, NoLost, Holders, Family, ForksApart, Pids, History;
    assert StateOk(s.st[t], s.chan[t], s.pc[t]);
  }

  lemma DispatchStep(s: State, c: nat, t: nat, p: nat, k: Call)
    requires Inv(s) && Sized(s) && Can(s, Dispatch(c, t)) && Along(s, p, k)
    ensures Along(Do(s, Dispatch(c, t)), p, k)
  {
    hide Inv, Core;
    InvCore(s);
    EventDispatch(s, c, t);
  }

  /** One step of the run, whoever makes it. */
  lemma CallStep(ss: seq<State>, es: seq<Event>, i: nat, p: nat, k: Call)
    requires IsRun(ss, es) && i < |es| && |ss| == |es| + 1 && Along(ss[i], p, k)
    ensures Sized(ss[i]) && Sized(ss[i + 1]) && p < |ss[i + 1].pc| == |ss[i].pc|
    ensures ss[i + 1].pc[p] == NoThread ||
      if ss[i + 1].pc[p] == User then Returned(ss[i], ss[i + 1], p, k) else Along(ss[i + 1], p, k)
  {
    hide IsRun, Inv, Returned, PcOk, Ready, Run, Along;
    StepIs(ss, es, i);
    InCall(ss[i], p, k);
    match es[i] {
      case Continue(c) =>
        if ss[i].cpu[c].p == p {
          assert Along(ss[i], p, k);
          OwnStep(ss, es, i, c, p, k);
        } else {
          LabelsOf(ss[i], ss[i].cpu[c].p);
          OtherStep(ss[i], c, p, ss[i].cpu[c].p, k);
          InCall(Run(ss[i], c, ss[i].cpu[c].p), p, k);
        }
      case Dispatch(c, t) => DispatchStep(ss[i], c, t, p, k); InCall(ss[i + 1], p, k);
      case WaitFail(c) => FailStep(ss[i], c, p, k);
      case _ => QuietStep(ss[i], es[i], p, k);
    }
  }

  lemma InCall(s: State, p: nat, k: Call)
    ensures Along(s, p, k) ==> p < |s.pc| && s.pc[p] != User
  {
  }

  lemma FailStep(s: State, c: nat, p: nat, k: Call)
    requires Inv(s) && Sized(s) && Can(s, WaitFail(c)) && Along(s, p, k)
    ensures var s' := Do(s, WaitFail(c)); Sized(s') && |s'.pc| == |s.pc| && p < |s.pc| && if s'.pc[p] == User then Returned(s, s', p, k) else Along(s', p, k)
  {
    hide Inv;
    if s.cpu[c].p == p {
      assert IsZombieOf(s, s.pc[p].i, p);
    }
  }

  lemma QuietStep(s: State, e: Event, p: nat, k: Call)
    requires Sized(s) && Can(s, e) && Along(s, p, k) && !e.Continue? && !e.Dispatch? && !e.WaitFail?
    ensures var s' := Do(s, e); Sized(s') && |s'.pc| == |s.pc| && Along(s', p, k) && s'.pc[p] != User
  {
  }

  // ------------------------------------------------------------- the whole call

  lemma CallBegins(ss: seq<State>, es: seq<Event>, i: nat, p: nat, k: Call)
    requires IsRun(ss, es) && i < |es| && |ss| == |es| + 1 && Begun(es[i]) == Some(k)
    requires es[i].c < |ss[i].cpu| && ss[i].cpu[es[i].c] == Runs(p)
    ensures Along(ss[i + 1], p, k)
  {
    hide IsRun, Inv;
    StepIs(ss, es, i);
  }

  lemma {:induction false} CallGoesOn(ss: seq<State>, es: seq<Event>, i: nat, j: nat, p: nat, k: Call)
    requires IsRun(ss, es) && |ss| == |es| + 1 && i < j < |ss| && Begun(es[i]) == Some(k)
    requires es[i].c < |ss[i].cpu| && ss[i].cpu[es[i].c] == Runs(p)
    requires forall m :: i < m <= j ==> p < |ss[m].pc| && ss[m].pc[p] != User && ss[m].pc[p] != NoThread
    ensures Along(ss[j], p, k)
    decreases j
  {
    hide IsRun, Along, Returned;
    if j == i + 1 {
      CallBegins(ss, es, i, p, k);
    } else {
      CallGoesOn(ss, es, i, j - 1, p, k);
      CallStep(ss, es, j - 1, p, k);
    }
  }

  /** p makes the call in step i, and step j - 1 is the first that brings it back to
      user code: then the call has done its work. */
  lemma CallReturns(ss: seq<State>, es: seq<Event>, i: nat, j: nat, p: nat, k: Call)
    requires IsRun(ss, es) && |ss| == |es| + 1 && i < j < |ss| && Begun(es[i]) == Some(k)
    requires es[i].c < |ss[i].cpu| && ss[i].cpu[es[i].c] == Runs(p)
    requires forall m :: i < m < j ==> p < |ss[m].pc| && ss[m].pc[p] != User && ss[m].pc[p] != NoThread
    requires p < |ss[j].pc| && ss[j].pc[p] == User
    ensures i + 1 < j && Sized(ss[j - 1]) && Sized(ss[j]) && |ss[j - 1].pc| == |ss[j].pc| && Returned(ss[j - 1], ss[j], p, k)
  {
    hide IsRun, Returned;
    CallBegins(ss, es, i, p, k);
    CallGoesOn(ss, es, i, j - 1, p, k);
    CallStep(ss, es, j - 1, p, k);
  }

  /** exit() does not return: the process stays in it until it is reaped. */
  lemma ExitIsFinal(ss: seq<State>, es: seq<Event>, i: nat, j: nat, p: nat)
    requires IsRun(ss, es) && |ss| == |es| + 1 && i < j < |ss| && es[i].StartExit?
    requires es[i].c < |ss[i].cpu| && ss[i].cpu[es[i].c] == Runs(p)
    requires forall m :: i < m <= j ==> p < |ss[m].pc| && ss[m].pc[p] != NoThread
    ensures ss[j].pc[p] != User
    decreases j
  {
    hide IsRun;
    if ss[j].pc[p] == User {
      assert Begun(es[i]) == Some(Exiting);
      forall m | i < m < j
        ensures ss[m].pc[p] != User
      {
        ExitIsFinal(ss, es, i, m, p);
      }
      CallReturns(ss, es, i, j, p, Exiting);
    }
  }
}
