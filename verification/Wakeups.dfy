/** No lost wakeup, sleep-locks and the process tree: what holds in every state of
    every run of the machine in SleepWakeup.

    One argument serves all channels. Each has a condition under which it is right
    to sleep: the sleep-lock is taken, or no child has exited. A process that has
    decided to sleep has either this condition still true, or a waker on its way. */
module Wakeups {
  import opened Basics
  import opened SleepWakeup

  // -------------------------------------------------------------- the invariant

  ghost predicate NoZombies(s: State, w: nat, n: nat)
    requires Sized(s)
  {
    forall j :: 0 <= j < n && j < |s.pc| && s.parent[j] == Some(w) ==> s.st[j] != ZOMBIE
  }

  ghost predicate NoKids(s: State, w: nat, n: nat)
    requires Sized(s)
  {
    forall j :: 0 <= j < n && j < |s.pc| ==> s.parent[j] != Some(w)
  }

  /** The condition for sleeping on ch. */
  ghost predicate Cond(s: State, ch: Chan)
    requires Sized(s)
  {
    match ch
    case Sl(l) => l in s.locked
    case Wt(w) => NoZombies(s, w, |s.pc|)
  }

  /** wait() sleeps on the process itself. */
  predicate OwnChan(ch: Chan, p: nat) {
    ch.Wt? ==> ch.proc == p
  }

  ghost predicate NobodyCommitted(s: State, ch: Chan)
    requires Sized(s)
  {
    forall q :: 0 <= q < |s.pc| ==> !Committed(s, q, ch)
  }

  /** What process p can rely on where it is. */
  ghost predicate PcOk(s: State, p: nat)
    requires Sized(s) && p < |s.pc|
  {
    match s.pc[p]
    case SleepWant(ch) => OwnChan(ch, p) && Cond(s, ch)
    case SleepHas(ch) => OwnChan(ch, p) && Cond(s, ch)
    case SleepSet(ch) => OwnChan(ch, p)
    case SleepSched(ch) => OwnChan(ch, p)
    case SleepOff(ch) => OwnChan(ch, p)
    case SleepBack(ch) => OwnChan(ch, p)
    case SleepDrop(ch) => OwnChan(ch, p)
    case SleepAgain(ch) => OwnChan(ch, p)
    case Wake(ch, _, k) =>
      (match k
       case ToRelDone(l) => ch == Sl(l)
       case ToExitScan(j) => ch == Wt(INIT) && p != INIT && NoKids(s, p, j)
       case ToExitOwn => ch.Wt? && p != INIT && s.parent[p] == Some(ch.proc) && NoKids(s, p, |s.pc|))
    case AcqDone(l) => (p, l) in s.holding
    case RelWant(l) => (p, l) in s.holding
    case RelClear(l) => (p, l) in s.holding
    case ForkParent(t) => t < |s.pc| && s.st[t] == USED && (s.parent[t] == None || s.parent[t] == Some(p))
    case ForkRun(t) => t < |s.pc| && s.st[t] == USED && s.parent[t] == Some(p)
    case ExitWant => p != INIT
    case ExitScan(j) => p != INIT && NoKids(s, p, j)
    case ExitWake => p != INIT && NoKids(s, p, |s.pc|)
    case ExitOwn => p != INIT && NoKids(s, p, |s.pc|) && s.parent[p].Some? && NobodyCommitted(s, Wt(s.parent[p].value))
    case ExitZombie => p != INIT && NoKids(s, p, |s.pc|) && s.parent[p].Some? && NobodyCommitted(s, Wt(s.parent[p].value))
    case ExitRel => p != INIT && NoKids(s, p, |s.pc|)
    case ExitSched => p != INIT && NoKids(s, p, |s.pc|)
    case Dead => p != INIT && NoKids(s, p, |s.pc|)
    case WaitScan(i, kids) => NoZombies(s, p, i) && (kids <==> !NoKids(s, p, i))
    case _ => true
  }

  ghost predicate Labels(s: State) {
    Sized(s) && forall p :: 0 <= p < |s.pc| ==> PcOk(s, p)
  }

  /** A waker is on its way to p. */
  ghost predicate WakerFor(s: State, ch: Chan, p: nat) {
    && LockOf(ch) in s.lk && s.lk[LockOf(ch)] < |s.pc|
    && var w := s.pc[s.lk[LockOf(ch)]];
       w.Wake? && w.ch == ch && w.i <= p
  }

  ghost predicate NoLost(s: State) {
    && Sized(s)
    && forall p, ch :: 0 <= p < |s.pc| && Committed(s, p, ch) ==> Cond(s, ch) || WakerFor(s, ch, p)
  }

  /** Not on the way out. */
  predicate Staying(pc: Pc) {
    match pc
    case NoThread => false
    case Wake(_, _, k) => k.ToRelDone?
    case ExitWant => false
    case ExitScan(_) => false
    case ExitWake => false
    case ExitOwn => false
    case ExitZombie => false
    case ExitRel => false
    case ExitSched => false
    case Dead => false
    case _ => true
  }

  /** A sleep-lock is locked when one process has it, and carries its pid. */
  ghost predicate Holders(s: State) {
    && Sized(s)
    && (forall x :: x in s.holding ==>
          x.0 < |s.pc| && x.1 in s.locked && s.locked[x.1] == s.pid[x.0] && Staying(s.pc[x.0]))
    && (forall x, y :: x in s.holding && y in s.holding && x.1 == y.1 ==> x.0 == y.0)
    && (forall l :: l in s.locked ==> exists p :: (p, l) in s.holding)
  }

  ghost predicate Family(s: State) {
    && Sized(s) && INIT < |s.pc| && s.pc[INIT] != NoThread
    && (forall q :: 0 <= q < |s.pc| && s.parent[q].Some? ==> s.parent[q].value < |s.pc| && s.pc[s.parent[q].value] != NoThread)
    && (forall q :: 0 <= q < |s.pc| && q != INIT && s.pc[q] != NoThread ==> s.parent[q].Some?)
    && (forall q :: 0 <= q < |s.pc| && s.st[q] == UNUSED ==> s.parent[q] == None)
  }

  function ForkTarget(pc: Pc): Option<nat> {
    match pc
    case ForkParent(t) => Some(t)
    case ForkRun(t) => Some(t)
    case _ => None
  }

  /** No two processes fill the same slot. */
  ghost predicate ForksApart(s: State) {
    forall p, q :: 0 <= p < |s.pc| && 0 <= q < |s.pc| && p != q && ForkTarget(s.pc[p]).Some? ==>
      ForkTarget(s.pc[p]) != ForkTarget(s.pc[q])
  }

  ghost predicate Pids(s: State) {
    && Sized(s)
    && (forall p :: 0 <= p < |s.pc| && s.st[p] != UNUSED ==> 0 < s.pid[p] < s.nextpid)
    && (forall p, q :: 0 <= p < q < |s.pc| && s.st[p] != UNUSED && s.st[q] != UNUSED ==> s.pid[p] != s.pid[q])
    && s.nextpid > 0
  }

  /** Who has exited has been returned by one wait() or is a zombie. */
  ghost predicate History(s: State) {
    && Sized(s)
    && Distinct(s.exited) && Distinct(s.reaped)
    && (forall x :: x in s.exited ==> x < s.nextpid)
    && (forall x :: x in s.reaped ==> x in s.exited)
    && (forall p :: 0 <= p < |s.pc| && s.st[p] == ZOMBIE ==> s.pid[p] in s.exited && s.pid[p] !in s.reaped)
    && (forall p :: 0 <= p < |s.pc| && s.st[p] != ZOMBIE && s.st[p] != UNUSED ==> s.pid[p] !in s.exited)
    && (forall x :: x in s.exited && x !in s.reaped ==> exists p :: 0 <= p < |s.pc| && s.st[p] == ZOMBIE && s.pid[p] == x)
  }

  ghost predicate Inv(s: State) {
    && Core(s) && Labels(s) && NoLost(s) && Holders(s) && Family(s) && ForksApart(s) && Pids(s) && History(s)
  }

  // --------------------------------------------------------------- quiet steps

  predicate Going(st: ProcState) {
    st == SLEEPING || st == RUNNABLE || st == RUNNING
  }

  ghost predicate SameData(s: State, s': State) {
    && s'.locked == s.locked && s'.holding == s.holding && s'.parent == s.parent && s'.pid == s.pid
    && s'.nextpid == s.nextpid && s'.exited == s.exited && s'.reaped == s.reaped
  }

  /** Process p moves without touching what others rely on. */
  ghost predicate Quiet(s: State, s': State, p: nat) {
    && OnlyProc(s, s', p) && SameData(s, s')
    && (s'.st[p] == s.st[p] || (Going(s.st[p]) && Going(s'.st[p])))
    && (s'.pc[p] == NoThread <==> s.pc[p] == NoThread)
    && (ForkTarget(s'.pc[p]) == None || ForkTarget(s'.pc[p]) == ForkTarget(s.pc[p]) || Untargeted(s, ForkTarget(s'.pc[p])))
    && (Staying(s'.pc[p]) || !Staying(s.pc[p]) || forall l :: (p, l) !in s.holding)
    && BoundWell(s, s', p) && Passed(s, s', p)
  }

  ghost predicate Untargeted(s: State, t: Option<nat>) {
    forall q :: 0 <= q < |s.pc| ==> ForkTarget(s.pc[q]) != t
  }

  /** A new decision to sleep is made with the condition true and its lock held. */
  ghost predicate BoundWell(s: State, s': State, p: nat)
    requires OnlyProc(s, s', p)
  {
    var b := Bound(s'.st[p], s'.pc[p]);
    b == None || b == Bound(s.st[p], s.pc[p]) || (HeldLock(s.pc[p]) == Some(LockOf(b.value)) && Cond(s, b.value))
  }

  /** A waker leaves nobody behind. */
  ghost predicate Passed(s: State, s': State, p: nat)
    requires OnlyProc(s, s', p)
  {
    s.pc[p].Wake? ==> forall r :: 0 <= r < |s.pc| && Committed(s', r, s.pc[p].ch) ==>
      s'.pc[p].Wake? && s'.pc[p].ch == s.pc[p].ch && s'.pc[p].i <= r
  }

  lemma QuietCond(s: State, s': State, p: nat, ch: Chan)
    requires Quiet(s, s', p)
    ensures Cond(s', ch) == Cond(s, ch)
  {
    hide Bound, HeldLock, Staying, BoundWell, Passed;
  }

  lemma QuietLabels(s: State, s': State, p: nat)
    requires Labels(s) && Quiet(s, s', p) && PcOk(s', p) && Core(s)
    ensures Labels(s')
  {
    hide LocksOk, CpusOk, WakeOk, Bound, HeldLock, Staying, Passed, PcOk;
    forall q | 0 <= q < |s'.pc|
      ensures PcOk(s', q)
    {
      if q != p {
        QuietLabel(s, s', p, q);
      }
    }
  }

  /** As far as the labels of others are concerned, nothing has changed. */
  ghost predicate SameForOthers(s: State, s': State, p: nat) {
    && Sized(s) && Sized(s') && |s'.pc| == |s.pc| && s'.parent == s.parent && s'.holding == s.holding
    && (forall q :: 0 <= q < |s.pc| && q != p ==> s'.pc[q] == s.pc[q])
    && (forall q :: 0 <= q < |s.pc| ==> (s'.st[q] == ZOMBIE <==> s.st[q] == ZOMBIE) && (s'.st[q] == USED <==> s.st[q] == USED))
  }

  lemma QuietSame(s: State, s': State, p: nat)
    requires Quiet(s, s', p)
    ensures SameForOthers(s, s', p)
  {
    hide Staying, Passed, BoundWell, ForkTarget;
  }

  lemma QuietLabel(s: State, s': State, p: nat, q: nat)
    requires Core(s) && Quiet(s, s', p) && q < |s.pc| && q != p && Sized(s) && Sized(s') && |s'.pc| == |s.pc| && PcOk(s, q)
    ensures PcOk(s', q)
  {
    hide Core, Quiet, Cond, NobodyCommitted;
    QuietSame(s, s', p);
    if s.pc[q].SleepWant? || s.pc[q].SleepHas? {
      QuietCond(s, s', p, s.pc[q].ch);
    }
    if (s.pc[q] == ExitOwn || s.pc[q] == ExitZombie) && s.parent[q].Some? {
      QuietNobody(s, s', p, q, Wt(s.parent[q].value));
    }
  }

  lemma QuietNobody(s: State, s': State, p: nat, q: nat, ch: Chan)
    requires Core(s) && Quiet(s, s', p) && q < |s.pc| && q != p && (s.pc[q] == ExitOwn || s.pc[q] == ExitZombie)
    requires ch.Wt? && NobodyCommitted(s, ch)
    ensures NobodyCommitted(s', ch)
  {
    hide LocksOk, CpusOk, WakeOk, Bound, Staying, Passed, Cond;
    forall r | 0 <= r < |s'.pc|
      ensures !Committed(s', r, ch)
    {
      assert !Committed(s, r, ch);
      if r == p && HeldLock(s.pc[p]) == Some(LockOf(ch)) {
        SoleHolder(s, p, q);
      }
    }
  }

  lemma QuietNoLost(s: State, s': State, p: nat)
    requires NoLost(s) && Quiet(s, s', p) && Core(s) && Core(s')
    ensures NoLost(s')
  {
    hide Core, Bound, HeldLock, Staying, Cond;
    forall q, ch | 0 <= q < |s'.pc| && Committed(s', q, ch)
      ensures Cond(s', ch) || WakerFor(s', ch, q)
    {
      QuietCond(s, s', p, ch);
      if Committed(s, q, ch) && !Cond(s, ch) {
        QuietWaker(s, s', p, ch, q);
      }
    }
  }

  lemma QuietWaker(s: State, s': State, p: nat, ch: Chan, q: nat)
    requires Core(s) && Core(s') && Quiet(s, s', p) && q < |s.pc| && Committed(s', q, ch) && WakerFor(s, ch, q)
    ensures WakerFor(s', ch, q)
  {
    hide LocksOk, CpusOk, WakeOk, Bound, Staying, Cond, BoundWell;
    var w := s.lk[LockOf(ch)];
    CoreAt(s', w);
  }

  lemma QuietHolders(s: State, s': State, p: nat)
    requires Holders(s) && Quiet(s, s', p)
    ensures Holders(s')
  {
    hide Bound, HeldLock, Staying, BoundWell, Passed;
  }

  lemma QuietFamily(s: State, s': State, p: nat)
    requires Family(s) && Quiet(s, s', p)
    ensures Family(s')
  {
    hide Bound, HeldLock, Staying, BoundWell, Passed;
  }

  lemma QuietForks(s: State, s': State, p: nat)
    requires ForksApart(s) && Quiet(s, s', p)
    ensures ForksApart(s')
  {
    hide Bound, HeldLock, Staying, BoundWell, Passed, ForkTarget;
  }

  lemma QuietPids(s: State, s': State, p: nat)
    requires Pids(s) && Quiet(s, s', p)
    ensures Pids(s')
  {
    hide BoundWell, Passed, ForkTarget, Staying;
  }

  lemma QuietHistory(s: State, s': State, p: nat)
    requires History(s) && Quiet(s, s', p)
    ensures History(s')
  {
    hide BoundWell, Passed, ForkTarget, Staying, Distinct;
    forall x | x in s.exited && x !in s.reaped
      ensures exists q :: 0 <= q < |s'.pc| && s'.st[q] == ZOMBIE && s'.pid[q] == x
    {
      var q :| 0 <= q < |s.pc| && s.st[q] == ZOMBIE && s.pid[q] == x;
      assert s'.st[q] == ZOMBIE && s'.pid[q] == x;
    }
  }

  /** A quiet step keeps everything. */
  lemma QuietKeeps(s: State, s': State, p: nat)
    requires Inv(s) && Quiet(s, s', p) && PcOk(s', p) && Core(s')
    ensures Inv(s')
  {
    hide Core, Labels, NoLost, Holders, Family, ForksApart, Pids, History, PcOk, Quiet;
    QuietLabels(s, s', p);
    QuietNoLost(s, s', p);
    QuietHolders(s, s', p);
    QuietFamily(s, s', p);
    QuietForks(s, s', p);
    QuietPids(s, s', p);
    QuietHistory(s, s', p);
  }

  // --------------------------------------------------- steps that change the data

  /** Nobody moves. */
  ghost predicate SamePlaces(s: State, s': State) {
    && Sized(s) && Sized(s') && s'.pc == s.pc && s'.st == s.st && s'.chan == s.chan && s'.plock == s.plock
    && s'.cpu == s.cpu && s'.lk == s.lk && s'.exited == s.exited && s'.reaped == s.reaped && s'.pid == s.pid
  }

  lemma SamePids(s: State, s': State)
    requires SamePlaces(s, s') && s'.nextpid >= s.nextpid && Pids(s) && History(s) && ForksApart(s)
    ensures Pids(s') && History(s') && ForksApart(s')
  {
    hide ForkTarget, Distinct;
    forall x | x in s.exited && x !in s.reaped
      ensures exists q :: 0 <= q < |s'.pc| && s'.st[q] == ZOMBIE && s'.pid[q] == x
    {
      var q :| 0 <= q < |s.pc| && s.st[q] == ZOMBIE && s.pid[q] == x;
      assert s'.st[q] == ZOMBIE && s'.pid[q] == x;
    }
  }

  lemma SameCore(s: State, s': State)
    requires SamePlaces(s, s') && Core(s)
    ensures Core(s')
  {
    hide LocksOk, CpusOk, WakeOk;
    CoreData(s, s');
  }

  lemma SameFamily(s: State, s': State)
    requires SamePlaces(s, s') && Family(s) && s'.parent == s.parent
    ensures Family(s')
  {
  }

  lemma SameNobody(s: State, s': State, ch: Chan)
    requires SamePlaces(s, s') && NobodyCommitted(s, ch)
    ensures NobodyCommitted(s', ch)
  {
    forall q | 0 <= q < |s'.pc|
      ensures !Committed(s', q, ch)
    {
      assert !Committed(s, q, ch);
    }
  }

  /** What q relies on survives changes to sleep-locks that q is not involved in. */
  lemma LabelLocks(s: State, s': State, q: nat)
    requires SamePlaces(s, s') && s'.parent == s.parent && q < |s.pc| && PcOk(s, q)
    requires (s.pc[q].SleepWant? || s.pc[q].SleepHas?) && s.pc[q].ch.Sl? ==> s.pc[q].ch.lock in s'.locked
    requires s.pc[q].AcqDone? || s.pc[q].RelWant? || s.pc[q].RelClear? ==> (q, s.pc[q].lock) in s'.holding
    ensures PcOk(s', q)
  {
    hide NobodyCommitted;
    if (s.pc[q] == ExitOwn || s.pc[q] == ExitZombie) && s.parent[q].Some? {
      SameNobody(s, s', Wt(s.parent[q].value));
    }
  }

  /** And a new parent for t, if q does not hold wait_lock. */
  lemma LabelParents(s: State, s': State, q: nat, t: nat, v: nat)
    requires SamePlaces(s, s') && s'.locked == s.locked && s'.holding == s.holding && q < |s.pc| && PcOk(s, q)
    requires t < |s.pc| && s'.parent == s.parent[t := Some(v)]
    requires HeldLock(s.pc[q]) != Some(WaitLock) && (s.pc[q] == ExitSched || s.pc[q] == Dead ==> v != q)
    requires ForkTarget(s.pc[q]) == Some(t) ==> v == q
    ensures PcOk(s', q)
  {
    hide NobodyCommitted;
  }

  /** acquiresleep() takes the lock. */
  lemma LockTaken(s: State, s': State, p: nat, l: nat)
    requires Inv(s) && SamePlaces(s, s') && p < |s.pc| && s.pc[p] == AcqTest(l) && l !in s.locked && s'.parent == s.parent
    requires s'.locked == s.locked[l := s.pid[p]] && s'.holding == s.holding + {(p, l)}
    requires s'.nextpid == s.nextpid
    ensures Inv(s')
  {
    hide Core, Family, Pids, History, ForksApart, Labels, NoLost, Holders;
    SameCore(s, s');
    SameFamily(s, s');
    SamePids(s, s');
    LockTakenHolders(s, s', p, l);
    LockTakenLabels(s, s');
    LockTakenNoLost(s, s');
  }

  lemma LockTakenLabels(s: State, s': State)
    requires Labels(s) && SamePlaces(s, s') && s'.parent == s.parent && s.locked.Keys <= s'.locked.Keys && s.holding <= s'.holding
    ensures Labels(s')
  {
    hide NobodyCommitted;
    forall q | 0 <= q < |s'.pc|
      ensures PcOk(s', q)
    {
      assert PcOk(s, q);
      LabelLocks(s, s', q);
    }
  }

  lemma LockTakenNoLost(s: State, s': State)
    requires NoLost(s) && SamePlaces(s, s') && s'.parent == s.parent && s.locked.Keys <= s'.locked.Keys
    ensures NoLost(s')
  {
    hide Bound;
    forall q, ch | 0 <= q < |s'.pc| && Committed(s', q, ch)
      ensures Cond(s', ch) || WakerFor(s', ch, q)
    {
      assert Committed(s, q, ch);
    }
  }

  lemma LockTakenHolders(s: State, s': State, p: nat, l: nat)
    requires Holders(s) && SamePlaces(s, s') && p < |s.pc| && s.pc[p] == AcqTest(l) && l !in s.locked
    requires s'.locked == s.locked[l := s.pid[p]] && s'.holding == s.holding + {(p, l)}
    ensures Holders(s')
  {
    hide Staying;
    AcqStays(l);
    OneMore(s.holding, s.locked.Keys, p, l);
    forall x | x in s'.holding
      ensures x.0 < |s'.pc| && x.1 in s'.locked && s'.locked[x.1] == s'.pid[x.0] && Staying(s'.pc[x.0])
    {
    }
  }

  /** A first holder of l makes no two of anything. */
  lemma OneMore(h: set<(nat, nat)>, locks: set<nat>, p: nat, l: nat)
    requires (forall x, y :: x in h && y in h && x.1 == y.1 ==> x.0 == y.0) && l !in locks
    requires (forall x :: x in h ==> x.1 in locks) && forall k :: k in locks ==> exists q :: (q, k) in h
    ensures var h' := h + {(p, l)};
      && (forall x, y :: x in h' && y in h' && x.1 == y.1 ==> x.0 == y.0)
      && forall k :: k in locks + {l} ==> exists q :: (q, k) in h'
  {
    var h' := h + {(p, l)};
    forall k | k in locks + {l}
      ensures exists q :: (q, k) in h'
    {
      if k == l {
        assert (p, l) in h';
      } else {
        var q :| (q, k) in h;
        assert (q, k) in h';
      }
    }
  }

  lemma AcqStays(l: nat)
    ensures Staying(AcqTest(l))
  {
  }

  /** releasesleep() drops it; the wakeup is about to start. */
  lemma LockDropped(s: State, s': State, p: nat, l: nat)
    requires Inv(s) && SamePlaces(s, s') && p < |s.pc| && s.pc[p] == Wake(Sl(l), 0, ToRelDone(l)) && s'.parent == s.parent
    requires (p, l) in s.holding && s'.locked == s.locked - {l} && s'.holding == s.holding - {(p, l)}
    requires s'.nextpid == s.nextpid
    ensures Inv(s')
  {
    hide Core, Family, Pids, History, ForksApart, Labels, NoLost;
    SameCore(s, s');
    SameFamily(s, s');
    SamePids(s, s');
    LockDroppedHolders(s, s', p, l);
    LockDroppedLabels(s, s', p, l);
    LockDroppedNoLost(s, s', p, l);
  }

  lemma LockDroppedHolders(s: State, s': State, p: nat, l: nat)
    requires Holders(s) && SamePlaces(s, s') && (p, l) in s.holding
    requires s'.locked == s.locked - {l} && s'.holding == s.holding - {(p, l)}
    ensures Holders(s')
  {
    hide Staying;
    forall k | k in s'.locked
      ensures exists q :: (q, k) in s'.holding
    {
      var q :| (q, k) in s.holding;
      assert (q, k) in s'.holding;
    }
  }

  lemma LockDroppedLabels(s: State, s': State, p: nat, l: nat)
    requires Core(s) && Labels(s) && Holders(s) && SamePlaces(s, s') && p < |s.pc| && s.pc[p] == Wake(Sl(l), 0, ToRelDone(l))
    requires (p, l) in s.holding && s'.locked == s.locked - {l} && s'.holding == s.holding - {(p, l)} && s'.parent == s.parent
    ensures Labels(s')
  {
    hide LocksOk, CpusOk, WakeOk, Staying, NobodyCommitted;
    forall q | 0 <= q < |s'.pc|
      ensures PcOk(s', q)
    {
      assert PcOk(s, q);
      if s.pc[q] == SleepWant(Sl(l)) || s.pc[q] == SleepHas(Sl(l)) {
        SoleHolder(s, p, q);
      }
      LabelLocks(s, s', q);
    }
  }

  lemma LockDroppedNoLost(s: State, s': State, p: nat, l: nat)
    requires Core(s) && NoLost(s) && SamePlaces(s, s') && p < |s.pc| && s.pc[p] == Wake(Sl(l), 0, ToRelDone(l))
    requires s'.locked == s.locked - {l} && s'.parent == s.parent
    ensures NoLost(s')
  {
    hide LocksOk, CpusOk, WakeOk, Bound;
    CoreAt(s, p);
    forall q, ch | 0 <= q < |s'.pc| && Committed(s', q, ch)
      ensures Cond(s', ch) || WakerFor(s', ch, q)
    {
      assert Committed(s, q, ch);
    }
  }

  /** fork() records the parent. */
  lemma ParentSet(s: State, s': State, p: nat, t: nat)
    requires Inv(s) && SamePlaces(s, s') && p < |s.pc| && s.pc[p] == ForkParent(t) && t < |s.pc| && WaitLock !in s.lk
    requires s'.locked == s.locked && s'.holding == s.holding && s'.parent == s.parent[t := Some(p)]
    requires s'.nextpid == s.nextpid
    ensures Inv(s')
  {
    hide Core, Family, Pids, History, ForksApart, Labels, NoLost, Holders;
    assert PcOk(s, p) by {
      LabelAt(s, p);
    }
    SameCore(s, s');
    SamePids(s, s');
    SameHolders(s, s');
    ParentSetFamily(s, s', p, t);
    ParentSetLabels(s, s', p, t);
    KidsNoLost(s, s');
  }

  lemma LabelAt(s: State, p: nat)
    requires Labels(s) && p < |s.pc|
    ensures Sized(s) && PcOk(s, p)
  {
  }

  lemma SameHolders(s: State, s': State)
    requires Holders(s) && SamePlaces(s, s') && s'.locked == s.locked && s'.holding == s.holding
    ensures Holders(s')
  {
    hide Staying;
  }

  lemma ParentSetFamily(s: State, s': State, p: nat, t: nat)
    requires Family(s) && SamePlaces(s, s') && p < |s.pc| && s.pc[p] != NoThread && t < |s.pc| && s.st[t] == USED
    requires s'.parent == s.parent[t := Some(p)]
    ensures Family(s')
  {
    forall q | 0 <= q < |s'.pc| && s'.parent[q].Some?
      ensures s'.parent[q].value < |s'.pc| && s'.pc[s'.parent[q].value] != NoThread
    {
      assert q != t ==> s.parent[q].Some?;
    }
  }

  lemma ParentSetLabels(s: State, s': State, p: nat, t: nat)
    requires Labels(s) && ForksApart(s) && SamePlaces(s, s') && p < |s.pc| && s.pc[p] == ForkParent(t) && t < |s.pc| && s.st[t] == USED
    requires s'.locked == s.locked && s'.holding == s.holding && s'.parent == s.parent[t := Some(p)] && Core(s) && WaitLock !in s.lk
    ensures Labels(s')
  {
    hide LocksOk, CpusOk, WakeOk, PcOk, HeldLock;
    forall q | 0 <= q < |s'.pc|
      ensures PcOk(s', q)
    {
      assert PcOk(s, q);
      assert q != p ==> ForkTarget(s.pc[q]) != ForkTarget(s.pc[p]);
      CoreAt(s, q);
      LabelParents(s, s', q, t, p);
    }
  }

  /** A living process gets another parent, or its first one. */
  lemma KidsNoLost(s: State, s': State)
    requires NoLost(s) && SamePlaces(s, s') && s'.locked == s.locked
    requires forall w: nat :: NoZombies(s, w, |s.pc|) ==> NoZombies(s', w, |s.pc|)
    ensures NoLost(s')
  {
    hide Bound, NoZombies;
    forall q, ch | 0 <= q < |s'.pc| && Committed(s', q, ch)
      ensures Cond(s', ch) || WakerFor(s', ch, q)
    {
      assert Committed(s, q, ch);
    }
  }

  /** exit() hands child i to init; the wakeup of init is about to start. */
  lemma Reparented(s: State, s': State, p: nat, i: nat)
    requires Inv(s) && SamePlaces(s, s') && p < |s.pc| && s.pc[p] == Wake(Wt(INIT), 0, ToExitScan(i)) && i < |s.pc|
    requires s'.locked == s.locked && s'.holding == s.holding && s.parent[i] == Some(p) && s'.parent == s.parent[i := Some(INIT)]
    requires s'.nextpid == s.nextpid
    ensures Inv(s')
  {
    hide Core, Family, Pids, History, ForksApart, Labels, NoLost, Holders;
    SameCore(s, s');
    SamePids(s, s');
    SameHolders(s, s');
    ReparentedFamily(s, s', i);
    ReparentedLabels(s, s', p, i);
    ReparentedNoLost(s, s', p, i);
  }

  lemma ReparentedFamily(s: State, s': State, i: nat)
    requires Family(s) && SamePlaces(s, s') && i < |s.pc| && s.parent[i].Some? && s'.parent == s.parent[i := Some(INIT)]
    ensures Family(s')
  {
    forall q | 0 <= q < |s'.pc| && s'.parent[q].Some?
      ensures s'.parent[q].value < |s'.pc| && s'.pc[s'.parent[q].value] != NoThread
    {
      assert q != i ==> s.parent[q].Some?;
    }
  }

  lemma ReparentedLabels(s: State, s': State, p: nat, i: nat)
    requires Core(s) && Labels(s) && SamePlaces(s, s') && p < |s.pc| && s.pc[p] == Wake(Wt(INIT), 0, ToExitScan(i)) && i < |s.pc|
    requires s'.locked == s.locked && s'.holding == s.holding && s.parent[i] == Some(p) && s'.parent == s.parent[i := Some(INIT)]
    ensures Labels(s')
  {
    hide LocksOk, CpusOk, WakeOk, NobodyCommitted;
    forall q | 0 <= q < |s'.pc|
      ensures PcOk(s', q)
    {
      assert PcOk(s, q) && PcOk(s, p);
      if q != p {
        if HeldLock(s.pc[q]) == Some(WaitLock) {
          SoleHolder(s, p, q);
        }
        LabelParents(s, s', q, i, INIT);
      }
    }
  }

  lemma ReparentedNoLost(s: State, s': State, p: nat, i: nat)
    requires Core(s) && NoLost(s) && SamePlaces(s, s') && p < |s.pc| && s.pc[p] == Wake(Wt(INIT), 0, ToExitScan(i)) && i < |s.pc|
    requires s'.locked == s.locked && s'.parent == s.parent[i := Some(INIT)]
    ensures NoLost(s')
  {
    hide LocksOk, CpusOk, WakeOk, Bound;
    CoreAt(s, p);
    forall q, ch | 0 <= q < |s'.pc| && Committed(s', q, ch)
      ensures Cond(s', ch) || WakerFor(s', ch, q)
    {
      assert Committed(s, q, ch);
    }
  }

  // ------------------------------------------------ steps that change who lives

  /** One slot changes hands; locks, parents of the others and their places stay. */
  ghost predicate OneSlot(s: State, s': State, t: nat) {
    && Sized(s) && Sized(s') && Updated(s.pc, s'.pc, t) && Updated(s.st, s'.st, t)
    && Updated(s.parent, s'.parent, t) && Updated(s.pid, s'.pid, t)
    && s'.lk == s.lk && s'.locked == s.locked && s'.holding == s.holding
    && Bound(s'.st[t], s'.pc[t]) == None && !s.pc[t].Wake?
  }

  lemma OneSlotNobody(s: State, s': State, t: nat, ch: Chan)
    requires OneSlot(s, s', t) && NobodyCommitted(s, ch)
    ensures NobodyCommitted(s', ch)
  {
    hide Bound;
    forall q | 0 <= q < |s'.pc|
      ensures !Committed(s', q, ch)
    {
      assert !Committed(s, q, ch);
    }
  }

  lemma OneSlotNoLost(s: State, s': State, t: nat)
    requires NoLost(s) && OneSlot(s, s', t)
    requires forall w: nat :: NoZombies(s, w, |s.pc|) && !NobodyCommitted(s, Wt(w)) ==> NoZombies(s', w, |s.pc|)
    ensures NoLost(s')
  {
    hide Bound, NoZombies;
    forall q, ch | 0 <= q < |s'.pc| && Committed(s', q, ch)
      ensures Cond(s', ch) || WakerFor(s', ch, q)
    {
      assert Committed(s, q, ch);
    }
  }

  lemma OneSlotHolders(s: State, s': State, t: nat)
    requires Holders(s) && OneSlot(s, s', t) && !Staying(s.pc[t])
    ensures Holders(s')
  {
    hide Bound, Staying;
  }

  lemma OneSlotForks(s: State, s': State, t: nat)
    requires ForksApart(s) && OneSlot(s, s', t) && ForkTarget(s'.pc[t]) == None
    ensures ForksApart(s')
  {
    hide Bound, ForkTarget;
  }

  /** What q relies on does not depend on slot t. */
  lemma OneSlotLabel(s: State, s': State, t: nat, q: nat)
    requires OneSlot(s, s', t) && q < |s.pc| && q != t && PcOk(s, q)
    requires forall n: nat :: NoKids(s, q, n) ==> NoKids(s', q, n)
    requires s.pc[q].WaitScan? && NoKids(s', q, s.pc[q].i) ==> NoKids(s, q, s.pc[q].i)
    requires s'.st[t] == ZOMBIE ==> HeldLock(s.pc[q]) != Some(WaitLock)
    requires ForkTarget(s.pc[q]) != Some(t)
    requires s.pc[q] == ExitOwn || s.pc[q] == ExitZombie || (s.pc[q].Wake? && s.pc[q].k == ToExitOwn) ==> s'.parent[q] == s.parent[q]
    ensures PcOk(s', q)
  {
    hide Bound, NobodyCommitted, NoKids, Cond;
    if (s.pc[q].SleepWant? || s.pc[q].SleepHas?) {
      OneSlotCond(s, s', t, s.pc[q].ch);
    }
    if (s.pc[q] == ExitOwn || s.pc[q] == ExitZombie) && s.parent[q].Some? {
      OneSlotNobody(s, s', t, Wt(s.parent[q].value));
    }
    if s.pc[q].WaitScan? && s'.st[t] != ZOMBIE {
      OneSlotZombies(s, s', t, q, s.pc[q].i);
    }
  }

  lemma OneSlotZombies(s: State, s': State, t: nat, w: nat, n: nat)
    requires OneSlot(s, s', t) && s'.st[t] != ZOMBIE && NoZombies(s, w, n)
    ensures NoZombies(s', w, n)
  {
    hide Bound;
  }

  lemma OneSlotCond(s: State, s': State, t: nat, ch: Chan)
    requires OneSlot(s, s', t) && (s'.st[t] != ZOMBIE || ch.Sl?) && Cond(s, ch)
    ensures Cond(s', ch)
  {
    hide Bound;
  }

  /** exit() makes p a zombie. */
  lemma Exited(s: State, s': State, p: nat)
    requires Inv(s) && p < |s.pc| && s.pc[p] == ExitZombie && Core(s')
    requires s' == SetState(At(s, p, ExitRel), p, ZOMBIE).(exited := s.exited + [s.pid[p]])
    ensures Inv(s')
  {
    hide Core, Labels, NoLost, Holders, Family, ForksApart, Pids, History;
    LabelAt(s, p);
    CoreAt(s, p);
    OneSlotHolders(s, s', p);
    OneSlotForks(s, s', p);
    ExitedNoLost(s, s', p);
    ExitedLabels(s, s', p);
    ExitedFamily(s, s', p);
    ExitedPids(s, s', p);
    ExitedHistory(s, s', p);
  }

  lemma ExitedNoLost(s: State, s': State, p: nat)
    requires NoLost(s) && OneSlot(s, s', p) && s'.parent == s.parent && s.parent[p].Some? && NobodyCommitted(s, Wt(s.parent[p].value))
    ensures NoLost(s')
  {
    hide Bound, NobodyCommitted, NoLost;
    forall w: nat | NoZombies(s, w, |s.pc|) && !NobodyCommitted(s, Wt(w))
      ensures NoZombies(s', w, |s.pc|)
    {
      assert s.parent[p] != Some(w);
    }
    OneSlotNoLost(s, s', p);
  }

  lemma ExitedLabels(s: State, s': State, p: nat)
    requires Core(s) && Labels(s) && p < |s.pc| && s.pc[p] == ExitZombie && Pids(s)
    requires s' == SetState(At(s, p, ExitRel), p, ZOMBIE).(exited := s.exited + [s.pid[p]])
    ensures Labels(s')
  {
    hide LocksOk, CpusOk, WakeOk, NobodyCommitted;
    forall q | 0 <= q < |s'.pc|
      ensures PcOk(s', q)
    {
      assert PcOk(s, q) && PcOk(s, p);
      CoreAt(s, p);
      if q != p {
        if HeldLock(s.pc[q]) == Some(WaitLock) {
          SoleHolder(s, p, q);
        }
        OneSlotLabel(s, s', p, q);
      }
    }
  }

  lemma ExitedFamily(s: State, s': State, p: nat)
    requires Family(s) && OneSlot(s, s', p) && s'.parent == s.parent && s'.pc[p] != NoThread && s.pc[p] != NoThread && s'.st[p] != UNUSED
    ensures Family(s')
  {
    hide Bound;
  }

  lemma ExitedPids(s: State, s': State, p: nat)
    requires Pids(s) && OneSlot(s, s', p) && s'.pid == s.pid && s'.nextpid == s.nextpid && s.st[p] != UNUSED
    ensures Pids(s')
  {
    hide Bound;
  }

  lemma ExitedHistory(s: State, s': State, p: nat)
    requires Pids(s) && History(s) && OneSlot(s, s', p) && s'.pid == s.pid && s'.nextpid == s.nextpid && s'.reaped == s.reaped
    requires s.st[p] != UNUSED && s.st[p] != ZOMBIE && s'.st[p] == ZOMBIE && s'.exited == s.exited + [s.pid[p]]
    ensures History(s')
  {
    hide Bound;
    assert s'.exited[|s.exited|] == s.pid[p];
    forall x | x in s'.exited && x !in s'.reaped
      ensures exists q :: 0 <= q < |s'.pc| && s'.st[q] == ZOMBIE && s'.pid[q] == x
    {
      if x == s.pid[p] {
        assert s'.st[p] == ZOMBIE && s'.pid[p] == x;
      } else {
        var q :| 0 <= q < |s.pc| && s.st[q] == ZOMBIE && s.pid[q] == x;
        assert s'.st[q] == ZOMBIE && s'.pid[q] == x;
      }
    }
  }

  /** fork() lets the child run. */
  lemma ChildStarts(s: State, s': State, t: nat)
    requires Inv(s) && t < |s.pc| && s.pc[t] == NoThread && s.st[t] == USED && s.parent[t].Some? && Untargeted(s, Some(t))
    requires s' == SetState(At(s, t, YieldOff), t, RUNNABLE) && Core(s')
    ensures Inv(s')
  {
    hide Core, NoLost, Holders, ForksApart, Pids, History, PcOk;
    OneSlotHolders(s, s', t);
    OneSlotForks(s, s', t);
    AliveNoLost(s, s', t);
    ExitedPids(s, s', t);
    LivePid(s, t);
    AliveHistory(s, s', t);
    forall q | 0 <= q < |s'.pc|
      ensures PcOk(s', q)
    {
      assert PcOk(s, q);
      if q == t {
        YieldLabel(s', t);
      } else {
        OneSlotLabel(s, s', t, q);
      }
    }
  }

  lemma LivePid(s: State, t: nat)
    requires History(s) && t < |s.pc| && s.st[t] != ZOMBIE && s.st[t] != UNUSED
    ensures s.pid[t] !in s.exited
  {
  }

  lemma YieldLabel(s: State, t: nat)
    requires Sized(s) && t < |s.pc| && (s.pc[t] == YieldOff || s.pc[t] == NoThread)
    ensures PcOk(s, t)
  {
  }

  lemma AliveNoLost(s: State, s': State, t: nat)
    requires NoLost(s) && OneSlot(s, s', t) && s'.st[t] != ZOMBIE
    ensures NoLost(s')
  {
    hide Bound, NobodyCommitted, NoLost;
    forall w: nat | NoZombies(s, w, |s.pc|)
      ensures NoZombies(s', w, |s.pc|)
    {
      OneSlotZombies(s, s', t, w, |s.pc|);
    }
    OneSlotNoLost(s, s', t);
  }

  lemma AliveHistory(s: State, s': State, t: nat)
    requires History(s) && OneSlot(s, s', t) && s'.exited == s.exited && s'.reaped == s.reaped && s'.nextpid >= s.nextpid
    requires s.st[t] != ZOMBIE && s'.st[t] != ZOMBIE && s'.pid[t] !in s.exited
    ensures History(s')
  {
    hide Bound, Distinct;
    forall x | x in s'.exited && x !in s'.reaped
      ensures exists q :: 0 <= q < |s'.pc| && s'.st[q] == ZOMBIE && s'.pid[q] == x
    {
      var q :| 0 <= q < |s.pc| && s.st[q] == ZOMBIE && s.pid[q] == x;
      assert s'.st[q] == ZOMBIE && s'.pid[q] == x;
    }
  }

  /** allocproc() takes an unused slot, with the next pid. */
  lemma SlotUsed(s: State, s': State, t: nat)
    requires Inv(s) && t < |s.pc| && s.pc[t] == NoThread && s.st[t] == UNUSED
    requires s' == SetState(s, t, USED).(pid := s.pid[t := s.nextpid], nextpid := s.nextpid + 1) && Core(s')
    ensures Inv(s') && Untargeted(s', Some(t))
  {
    hide Core, NoLost, Holders, ForksApart, Pids, History, PcOk;
    NotTargeted(s, t);
    OneSlotHolders(s, s', t);
    OneSlotForks(s, s', t);
    AliveNoLost(s, s', t);
    UsedPids(s, s', t);
    AliveHistory(s, s', t);
    forall q | 0 <= q < |s'.pc|
      ensures PcOk(s', q)
    {
      assert PcOk(s, q);
      if q == t {
        YieldLabel(s', t);
      } else {
        OneSlotLabel(s, s', t, q);
      }
    }
  }

  lemma NotTargeted(s: State, t: nat)
    requires Labels(s) && t < |s.pc| && s.st[t] != USED
    ensures Untargeted(s, Some(t))
  {
    hide NobodyCommitted, NoKids, NoZombies;
    forall q | 0 <= q < |s.pc|
      ensures ForkTarget(s.pc[q]) != Some(t)
    {
      assert PcOk(s, q);
    }
  }

  lemma UsedPids(s: State, s': State, t: nat)
    requires Pids(s) && History(s) && OneSlot(s, s', t) && s'.pid[t] == s.nextpid && s'.nextpid == s.nextpid + 1
    ensures Pids(s') && s'.pid[t] !in s.exited
  {
    hide Bound, Distinct;
  }

  /** wait() frees an exited child and returns its pid. */
  lemma Reaped(s: State, s': State, i: nat)
    requires Inv(s) && i < |s.pc| && s.pc[i] == Dead && s.st[i] == ZOMBIE && i != INIT
    requires forall q :: 0 <= q < |s.pc| && s.pc[q].WaitScan? ==> s.pc[q].i <= i || s.parent[i] != Some(q)
    requires s' == Freed(s, i).(reaped := s.reaped + [s.pid[i]]) && Core(s')
    ensures Inv(s')
  {
    hide Core, NoLost, Holders, ForksApart, Pids, History, PcOk, NoKids;
    NotTargeted(s, i);
    OneSlotHolders(s, s', i);
    OneSlotForks(s, s', i);
    AliveNoLost(s, s', i);
    ReapedPids(s, s', i);
    ReapedHistory(s, s', i);
    assert PcOk(s, i);
    ReapedFamily(s, s', i);
    forall q | 0 <= q < |s'.pc|
      ensures PcOk(s', q)
    {
      assert PcOk(s, q);
      if q == i {
        YieldLabel(s', i);
      } else {
        FewerKids(s, s', i, q);
        if s.pc[q].WaitScan? {
          SameKids(s, s', i, q, s.pc[q].i);
        }
        OneSlotLabel(s, s', i, q);
      }
    }
  }

  lemma SameKids(s: State, s': State, t: nat, w: nat, n: nat)
    requires Sized(s) && Sized(s') && |s'.pc| == |s.pc| && t < |s.pc| && s'.parent == s.parent[t := None]
    requires n <= t || s.parent[t] != Some(w)
    ensures NoKids(s', w, n) ==> NoKids(s, w, n)
  {
    if NoKids(s', w, n) {
      forall j | 0 <= j < n && j < |s.pc|
        ensures s.parent[j] != Some(w)
      {
        assert s'.parent[j] != Some(w);
      }
    }
  }

  lemma FewerKids(s: State, s': State, t: nat, q: nat)
    requires OneSlot(s, s', t) && s'.parent[t] == None
    ensures forall n: nat :: NoKids(s, q, n) ==> NoKids(s', q, n)
  {
    hide Bound;
  }

  lemma ReapedFamily(s: State, s': State, i: nat)
    requires Family(s) && OneSlot(s, s', i) && s'.parent[i] == None && s'.pc[i] == NoThread && i != INIT && s.pc[i] == Dead && PcOk(s, i)
    ensures Family(s')
  {
    hide Bound;
  }

  lemma ReapedPids(s: State, s': State, i: nat)
    requires Pids(s) && OneSlot(s, s', i) && s'.st[i] == UNUSED && s'.nextpid == s.nextpid
    ensures Pids(s')
  {
    hide Bound;
  }

  lemma ReapedHistory(s: State, s': State, i: nat)
    requires Pids(s) && History(s) && OneSlot(s, s', i) && s.st[i] == ZOMBIE && s'.st[i] == UNUSED
    requires s'.exited == s.exited && s'.nextpid == s.nextpid && s'.reaped == s.reaped + [s.pid[i]]
    ensures History(s')
  {
    hide Bound;
    assert s'.reaped[|s.reaped|] == s.pid[i];
    forall x | x in s'.exited && x !in s'.reaped
      ensures exists q :: 0 <= q < |s'.pc| && s'.st[q] == ZOMBIE && s'.pid[q] == x
    {
      assert x !in s.reaped;
      var q :| 0 <= q < |s.pc| && s.st[q] == ZOMBIE && s.pid[q] == x;
      assert s'.st[q] == ZOMBIE && s'.pid[q] == x;
    }
  }

  /** A failed fork() uses up a pid. */
  lemma PidSkipped(s: State)
    requires Inv(s)
    ensures Inv(s.(nextpid := s.nextpid + 1))
  {
    hide Core, Labels, NoLost, Holders, Family, ForksApart, Pids, History;
    CoreSized(s);
    var s' := s.(nextpid := s.nextpid + 1);
    SameCore(s, s');
    SameFamily(s, s');
    SameHolders(s, s');
    LockTakenLabels(s, s');
    LockTakenNoLost(s, s');
    SamePids(s, s');
  }
}
