/** Processes, CPUs and their locks as a state machine.

    Any number of CPUs run any number of processes. A step is what one CPU does
    between two points where another one can get in: taking or dropping one lock,
    or a section that takes a single p->lock, looks and changes, and drops it.
    sleep() is split at every lock operation, and wakeup() visits one process at a
    time. swtch() hands p->lock over between a process and the scheduler. */
module SleepWakeup {
  import opened Basics

  datatype ProcState = UNUSED | USED | SLEEPING | RUNNABLE | RUNNING | ZOMBIE

  /** What processes sleep on: a sleep-lock, or, in wait(), themselves. */
  datatype Chan = Sl(lock: nat) | Wt(proc: nat)

  /** The condition locks: the spinlock inside each sleep-lock, and wait_lock. */
  datatype Lock = Inner(lock: nat) | WaitLock

  function LockOf(ch: Chan): Lock {
    match ch
    case Sl(l) => Inner(l)
    case Wt(_) => WaitLock
  }

  /** Where to go on after wakeup(). */
  datatype Cont = ToRelDone(lock: nat) | ToExitScan(i: nat) | ToExitOwn

  /** Where a process is. */
  datatype Pc =
    | NoThread
    | User
    // sleep()
    | SleepWant(ch: Chan) | SleepHas(ch: Chan) | SleepSet(ch: Chan) | SleepSched(ch: Chan) | SleepOff(ch: Chan)
    | SleepBack(ch: Chan) | SleepDrop(ch: Chan) | SleepAgain(ch: Chan)
    // wakeup(), at process i of its scan
    | Wake(ch: Chan, i: nat, k: Cont)
    // acquiresleep() and releasesleep()
    | AcqWant(lock: nat) | AcqTest(lock: nat) | AcqDone(lock: nat)
    | RelWant(lock: nat) | RelClear(lock: nat) | RelDone(lock: nat)
    // yield(), and the first run of a forked process
    | YieldSched | YieldOff | YieldBack
    // fork(), with the child's slot
    | ForkParent(child: nat) | ForkRun(child: nat)
    // exit(), with the child the scan has reached
    | ExitWant | ExitScan(i: nat) | ExitWake | ExitOwn | ExitZombie | ExitRel | ExitSched | Dead
    // wait(), with the slot the scan has reached
    | WaitWant | WaitScan(i: nat, kids: bool)

  /** Who holds p->lock: nobody, p itself, or the scheduler p has switched to. */
  datatype PLock = Open | Own | ByCpu(c: nat)

  datatype Cpu = Idle | Runs(p: nat) | Back(p: nat)

  const INIT: nat := 0

  datatype State = State(
    st: seq<ProcState>, chan: seq<Option<Chan>>, killed: seq<bool>, pid: seq<nat>, parent: seq<Option<nat>>,
    plock: seq<PLock>, pc: seq<Pc>, cpu: seq<Cpu>,
    lk: map<Lock, nat>,
    locked: map<nat, nat>,
    nextpid: nat,
    holding: set<(nat, nat)>, exited: seq<nat>, reaped: seq<nat>)

  // ------------------------------------------------------------------- steps

  /** c is the CPU that makes the step, p the process it runs. */
  datatype Event =
    | Dispatch(c: nat, t: nat)
    | DropBack(c: nat)
    | StartAcquire(c: nat, lock: nat)
    | StartRelease(c: nat, lock: nat)
    | StartYield(c: nat)
    | StartWait(c: nat)
    | StartExit(c: nat)
    | Kill(c: nat, t: nat)
    | Fork(c: nat, t: nat)
    | ForkFail(c: nat)
    | WaitFail(c: nat)
    | Continue(c: nat)

  ghost predicate Sized(s: State) {
    |s.st| == |s.chan| == |s.killed| == |s.pid| == |s.parent| == |s.plock| == |s.pc|
  }

  predicate IsRunning(s: State, c: nat) {
    c < |s.cpu| && s.cpu[c].Runs? && s.cpu[c].p < |s.pc|
  }

  function At(s: State, p: nat, pc: Pc): State
    requires p < |s.pc|
  {
    s.(pc := s.pc[p := pc])
  }

  /** acquire() of a condition lock. */
  function Locked(s: State, l: Lock, p: nat): State {
    s.(lk := s.lk[l := p])
  }

  function Unlocked(s: State, l: Lock): State {
    s.(lk := s.lk - {l})
  }

  function SetLock(s: State, p: nat, v: PLock): State
    requires p < |s.plock|
  {
    s.(plock := s.plock[p := v])
  }

  function SetState(s: State, p: nat, v: ProcState): State
    requires p < |s.st|
  {
    s.(st := s.st[p := v])
  }

  /** swtch() from process p, running on CPU c, to the scheduler. */
  function Switch(s: State, c: nat, p: nat, pc: Pc): State
    requires c < |s.cpu| && p < |s.pc| && p < |s.plock|
  {
    SetLock(At(s, p, pc), p, ByCpu(c)).(cpu := s.cpu[c := Back(p)])
  }

  /** Can the step be made? */
  ghost predicate Can(s: State, e: Event)
    requires Sized(s)
  {
    match e
    case Dispatch(c, t) =>
      c < |s.cpu| && s.cpu[c] == Idle && t < |s.pc| && s.plock[t] == Open && s.st[t] == RUNNABLE
    case DropBack(c) => c < |s.cpu| && s.cpu[c].Back? && s.cpu[c].p < |s.pc|
    case StartAcquire(c, l) => IsRunning(s, c) && s.pc[s.cpu[c].p] == User && (s.cpu[c].p, l) !in s.holding
    case StartRelease(c, l) => IsRunning(s, c) && s.pc[s.cpu[c].p] == User && (s.cpu[c].p, l) in s.holding
    case StartYield(c) => IsRunning(s, c) && s.pc[s.cpu[c].p] == User && s.plock[s.cpu[c].p] == Open
    case StartWait(c) => IsRunning(s, c) && s.pc[s.cpu[c].p] == User
    case StartExit(c) =>
      IsRunning(s, c) && s.pc[s.cpu[c].p] == User && s.cpu[c].p != INIT && forall l :: (s.cpu[c].p, l) !in s.holding
    case Kill(c, t) => IsRunning(s, c) && s.pc[s.cpu[c].p] == User && t < |s.pc| && s.plock[t] == Open
    case Fork(c, t) => IsRunning(s, c) && s.pc[s.cpu[c].p] == User && t < |s.pc| && s.plock[t] == Open && s.st[t] == UNUSED
    case ForkFail(c) => IsRunning(s, c) && s.pc[s.cpu[c].p] == User
    case WaitFail(c) => IsRunning(s, c) && FoundZombie(s, s.cpu[c].p)
    case Continue(c) => IsRunning(s, c) && Ready(s, s.cpu[c].p)
  }

  /** wait() has reached an exited child; if copyout() fails it gives up there. */
  ghost predicate FoundZombie(s: State, p: nat)
    requires Sized(s) && p < |s.pc|
  {
    && s.pc[p].WaitScan? && s.pc[p].i < |s.pc|
    && s.parent[s.pc[p].i] == Some(p) && s.plock[s.pc[p].i] == Open && s.st[s.pc[p].i] == ZOMBIE
  }

  /** Is what the process does next possible now, or does it have to spin? */
  ghost predicate Ready(s: State, p: nat)
    requires Sized(s) && p < |s.pc|
  {
    match s.pc[p]
    case SleepWant(_) => s.plock[p] == Open
    case SleepHas(_) => true
    case SleepSet(_) => true
    case SleepSched(_) => true
    case SleepBack(_) => true
    case SleepDrop(_) => true
    case SleepAgain(ch) => LockOf(ch) !in s.lk
    case Wake(_, i, _) => i < |s.pc| && i != p ==> s.plock[i] == Open
    case AcqWant(l) => Inner(l) !in s.lk
    case AcqTest(_) => true
    case AcqDone(_) => true
    case RelWant(l) => Inner(l) !in s.lk
    case RelClear(_) => true
    case RelDone(_) => true
    case YieldSched => true
    case YieldBack => true
    case ForkParent(t) => WaitLock !in s.lk && t < |s.pc|
    case ForkRun(t) => t < |s.pc| && s.plock[t] == Open
    case ExitWant => WaitLock !in s.lk
    case ExitScan(_) => true
    case ExitWake => s.parent[p].Some?
    case ExitOwn => s.plock[p] == Open
    case ExitZombie => true
    case ExitRel => true
    case ExitSched => true
    case WaitWant => WaitLock !in s.lk
    case WaitScan(i, _) => i < |s.pc| && s.parent[i] == Some(p) ==> s.plock[i] == Open
    case _ => false
  }

  function Resume(pc: Pc): Pc {
    match pc
    case SleepOff(ch) => SleepBack(ch)
    case _ => YieldBack
  }

  function AfterSleep(ch: Chan): Pc {
    match ch
    case Sl(l) => AcqTest(l)
    case Wt(_) => WaitScan(0, false)
  }

  function AfterWake(k: Cont): Pc {
    match k
    case ToRelDone(l) => RelDone(l)
    case ToExitScan(i) => ExitScan(i)
    case ToExitOwn => ExitOwn
  }

  /** wakeup() at process i. */
  function Woken(s: State, i: nat, ch: Chan): State
    requires i < |s.st| && i < |s.chan|
  {
    if s.st[i] == SLEEPING && s.chan[i] == Some(ch) then SetState(s, i, RUNNABLE) else s
  }

  /** freeproc(), as far as it matters here. */
  function Freed(s: State, i: nat): State
    requires Sized(s) && i < |s.pc|
  {
    s.(st := s.st[i := UNUSED], pid := s.pid[i := 0], parent := s.parent[i := None],
       chan := s.chan[i := None], killed := s.killed[i := false], pc := s.pc[i := NoThread])
  }

  ghost function Do(s: State, e: Event): State
    requires Sized(s) && Can(s, e)
  {
    match e
    case Dispatch(c, t) =>
      SetLock(SetState(At(s, t, Resume(s.pc[t])), t, RUNNING), t, Own).(cpu := s.cpu[c := Runs(t)])
    case DropBack(c) => SetLock(s, s.cpu[c].p, Open).(cpu := s.cpu[c := Idle])
    case StartAcquire(c, l) => At(s, s.cpu[c].p, AcqWant(l))
    case StartRelease(c, l) => At(s, s.cpu[c].p, RelWant(l))
    case StartYield(c) => SetState(SetLock(At(s, s.cpu[c].p, YieldSched), s.cpu[c].p, Own), s.cpu[c].p, RUNNABLE)
    case StartWait(c) => At(s, s.cpu[c].p, WaitWant)
    case StartExit(c) => At(s, s.cpu[c].p, ExitWant)
    case Kill(c, t) =>
      var s1 := s.(killed := s.killed[t := true]);
      if s.st[t] == SLEEPING then SetState(s1, t, RUNNABLE) else s1
    case Fork(c, t) =>
      var s1 := SetState(s, t, USED).(pid := s.pid[t := s.nextpid], nextpid := s.nextpid + 1);
      At(s1, s.cpu[c].p, ForkParent(t))
    case ForkFail(c) => s.(nextpid := s.nextpid + 1)
    case WaitFail(c) => At(Unlocked(s, WaitLock), s.cpu[c].p, User)
    case Continue(c) => Run(s, c, s.cpu[c].p)
  }

  ghost function Run(s: State, c: nat, p: nat): State
    requires Sized(s) && p < |s.pc| && c < |s.cpu| && Ready(s, p)
  {
    match s.pc[p]
    case SleepWant(ch) => SetLock(At(s, p, SleepHas(ch)), p, Own)
    case SleepHas(ch) => Unlocked(At(s, p, SleepSet(ch)), LockOf(ch))
    case SleepSet(ch) => SetState(At(s, p, SleepSched(ch)), p, SLEEPING).(chan := s.chan[p := Some(ch)])
    case SleepSched(ch) => Switch(s, c, p, SleepOff(ch))
    case SleepBack(ch) => At(s, p, SleepDrop(ch)).(chan := s.chan[p := None])
    case SleepDrop(ch) => SetLock(At(s, p, SleepAgain(ch)), p, Open)
    case SleepAgain(ch) => Locked(At(s, p, AfterSleep(ch)), LockOf(ch), p)
    case Wake(ch, i, k) =>
      if i >= |s.pc| then At(s, p, AfterWake(k))
      else if i == p then At(s, p, Wake(ch, i + 1, k))
      else At(Woken(s, i, ch), p, Wake(ch, i + 1, k))
    case AcqWant(l) => Locked(At(s, p, AcqTest(l)), Inner(l), p)
    case AcqTest(l) =>
      if l in s.locked then At(s, p, SleepWant(Sl(l)))
      else At(s, p, AcqDone(l)).(locked := s.locked[l := s.pid[p]], holding := s.holding + {(p, l)})
    case AcqDone(l) => Unlocked(At(s, p, User), Inner(l))
    case RelWant(l) => Locked(At(s, p, RelClear(l)), Inner(l), p)
    case RelClear(l) =>
      At(s, p, Wake(Sl(l), 0, ToRelDone(l))).(locked := s.locked - {l}, holding := s.holding - {(p, l)})
    case RelDone(l) => Unlocked(At(s, p, User), Inner(l))
    case YieldSched => Switch(s, c, p, YieldOff)
    case YieldBack => SetLock(At(s, p, User), p, Open)
    case ForkParent(t) => At(s, p, ForkRun(t)).(parent := s.parent[t := Some(p)])
    case ForkRun(t) => At(SetState(At(s, t, YieldOff), t, RUNNABLE), p, User)
    case ExitWant => Locked(At(s, p, ExitScan(0)), WaitLock, p)
    case ExitScan(i) =>
      if i >= |s.pc| then At(s, p, ExitWake)
      else if s.parent[i] == Some(p) then
        At(s, p, Wake(Wt(INIT), 0, ToExitScan(i + 1))).(parent := s.parent[i := Some(INIT)])
      else At(s, p, ExitScan(i + 1))
    case ExitWake => At(s, p, Wake(Wt(s.parent[p].value), 0, ToExitOwn))
    case ExitOwn => SetLock(At(s, p, ExitZombie), p, Own)
    case ExitZombie => SetState(At(s, p, ExitRel), p, ZOMBIE).(exited := s.exited + [s.pid[p]])
    case ExitRel => Unlocked(At(s, p, ExitSched), WaitLock)
    case ExitSched => Switch(s, c, p, Dead)
    case WaitWant => Locked(At(s, p, WaitScan(0, false)), WaitLock, p)
    case WaitScan(i, kids) =>
      if i >= |s.pc| then
        if !kids || s.killed[p] then Unlocked(At(s, p, User), WaitLock) else At(s, p, SleepWant(Wt(p)))
      else if s.parent[i] != Some(p) then At(s, p, WaitScan(i + 1, kids))
      else if s.st[i] == ZOMBIE then
        var s1 := Freed(s, i);
        Unlocked(At(s1, p, User), WaitLock).(reaped := s.reaped + [s.pid[i]])
      else At(s, p, WaitScan(i + 1, true))
    case _ => s
  }

  // -------------------------------------------------- which locks are held where

  /** p->lock is held by p itself. */
  predicate OwnsLock(pc: Pc) {
    || pc.SleepHas? || pc.SleepSet? || pc.SleepSched? || pc.SleepBack? || pc.SleepDrop?
    || pc == YieldSched || pc == YieldBack
    || pc == ExitZombie || pc == ExitRel || pc == ExitSched
  }

  /** The condition lock held there, if any. */
  function HeldLock(pc: Pc): Option<Lock> {
    match pc
    case SleepWant(ch) => Some(LockOf(ch))
    case SleepHas(ch) => Some(LockOf(ch))
    case Wake(ch, _, _) => Some(LockOf(ch))
    case AcqTest(l) => Some(Inner(l))
    case AcqDone(l) => Some(Inner(l))
    case RelClear(l) => Some(Inner(l))
    case RelDone(l) => Some(Inner(l))
    case ExitScan(_) => Some(WaitLock)
    case ExitWake => Some(WaitLock)
    case ExitOwn => Some(WaitLock)
    case ExitZombie => Some(WaitLock)
    case ExitRel => Some(WaitLock)
    case WaitScan(_, _) => Some(WaitLock)
    case _ => None
  }

  /** The state of a process that is at pc, and its channel. */
  predicate StateOk(st: ProcState, chan: Option<Chan>, pc: Pc) {
    match pc
    case NoThread => st == UNUSED || st == USED
    case SleepSched(ch) => st == SLEEPING && chan == Some(ch)
    case SleepOff(ch) => (st == SLEEPING || st == RUNNABLE) && chan == Some(ch)
    case YieldSched => st == RUNNABLE
    case YieldOff => st == RUNNABLE
    case ExitRel => st == ZOMBIE
    case ExitSched => st == ZOMBIE
    case Dead => st == ZOMBIE
    case _ => st == RUNNING
  }

  /** Switched out. */
  predicate Off(pc: Pc) {
    pc == NoThread || pc.SleepOff? || pc == YieldOff || pc == Dead
  }

  ghost predicate LocksOk(s: State) {
    && Sized(s)
    && (forall p :: 0 <= p < |s.pc| ==> (s.plock[p] == Own <==> OwnsLock(s.pc[p])))
    && (forall p :: 0 <= p < |s.pc| && s.plock[p].ByCpu? ==>
          s.plock[p].c < |s.cpu| && s.cpu[s.plock[p].c] == Back(p) && Off(s.pc[p]))
    && (forall c :: 0 <= c < |s.cpu| && s.cpu[c].Back? ==> s.cpu[c].p < |s.pc| && s.plock[s.cpu[c].p] == ByCpu(c))
    && (forall l :: l in s.lk ==> s.lk[l] < |s.pc| && HeldLock(s.pc[s.lk[l]]) == Some(l))
    && (forall p :: 0 <= p < |s.pc| && HeldLock(s.pc[p]).Some? ==>
          HeldLock(s.pc[p]).value in s.lk && s.lk[HeldLock(s.pc[p]).value] == p)
  }

  ghost predicate CpusOk(s: State) {
    && Sized(s)
    && (forall p :: 0 <= p < |s.pc| ==> StateOk(s.st[p], s.chan[p], s.pc[p]))
    && (forall c :: 0 <= c < |s.cpu| && s.cpu[c].Runs? ==> s.cpu[c].p < |s.pc| && !Off(s.pc[s.cpu[c].p]))
    && (forall c, d :: 0 <= c < d < |s.cpu| && s.cpu[c].Runs? && s.cpu[d].Runs? ==> s.cpu[c].p != s.cpu[d].p)
  }

  // ------------------------------------------------------------- no lost wakeup

  /** The channel a process has decided to sleep on, once it has let go of the
      condition lock and until it is woken. */
  function Bound(st: ProcState, pc: Pc): Option<Chan> {
    match pc
    case SleepSet(ch) => Some(ch)
    case SleepSched(ch) => Some(ch)
    case SleepOff(ch) => if st == SLEEPING then Some(ch) else None
    case _ => None
  }

  predicate Committed(s: State, p: nat, ch: Chan)
    requires p < |s.pc| && p < |s.st|
  {
    Bound(s.st[p], s.pc[p]) == Some(ch)
  }

  /** Nobody whom wakeup() has passed is committed to its channel. */
  ghost predicate WakeOk(s: State) {
    && Sized(s)
    && forall q, p {:trigger s.pc[q], s.pc[p]} :: 0 <= q < |s.pc| && 0 <= p < |s.pc| && s.pc[q].Wake? && p < s.pc[q].i ==>
         !Committed(s, p, s.pc[q].ch)
  }

  ghost predicate Core(s: State) {
    LocksOk(s) && CpusOk(s) && WakeOk(s)
  }

  // ------------------------------------------------------- one change at a time

  predicate Updated<T(==)>(a: seq<T>, b: seq<T>, p: nat) {
    p < |a| && |a| == |b| && (b == a || b == a[p := b[p]])
  }

  /** Only process p changes: where it is, its state, its channel. */
  ghost predicate OnlyProc(s: State, s': State, p: nat) {
    Sized(s) && Sized(s') && Updated(s.pc, s'.pc, p) && Updated(s.st, s'.st, p) && Updated(s.chan, s'.chan, p)
  }

  /** p may be where it is in s'. */
  ghost predicate Placed(s: State, s': State, p: nat) {
    && OnlyProc(s, s', p)
    && StateOk(s'.st[p], s'.chan[p], s'.pc[p])
    && (s'.pc[p].Wake? ==> s'.pc[p].i == 0)
    && var b := Bound(s'.st[p], s'.pc[p]);
       b == None || b == Bound(s.st[p], s.pc[p]) || (HeldLock(s.pc[p]) == Some(LockOf(b.value)) && !s.pc[p].Wake?)
  }

  lemma LocksMove(s: State, s': State, p: nat)
    requires LocksOk(s) && Sized(s') && Updated(s.pc, s'.pc, p) && s'.plock == s.plock && s'.cpu == s.cpu && s'.lk == s.lk
    requires OwnsLock(s'.pc[p]) == OwnsLock(s.pc[p]) && HeldLock(s'.pc[p]) == HeldLock(s.pc[p])
    requires Off(s.pc[p]) ==> Off(s'.pc[p])
    ensures LocksOk(s')
  {
    hide OwnsLock, HeldLock, Off;
  }

  lemma LocksTakeOwn(s: State, s': State, p: nat)
    requires LocksOk(s) && Sized(s') && Updated(s.pc, s'.pc, p) && s.plock[p] == Open && s'.plock == s.plock[p := Own]
    requires s'.cpu == s.cpu && s'.lk == s.lk
    requires OwnsLock(s'.pc[p]) && HeldLock(s'.pc[p]) == HeldLock(s.pc[p])
    ensures LocksOk(s')
  {
    hide OwnsLock, HeldLock, Off;
  }

  lemma LocksDropOwn(s: State, s': State, p: nat)
    requires LocksOk(s) && Sized(s') && Updated(s.pc, s'.pc, p) && s.plock[p] == Own && s'.plock == s.plock[p := Open]
    requires s'.cpu == s.cpu && s'.lk == s.lk
    requires !OwnsLock(s'.pc[p]) && HeldLock(s'.pc[p]) == HeldLock(s.pc[p])
    ensures LocksOk(s')
  {
    hide OwnsLock, HeldLock, Off;
  }

  lemma LocksTake(s: State, s': State, p: nat, l: Lock)
    requires LocksOk(s) && Sized(s') && Updated(s.pc, s'.pc, p) && l !in s.lk && s'.lk == s.lk[l := p]
    requires s'.cpu == s.cpu && s'.plock == s.plock && !Off(s.pc[p])
    requires OwnsLock(s'.pc[p]) == OwnsLock(s.pc[p]) && HeldLock(s.pc[p]) == None && HeldLock(s'.pc[p]) == Some(l)
    ensures LocksOk(s')
  {
    hide OwnsLock, HeldLock, Off;
  }

  lemma LocksDrop(s: State, s': State, p: nat, l: Lock)
    requires LocksOk(s) && Sized(s') && Updated(s.pc, s'.pc, p) && s'.lk == s.lk - {l}
    requires s'.cpu == s.cpu && s'.plock == s.plock && !Off(s.pc[p])
    requires OwnsLock(s'.pc[p]) == OwnsLock(s.pc[p]) && HeldLock(s.pc[p]) == Some(l) && HeldLock(s'.pc[p]) == None
    ensures LocksOk(s')
  {
    hide OwnsLock, HeldLock, Off;
  }

  lemma LocksSwitch(s: State, s': State, c: nat, p: nat)
    requires LocksOk(s) && Sized(s') && Updated(s.pc, s'.pc, p) && c < |s.cpu| && s.cpu[c] == Runs(p) && s.plock[p] == Own
    requires s'.cpu == s.cpu[c := Back(p)] && s'.plock == s.plock[p := ByCpu(c)] && s'.lk == s.lk
    requires Off(s'.pc[p]) && !OwnsLock(s'.pc[p]) && HeldLock(s.pc[p]) == None && HeldLock(s'.pc[p]) == None
    ensures LocksOk(s')
  {
    hide OwnsLock, HeldLock, Off;
  }

  lemma LocksDispatch(s: State, s': State, c: nat, p: nat)
    requires LocksOk(s) && Sized(s') && Updated(s.pc, s'.pc, p) && c < |s.cpu| && s.cpu[c] == Idle && s.plock[p] == Open
    requires s'.cpu == s.cpu[c := Runs(p)] && s'.plock == s.plock[p := Own] && s'.lk == s.lk
    requires OwnsLock(s'.pc[p]) && HeldLock(s.pc[p]) == None && HeldLock(s'.pc[p]) == None
    ensures LocksOk(s')
  {
    hide OwnsLock, HeldLock, Off;
  }

  lemma LocksBack(s: State, s': State, c: nat)
    requires LocksOk(s) && Sized(s') && c < |s.cpu| && s.cpu[c].Back? && s.cpu[c].p < |s.pc|
    requires s'.cpu == s.cpu[c := Idle] && s'.plock == s.plock[s.cpu[c].p := Open] && s'.lk == s.lk && s'.pc == s.pc
    ensures LocksOk(s')
  {
    hide OwnsLock, HeldLock, Off;
  }

  lemma CpusMove(s: State, s': State, p: nat)
    requires CpusOk(s) && OnlyProc(s, s', p) && s'.cpu == s.cpu
    requires StateOk(s'.st[p], s'.chan[p], s'.pc[p]) && (Off(s'.pc[p]) ==> Off(s.pc[p]))
    ensures CpusOk(s')
  {
    hide StateOk, Off;
  }

  lemma CpusSwitch(s: State, s': State, c: nat, p: nat)
    requires CpusOk(s) && OnlyProc(s, s', p) && c < |s.cpu| && s.cpu[c] == Runs(p) && s'.cpu == s.cpu[c := Back(p)]
    requires StateOk(s'.st[p], s'.chan[p], s'.pc[p])
    ensures CpusOk(s')
  {
    hide StateOk, Off;
  }

  lemma CpusDispatch(s: State, s': State, c: nat, p: nat)
    requires CpusOk(s) && OnlyProc(s, s', p) && c < |s.cpu| && s'.cpu == s.cpu[c := Runs(p)] && Off(s.pc[p])
    requires StateOk(s'.st[p], s'.chan[p], s'.pc[p]) && !Off(s'.pc[p])
    ensures CpusOk(s')
  {
    hide StateOk, Off;
  }

  lemma CpusBack(s: State, s': State, c: nat)
    requires CpusOk(s) && Sized(s') && c < |s.cpu| && s'.cpu == s.cpu[c := Idle]
    requires s'.st == s.st && s'.chan == s.chan && s'.pc == s.pc
    ensures CpusOk(s')
  {
    hide StateOk, Off;
  }

  /** Only one process can hold a condition lock. */
  lemma SoleHolder(s: State, p: nat, q: nat)
    requires LocksOk(s) && p < |s.pc| && q < |s.pc| && HeldLock(s.pc[p]).Some? && HeldLock(s.pc[q]) == HeldLock(s.pc[p])
    ensures p == q
  {
  }

  /** p does not decide to sleep behind the back of a waker. */
  lemma WakeMove(s: State, s': State, p: nat)
    requires WakeOk(s) && Placed(s, s', p) && LocksOk(s)
    ensures WakeOk(s')
  {
    hide LocksOk, StateOk, Bound;
    forall q, r | 0 <= q < |s'.pc| && 0 <= r < |s'.pc| && s'.pc[q].Wake? && r < s'.pc[q].i
      ensures !Committed(s', r, s'.pc[q].ch)
    {
      var ch := s'.pc[q].ch;
      assert s.pc[q] == s'.pc[q] && !Committed(s, r, ch);
      if r == p && HeldLock(s.pc[p]) == Some(LockOf(ch)) && !s.pc[p].Wake? {
        SoleHolder(s, p, q);
      }
    }
  }

  /** wakeup() has dealt with process i. */
  lemma WakeNext(s: State, s': State, p: nat, ch: Chan, i: nat, k: Cont)
    requires WakeOk(s) && Sized(s') && p < |s.pc| && s.pc[p] == Wake(ch, i, k) && s'.pc == s.pc[p := Wake(ch, i + 1, k)]
    requires s'.st == s.st && (i < |s.pc| ==> !Committed(s', i, ch))
    ensures WakeOk(s')
  {
    forall q, r | 0 <= q < |s'.pc| && 0 <= r < |s'.pc| && s'.pc[q].Wake? && r < s'.pc[q].i
      ensures !Committed(s', r, s'.pc[q].ch)
    {
      assert s.pc[q].Wake? && s'.pc[q].ch == s.pc[q].ch;
      assert r < s.pc[q].i ==> !Committed(s, r, s.pc[q].ch);
    }
  }

  // ------------------------------------------------- the same for all of Core

  /** p moves on, with the locks it has. */
  lemma CoreMove(s: State, s': State, p: nat)
    requires Core(s) && Placed(s, s', p) && s'.plock == s.plock && s'.cpu == s.cpu && s'.lk == s.lk
    requires OwnsLock(s'.pc[p]) == OwnsLock(s.pc[p]) && HeldLock(s'.pc[p]) == HeldLock(s.pc[p]) && Off(s.pc[p]) == Off(s'.pc[p])
    ensures Core(s')
  {
    hide LocksOk, CpusOk, WakeOk, OwnsLock, HeldLock, Off, StateOk, Bound;
    LocksMove(s, s', p);
    CpusMove(s, s', p);
    WakeMove(s, s', p);
  }

  lemma CoreTakeOwn(s: State, s': State, p: nat)
    requires Core(s) && Placed(s, s', p) && s.plock[p] == Open && s'.plock == s.plock[p := Own] && s'.cpu == s.cpu && s'.lk == s.lk
    requires OwnsLock(s'.pc[p]) && HeldLock(s'.pc[p]) == HeldLock(s.pc[p]) && !Off(s'.pc[p])
    ensures Core(s')
  {
    hide LocksOk, CpusOk, WakeOk, OwnsLock, HeldLock, Off, StateOk, Bound;
    LocksTakeOwn(s, s', p);
    CpusMove(s, s', p);
    WakeMove(s, s', p);
  }

  lemma CoreDropOwn(s: State, s': State, p: nat)
    requires Core(s) && Placed(s, s', p) && s.plock[p] == Own && s'.plock == s.plock[p := Open] && s'.cpu == s.cpu && s'.lk == s.lk
    requires !OwnsLock(s'.pc[p]) && HeldLock(s'.pc[p]) == HeldLock(s.pc[p]) && !Off(s'.pc[p])
    ensures Core(s')
  {
    hide LocksOk, CpusOk, WakeOk, OwnsLock, HeldLock, Off, StateOk, Bound;
    LocksDropOwn(s, s', p);
    CpusMove(s, s', p);
    WakeMove(s, s', p);
  }

  lemma CoreTake(s: State, s': State, p: nat, l: Lock)
    requires Core(s) && Placed(s, s', p) && l !in s.lk && s'.lk == s.lk[l := p] && s'.cpu == s.cpu && s'.plock == s.plock
    requires OwnsLock(s'.pc[p]) == OwnsLock(s.pc[p]) && HeldLock(s.pc[p]) == None && HeldLock(s'.pc[p]) == Some(l)
    requires !Off(s.pc[p]) && !Off(s'.pc[p])
    ensures Core(s')
  {
    hide LocksOk, CpusOk, WakeOk, OwnsLock, HeldLock, Off, StateOk, Bound;
    LocksTake(s, s', p, l);
    CpusMove(s, s', p);
    WakeMove(s, s', p);
  }

  lemma CoreDrop(s: State, s': State, p: nat, l: Lock)
    requires Core(s) && Placed(s, s', p) && s'.lk == s.lk - {l} && s'.cpu == s.cpu && s'.plock == s.plock
    requires OwnsLock(s'.pc[p]) == OwnsLock(s.pc[p]) && HeldLock(s.pc[p]) == Some(l) && HeldLock(s'.pc[p]) == None
    requires !Off(s.pc[p]) && !Off(s'.pc[p])
    ensures Core(s')
  {
    hide LocksOk, CpusOk, WakeOk, OwnsLock, HeldLock, Off, StateOk, Bound;
    LocksDrop(s, s', p, l);
    CpusMove(s, s', p);
    WakeMove(s, s', p);
  }

  lemma CoreSwitch(s: State, s': State, c: nat, p: nat)
    requires Core(s) && Placed(s, s', p) && c < |s.cpu| && s.cpu[c] == Runs(p) && s.plock[p] == Own
    requires s'.cpu == s.cpu[c := Back(p)] && s'.plock == s.plock[p := ByCpu(c)] && s'.lk == s.lk
    requires Off(s'.pc[p]) && !OwnsLock(s'.pc[p]) && HeldLock(s.pc[p]) == None && HeldLock(s'.pc[p]) == None
    ensures Core(s')
  {
    hide LocksOk, CpusOk, WakeOk, OwnsLock, HeldLock, Off, StateOk, Bound;
    LocksSwitch(s, s', c, p);
    CpusSwitch(s, s', c, p);
    WakeMove(s, s', p);
  }

  /** Core does not look at the rest of the state. */
  lemma CoreData(s: State, s': State)
    requires Core(s) && Sized(s') && s'.st == s.st && s'.chan == s.chan && s'.pc == s.pc && s'.plock == s.plock
    requires s'.cpu == s.cpu && s'.lk == s.lk
    ensures Core(s')
  {
    hide LocksOk, CpusOk, WakeOk, OwnsLock, HeldLock, Off, StateOk, Bound;
    SameLocks(s, s');
    SameCpus(s, s');
    SameWake(s, s');
  }

  lemma SameLocks(s: State, s': State)
    requires LocksOk(s) && Sized(s') && s'.pc == s.pc && s'.plock == s.plock && s'.cpu == s.cpu && s'.lk == s.lk
    ensures LocksOk(s')
  {
    hide OwnsLock, HeldLock, Off;
  }

  lemma SameCpus(s: State, s': State)
    requires CpusOk(s) && Sized(s') && s'.pc == s.pc && s'.st == s.st && s'.chan == s.chan && s'.cpu == s.cpu
    ensures CpusOk(s')
  {
    hide StateOk, Off;
  }

  lemma SameWake(s: State, s': State)
    requires WakeOk(s) && Sized(s') && s'.pc == s.pc && s'.st == s.st
    ensures WakeOk(s')
  {
    forall q, r | 0 <= q < |s'.pc| && 0 <= r < |s'.pc| && s'.pc[q].Wake? && r < s'.pc[q].i
      ensures !Committed(s', r, s'.pc[q].ch)
    {
      assert s.pc[q].Wake? && !Committed(s, r, s.pc[q].ch);
    }
  }

  /** An ordinary place to be: running, without p->lock, with condition lock h. */
  ghost predicate Plain(pc: Pc, h: Option<Lock>) {
    && !OwnsLock(pc) && !Off(pc) && HeldLock(pc) == h
    && (forall st: ProcState, chan: Option<Chan> :: StateOk(st, chan, pc) <==> st == RUNNING)
    && (forall st: ProcState :: Bound(st, pc) == None)
  }

  lemma PlainUser()
    ensures Plain(User, None)
  {
  }

  lemma PlainSleep(ch: Chan)
    ensures Plain(SleepWant(ch), Some(LockOf(ch))) && Plain(SleepAgain(ch), None)
  {
  }

  lemma PlainAfterSleep(ch: Chan)
    ensures Plain(AfterSleep(ch), Some(LockOf(ch)))
  {
    match ch {
      case Sl(l) => PlainAcq(l);
      case Wt(_) => PlainWait(0, false);
    }
  }

  lemma PlainWake(ch: Chan, i: nat, k: Cont)
    ensures Plain(Wake(ch, i, k), Some(LockOf(ch))) && Plain(AfterWake(k), HeldLock(AfterWake(k)))
  {
    hide Plain;
    PlainWakeItself(ch, i, k);
    match k {
      case ToRelDone(l) => PlainRel(l);
      case ToExitScan(j) => PlainExit(j);
      case ToExitOwn => PlainExitEnd();
    }
  }

  lemma PlainAcq(l: nat)
    ensures Plain(AcqWant(l), None) && Plain(AcqTest(l), Some(Inner(l))) && Plain(AcqDone(l), Some(Inner(l)))
  {
  }

  lemma PlainRel(l: nat)
    ensures Plain(RelWant(l), None) && Plain(RelClear(l), Some(Inner(l))) && Plain(RelDone(l), Some(Inner(l)))
  {
  }

  lemma PlainWakeItself(ch: Chan, i: nat, k: Cont)
    ensures Plain(Wake(ch, i, k), Some(LockOf(ch)))
  {
  }

  lemma PlainFork(t: nat)
    ensures Plain(ForkParent(t), None) && Plain(ForkRun(t), None)
  {
  }

  lemma PlainExit(i: nat)
    ensures Plain(ExitWant, None) && Plain(ExitScan(i), Some(WaitLock))
  {
  }

  lemma PlainExitEnd()
    ensures Plain(ExitWake, Some(WaitLock)) && Plain(ExitOwn, Some(WaitLock))
  {
  }

  lemma PlainWaitWant()
    ensures Plain(WaitWant, None)
  {
  }

  lemma PlainWait(i: nat, kids: bool)
    ensures Plain(WaitScan(i, kids), Some(WaitLock))
  {
  }

  /** From one ordinary place to another. */
  ghost predicate PlainStep(s: State, s': State, p: nat, h: Option<Lock>, h': Option<Lock>) {
    && Core(s) && Sized(s) && Sized(s') && p < |s.pc| == |s'.pc| && s'.pc == s.pc[p := s'.pc[p]] && (s'.pc[p].Wake? ==> s'.pc[p].i == 0)
    && s'.st == s.st && s'.chan == s.chan && s'.plock == s.plock && s'.cpu == s.cpu
    && Plain(s.pc[p], h) && Plain(s'.pc[p], h')
  }

  lemma PlainMove(s: State, s': State, p: nat, h: Option<Lock>)
    requires PlainStep(s, s', p, h, h) && s'.lk == s.lk
    ensures Core(s')
  {
    hide LocksOk, CpusOk, WakeOk, OwnsLock, HeldLock, Off, StateOk, Bound;
    CoreAt(s, p);
    CoreMove(s, s', p);
  }

  lemma PlainTake(s: State, s': State, p: nat, l: Lock)
    requires PlainStep(s, s', p, None, Some(l)) && l !in s.lk && s'.lk == s.lk[l := p]
    ensures Core(s')
  {
    hide LocksOk, CpusOk, WakeOk, OwnsLock, HeldLock, Off, StateOk, Bound;
    CoreAt(s, p);
    CoreTake(s, s', p, l);
  }

  lemma PlainDrop(s: State, s': State, p: nat, l: Lock)
    requires PlainStep(s, s', p, Some(l), None) && s'.lk == s.lk - {l}
    ensures Core(s')
  {
    hide LocksOk, CpusOk, WakeOk, OwnsLock, HeldLock, Off, StateOk, Bound;
    CoreAt(s, p);
    CoreDrop(s, s', p, l);
  }

  /** What the invariant says about one process. */
  lemma CoreAt(s: State, p: nat)
    requires Core(s) && p < |s.pc|
    ensures Sized(s) && (s.plock[p] == Own <==> OwnsLock(s.pc[p])) && StateOk(s.st[p], s.chan[p], s.pc[p])
    ensures HeldLock(s.pc[p]).Some? ==> HeldLock(s.pc[p]).value in s.lk && s.lk[HeldLock(s.pc[p]).value] == p
    ensures forall l :: l in s.lk && s.lk[l] == p ==> HeldLock(s.pc[p]) == Some(l)
    ensures s.pc[p].Wake? ==> forall r :: 0 <= r < |s.pc| && r < s.pc[p].i ==> !Committed(s, r, s.pc[p].ch)
  {
    hide OwnsLock, HeldLock, StateOk, Off, Bound;
  }

  // --------------------------------------------------------- every step keeps it

  /** wakeup() or kill() makes a sleeper runnable. It is switched out, since its
      lock is free. */
  lemma CoreWoken(s: State, s': State, i: nat)
    requires Core(s) && i < |s.pc| && s.plock[i] == Open && s.st[i] == SLEEPING
    requires Sized(s') && s'.st == s.st[i := RUNNABLE] && s'.chan == s.chan && s'.pc == s.pc && s'.plock == s.plock
    requires s'.cpu == s.cpu && s'.lk == s.lk
    ensures Core(s') && s.pc[i].SleepOff? && s.chan[i] == Some(s.pc[i].ch)
  {
    hide LocksOk, CpusOk, WakeOk;
    CoreAt(s, i);
    CoreMove(s, s', i);
  }

  /** CPU c runs process p, which can go on. */
  ghost predicate Acts(s: State, c: nat, p: nat) {
    Core(s) && c < |s.cpu| && s.cpu[c] == Runs(p) && p < |s.pc| && Ready(s, p)
  }

  lemma CoreSized(s: State)
    requires Core(s)
    ensures Sized(s)
  {
  }

  lemma StepSleepWant(s: State, c: nat, p: nat, ch: Chan)
    requires Acts(s, c, p) && s.pc[p] == SleepWant(ch)
    ensures Core(Run(s, c, p))
  {
    hide LocksOk, CpusOk, WakeOk;
    CoreAt(s, p);
    CoreTakeOwn(s, Run(s, c, p), p);
  }

  lemma StepSleepHas(s: State, c: nat, p: nat, ch: Chan)
    requires Acts(s, c, p) && s.pc[p] == SleepHas(ch)
    ensures Core(Run(s, c, p))
  {
    hide LocksOk, CpusOk, WakeOk;
    CoreAt(s, p);
    CoreDrop(s, Run(s, c, p), p, LockOf(ch));
  }

  lemma StepSleepSet(s: State, c: nat, p: nat, ch: Chan)
    requires Acts(s, c, p) && s.pc[p] == SleepSet(ch)
    ensures Core(Run(s, c, p))
  {
    hide LocksOk, CpusOk, WakeOk;
    CoreAt(s, p);
    CoreMove(s, Run(s, c, p), p);
  }

  lemma StepSleepSched(s: State, c: nat, p: nat, ch: Chan)
    requires Acts(s, c, p) && s.pc[p] == SleepSched(ch)
    ensures Core(Run(s, c, p))
  {
    hide LocksOk, CpusOk, WakeOk;
    CoreAt(s, p);
    CoreSwitch(s, Run(s, c, p), c, p);
  }

  lemma StepSleepBack(s: State, c: nat, p: nat, ch: Chan)
    requires Acts(s, c, p) && s.pc[p] == SleepBack(ch)
    ensures Core(Run(s, c, p))
  {
    hide LocksOk, CpusOk, WakeOk;
    CoreAt(s, p);
    CoreMove(s, Run(s, c, p), p);
  }

  lemma StepSleepDrop(s: State, c: nat, p: nat, ch: Chan)
    requires Acts(s, c, p) && s.pc[p] == SleepDrop(ch)
    ensures Core(Run(s, c, p))
  {
    hide LocksOk, CpusOk, WakeOk;
    CoreAt(s, p);
    CoreDropOwn(s, Run(s, c, p), p);
  }

  lemma StepSleepAgain(s: State, c: nat, p: nat, ch: Chan)
    requires Acts(s, c, p) && s.pc[p] == SleepAgain(ch)
    ensures Core(Run(s, c, p))
  {
    hide Core, Plain;
    CoreSized(s);
    PlainSleep(ch);
    PlainAfterSleep(ch);
    PlainTake(s, Run(s, c, p), p, LockOf(ch));
  }

  lemma StepAcqWant(s: State, c: nat, p: nat, l: nat)
    requires Acts(s, c, p) && s.pc[p] == AcqWant(l)
    ensures Core(Run(s, c, p))
  {
    hide Core, Plain;
    CoreSized(s);
    PlainAcq(l);
    PlainTake(s, Run(s, c, p), p, Inner(l));
  }

  lemma StepAcqTest(s: State, c: nat, p: nat, l: nat)
    requires Acts(s, c, p) && s.pc[p] == AcqTest(l)
    ensures Core(Run(s, c, p))
  {
    hide Core, Plain;
    CoreSized(s);
    PlainAcq(l);
    PlainSleep(Sl(l));
    PlainMove(s, Run(s, c, p), p, Some(Inner(l)));
  }

  lemma StepAcqDone(s: State, c: nat, p: nat, l: nat)
    requires Acts(s, c, p) && s.pc[p] == AcqDone(l)
    ensures Core(Run(s, c, p))
  {
    hide Core, Plain;
    CoreSized(s);
    PlainAcq(l);
    PlainUser();
    PlainDrop(s, Run(s, c, p), p, Inner(l));
  }

  lemma StepRelWant(s: State, c: nat, p: nat, l: nat)
    requires Acts(s, c, p) && s.pc[p] == RelWant(l)
    ensures Core(Run(s, c, p))
  {
    hide Core, Plain;
    CoreSized(s);
    PlainRel(l);
    PlainTake(s, Run(s, c, p), p, Inner(l));
  }

  lemma StepRelDone(s: State, c: nat, p: nat, l: nat)
    requires Acts(s, c, p) && s.pc[p] == RelDone(l)
    ensures Core(Run(s, c, p))
  {
    hide Core, Plain;
    CoreSized(s);
    PlainRel(l);
    PlainUser();
    PlainDrop(s, Run(s, c, p), p, Inner(l));
  }

  lemma StepYieldSched(s: State, c: nat, p: nat)
    requires Acts(s, c, p) && s.pc[p] == YieldSched
    ensures Core(Run(s, c, p))
  {
    hide LocksOk, CpusOk, WakeOk;
    CoreAt(s, p);
    CoreSwitch(s, Run(s, c, p), c, p);
  }

  lemma StepYieldBack(s: State, c: nat, p: nat)
    requires Acts(s, c, p) && s.pc[p] == YieldBack
    ensures Core(Run(s, c, p))
  {
    hide LocksOk, CpusOk, WakeOk;
    CoreAt(s, p);
    CoreDropOwn(s, Run(s, c, p), p);
  }

  lemma StepForkParent(s: State, c: nat, p: nat, t: nat)
    requires Acts(s, c, p) && s.pc[p] == ForkParent(t)
    ensures Core(Run(s, c, p))
  {
    hide Core, Plain;
    CoreSized(s);
    PlainFork(t);
    PlainMove(s, Run(s, c, p), p, None);
  }

  lemma StepExitWant(s: State, c: nat, p: nat)
    requires Acts(s, c, p) && s.pc[p] == ExitWant
    ensures Core(Run(s, c, p))
  {
    hide Core, Plain;
    CoreSized(s);
    PlainExit(0);
    PlainTake(s, Run(s, c, p), p, WaitLock);
  }

  lemma StepExitScan(s: State, c: nat, p: nat, i: nat)
    requires Acts(s, c, p) && s.pc[p] == ExitScan(i)
    ensures Core(Run(s, c, p))
  {
    hide Core, Plain;
    CoreSized(s);
    PlainExit(i);
    PlainExitEnd();
    PlainExit(i + 1);
    PlainWake(Wt(INIT), 0, ToExitScan(i + 1));
    PlainMove(s, Run(s, c, p), p, Some(WaitLock));
  }

  lemma StepExitWake(s: State, c: nat, p: nat)
    requires Acts(s, c, p) && s.pc[p] == ExitWake
    ensures Core(Run(s, c, p))
  {
    hide Core, Plain;
    CoreSized(s);
    PlainExitEnd();
    PlainWake(Wt(s.parent[p].value), 0, ToExitOwn);
    PlainMove(s, Run(s, c, p), p, Some(WaitLock));
  }

  lemma StepExitOwn(s: State, c: nat, p: nat)
    requires Acts(s, c, p) && s.pc[p] == ExitOwn
    ensures Core(Run(s, c, p))
  {
    hide LocksOk, CpusOk, WakeOk;
    CoreAt(s, p);
    CoreTakeOwn(s, Run(s, c, p), p);
  }

  lemma StepExitZombie(s: State, c: nat, p: nat)
    requires Acts(s, c, p) && s.pc[p] == ExitZombie
    ensures Core(Run(s, c, p))
  {
    hide LocksOk, CpusOk, WakeOk;
    CoreAt(s, p);
    CoreMove(s, Run(s, c, p), p);
  }

  lemma StepExitRel(s: State, c: nat, p: nat)
    requires Acts(s, c, p) && s.pc[p] == ExitRel
    ensures Core(Run(s, c, p))
  {
    hide LocksOk, CpusOk, WakeOk;
    CoreAt(s, p);
    CoreDrop(s, Run(s, c, p), p, WaitLock);
  }

  lemma StepExitSched(s: State, c: nat, p: nat)
    requires Acts(s, c, p) && s.pc[p] == ExitSched
    ensures Core(Run(s, c, p))
  {
    hide LocksOk, CpusOk, WakeOk;
    CoreAt(s, p);
    CoreSwitch(s, Run(s, c, p), c, p);
  }

  lemma StepWaitWant(s: State, c: nat, p: nat)
    requires Acts(s, c, p) && s.pc[p] == WaitWant
    ensures Core(Run(s, c, p))
  {
    hide Core, Plain;
    CoreSized(s);
    PlainWaitWant();
    PlainWait(0, false);
    PlainTake(s, Run(s, c, p), p, WaitLock);
  }

  lemma StepWake(s: State, c: nat, p: nat, ch: Chan, i: nat, k: Cont)
    requires Acts(s, c, p) && s.pc[p] == Wake(ch, i, k) && HeldLock(AfterWake(k)) == Some(LockOf(ch))
    ensures Core(Run(s, c, p))
  {
    hide Core, Plain, HeldLock, Bound;
    CoreSized(s);
    PlainWake(ch, i, k);
    if i >= |s.pc| {
      PlainMove(s, Run(s, c, p), p, Some(LockOf(ch)));
    } else if i == p {
      NotBound(s.st[p], ch, i, k);
      CoreAdvance(s, p, ch, i, k);
    } else {
      StepWakeOther(s, p, ch, i, k);
    }
  }

  lemma NotBound(st: ProcState, ch: Chan, i: nat, k: Cont)
    ensures Bound(st, Wake(ch, i, k)) == None
  {
  }

  lemma CoreAdvance(s: State, p: nat, ch: Chan, i: nat, k: Cont)
    requires Core(s) && p < |s.pc| && s.pc[p] == Wake(ch, i, k) && i < |s.pc| && !Committed(s, i, ch)
    ensures Core(At(s, p, Wake(ch, i + 1, k)))
  {
    hide LocksOk, CpusOk, WakeOk;
    CoreAt(s, p);
    var s' := At(s, p, Wake(ch, i + 1, k));
    LocksMove(s, s', p);
    CpusMove(s, s', p);
    WakeNext(s, s', p, ch, i, k);
  }

  lemma StepWakeOther(s: State, p: nat, ch: Chan, i: nat, k: Cont)
    requires Core(s) && p < |s.pc| && s.pc[p] == Wake(ch, i, k) && i < |s.pc| && i != p && s.plock[i] == Open
    ensures Core(At(Woken(s, i, ch), p, Wake(ch, i + 1, k)))
  {
    hide LocksOk, CpusOk, WakeOk;
    CoreAt(s, i);
    var s1 := Woken(s, i, ch);
    if s.st[i] == SLEEPING && s.chan[i] == Some(ch) {
      CoreWoken(s, s1, i);
    }
    CoreAdvance(s1, p, ch, i, k);
  }

  lemma StepForkRun(s: State, c: nat, p: nat, t: nat)
    requires Acts(s, c, p) && s.pc[p] == ForkRun(t) && s.st[t] == USED && s.pc[t] == NoThread
    ensures Core(Run(s, c, p))
  {
    hide Core, Plain;
    CoreSized(s);
    PlainFork(t);
    PlainUser();
    StartChild(s, t);
    PlainMove(SetState(At(s, t, YieldOff), t, RUNNABLE), Run(s, c, p), p, None);
  }

  lemma StartChild(s: State, t: nat)
    requires Core(s) && Sized(s) && t < |s.pc| && s.st[t] == USED && s.pc[t] == NoThread
    ensures Core(SetState(At(s, t, YieldOff), t, RUNNABLE))
  {
    hide LocksOk, CpusOk, WakeOk;
    CoreMove(s, SetState(At(s, t, YieldOff), t, RUNNABLE), t);
  }

  lemma StepWaitEnd(s: State, c: nat, p: nat, i: nat, kids: bool)
    requires Acts(s, c, p) && s.pc[p] == WaitScan(i, kids) && i >= |s.pc|
    ensures Core(Run(s, c, p))
  {
    hide Core, Plain;
    CoreSized(s);
    PlainWait(i, kids);
    if !kids || s.killed[p] {
      PlainUser();
      PlainDrop(s, Run(s, c, p), p, WaitLock);
    } else {
      PlainSleep(Wt(p));
      PlainMove(s, Run(s, c, p), p, Some(WaitLock));
    }
  }

  lemma StepWaitScan(s: State, c: nat, p: nat, i: nat, kids: bool)
    requires Acts(s, c, p) && s.pc[p] == WaitScan(i, kids) && i < |s.pc|
    requires !(s.parent[i] == Some(p) && s.st[i] == ZOMBIE)
    ensures Core(Run(s, c, p))
  {
    hide Core, Plain;
    CoreSized(s);
    PlainWait(i, kids);
    PlainWait(i + 1, kids);
    PlainWait(i + 1, true);
    PlainMove(s, Run(s, c, p), p, Some(WaitLock));
  }

  /** wait() frees child i: it has switched out, since its lock is free. */
  lemma StepReap(s: State, c: nat, p: nat, i: nat, kids: bool)
    requires Acts(s, c, p) && s.pc[p] == WaitScan(i, kids)
    requires i < |s.pc| && s.parent[i] == Some(p) && s.st[i] == ZOMBIE && i != p
    ensures Core(Run(s, c, p)) && s.pc[i] == Dead
  {
    hide Core, Plain;
    CoreSized(s);
    PlainWait(i, kids);
    PlainUser();
    FreeChild(s, i);
    PlainDrop(Freed(s, i), Run(s, c, p), p, WaitLock);
  }

  lemma FreeChild(s: State, i: nat)
    requires Core(s) && Sized(s) && i < |s.pc| && s.st[i] == ZOMBIE && s.plock[i] == Open
    ensures Core(Freed(s, i)) && s.pc[i] == Dead
  {
    hide LocksOk, CpusOk, WakeOk;
    CoreAt(s, i);
    CoreMove(s, Freed(s, i), i);
  }

  // ------------------------------------------------------------- other events

  ghost predicate Happens(s: State, e: Event) {
    Core(s) && Sized(s) && Can(s, e)
  }

  lemma EventDispatch(s: State, c: nat, t: nat)
    requires Happens(s, Dispatch(c, t))
    ensures Core(Do(s, Dispatch(c, t))) && (s.pc[t].SleepOff? || s.pc[t] == YieldOff)
  {
    hide LocksOk, CpusOk, WakeOk;
    CoreAt(s, t);
    var s' := Do(s, Dispatch(c, t));
    WakeMove(s, s', t);
    LocksDispatch(s, s', c, t);
    CpusDispatch(s, s', c, t);
  }

  lemma EventDropBack(s: State, c: nat)
    requires Happens(s, DropBack(c))
    ensures Core(Do(s, DropBack(c)))
  {
    hide LocksOk, CpusOk, WakeOk, OwnsLock, HeldLock, StateOk, Bound;
    CoreAt(s, s.cpu[c].p);
    var s' := Do(s, DropBack(c));
    SameWake(s, s');
    LocksBack(s, s', c);
    CpusBack(s, s', c);
  }

  /** A process in user code starts something. */
  lemma EventStart(s: State, c: nat, pc: Pc)
    requires Core(s) && IsRunning(s, c) && s.pc[s.cpu[c].p] == User
    requires pc.AcqWant? || pc.RelWant? || pc == WaitWant || pc == ExitWant
    ensures Core(At(s, s.cpu[c].p, pc))
  {
    hide Core, Plain;
    CoreSized(s);
    PlainUser();
    PlainExit(0);
    PlainWaitWant();
    if pc.AcqWant? {
      PlainAcq(pc.lock);
    } else if pc.RelWant? {
      PlainRel(pc.lock);
    }
    PlainMove(s, At(s, s.cpu[c].p, pc), s.cpu[c].p, None);
  }

  lemma EventYield(s: State, c: nat)
    requires Happens(s, StartYield(c))
    ensures Core(Do(s, StartYield(c)))
  {
    hide LocksOk, CpusOk, WakeOk;
    var p := s.cpu[c].p;
    CoreAt(s, p);
    CoreTakeOwn(s, Do(s, StartYield(c)), p);
  }

  lemma EventFork(s: State, c: nat, t: nat)
    requires Happens(s, Fork(c, t)) && t != s.cpu[c].p
    ensures Core(Do(s, Fork(c, t))) && s.pc[t] == NoThread
  {
    hide Core, Plain;
    PlainUser();
    PlainFork(t);
    UseSlot(s, t);
    var s1 := SetState(s, t, USED).(pid := s.pid[t := s.nextpid], nextpid := s.nextpid + 1);
    PlainMove(s1, Do(s, Fork(c, t)), s.cpu[c].p, None);
  }

  lemma UseSlot(s: State, t: nat)
    requires Core(s) && Sized(s) && t < |s.pc| && s.st[t] == UNUSED
    ensures Core(SetState(s, t, USED).(pid := s.pid[t := s.nextpid], nextpid := s.nextpid + 1)) && s.pc[t] == NoThread
  {
    hide LocksOk, CpusOk, WakeOk;
    CoreAt(s, t);
    CoreMove(s, SetState(s, t, USED).(pid := s.pid[t := s.nextpid], nextpid := s.nextpid + 1), t);
  }

  lemma EventWaitFail(s: State, c: nat)
    requires Happens(s, WaitFail(c))
    ensures Core(Do(s, WaitFail(c)))
  {
    hide Core, Plain;
    var p := s.cpu[c].p;
    PlainUser();
    PlainWait(s.pc[p].i, s.pc[p].kids);
    PlainDrop(s, Do(s, WaitFail(c)), p, WaitLock);
  }
}
