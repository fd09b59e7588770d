/** The log of kernel/log.c as a protocol: any number of operations run between
    begin_op() and end_op(), their log_write() calls interleave, the last one to
    end commits, buffers are loaded and evicted at will, and a crash may strike
    between any two block writes, inside a recovery too.

    Each lock-protected section and each block write is one event. A modification
    of a cached block and its log_write() form one event, because the caller holds
    the buffer's sleep-lock across both. */
module LogProtocol {
  import opened Basics
  import opened DiskLog

  /** `init` is the disk at the first boot, with an empty log. */
  datatype Config = Config(g: Geometry, maxOp: nat, init: Disk) {
    ghost predicate Valid() {
      && DiskOk(g, init) && Head(g, init) == []
      && maxOp > 0
    }
  }

  /** An operation between begin_op() and end_op(); `used` counts the blocks it
      was the first to add to the current transaction. */
  datatype Op = Op(id: nat, used: nat)

  /** One log_write(): operation `op` gives block `block` the contents `data`. */
  datatype Write = Write(op: nat, block: int, data: Block)

  datatype Phase =
    | Running
    | Committing(base: Disk, data: seq<Block>, step: nat)
    | Recovering(base: Disk, step: nat)

  /** `writes` lists every log_write() not lost in a crash; the first `cut` of
      them are the ones that a crash now would keep, all by operations below
      `cutOp`. Both are history: no guard reads them. */
  datatype State = State(
    disk: Disk,
    cache: map<int, Block>,
    lh: seq<int>,
    active: seq<Op>,
    nextOp: nat,
    phase: Phase,
    writes: seq<Write>,
    cut: nat,
    cutOp: nat)

  datatype Event =
    | Begin
    | LogWrite(which: nat, block: int, data: Block)
    | End(which: nat)
    | CommitWrite
    | CommitDone
    | Load(block: int)
    | Evict(block: int)
    | Crash
    | RecoverWrite
    | RecoverDone

  function Boot(c: Config): State {
    State(c.init, map[], [], [], 0, Running, [], 0, 0)
  }

  // ---------------------------------------------------------------- events

  /** Blocks whose buffers bpin() holds: install_trans() unpins them in order. */
  function FirstPinned(s: State): nat {
    match s.phase
    case Running => 0
    case Committing(_, _, step) =>
      Installed(|s.lh|, step)
    case Recovering(_, _) => 0
  }

  ghost predicate Pinned(s: State, b: int)
    requires FirstPinned(s) <= |s.lh|
  {
    exists i :: FirstPinned(s) <= i < |s.lh| && s.lh[i] == b
  }

  /** What bread() returns for block b. */
  function View(s: State, b: int): Block
    requires 0 <= b < |s.disk|
  {
    if b in s.cache then s.cache[b] else s.disk[b]
  }

  /** The two panics of log_write(). */
  predicate Panics(c: Config, s: State) {
    |s.lh| >= c.g.logSize || |s.lh| >= c.g.nlog - 1 || |s.active| < 1
  }

  ghost predicate Enabled(c: Config, s: State, e: Event) {
    match e
    case Begin =>
      s.phase.Running? && |s.lh| + (|s.active| + 1) * c.maxOp <= c.g.logSize
    case LogWrite(which, block, data) =>
      && s.phase.Running? && which < |s.active| && !Panics(c, s)
      && c.g.IsHome(|s.disk|, block) && |data| == c.g.words
    case End(which) => s.phase.Running? && which < |s.active|
    case CommitWrite => s.phase.Committing? && s.phase.step < CommitSteps(s.lh)
    case CommitDone => s.phase.Committing? && s.phase.step == CommitSteps(s.lh)
    case Load(b) => 0 <= b < |s.disk| && b !in s.cache
    case Evict(b) => b in s.cache && FirstPinned(s) <= |s.lh| && !Pinned(s, b)
    case Crash => true
    case RecoverWrite => s.phase.Recovering? && DiskOk(c.g, s.phase.base) && s.phase.step < RecoverSteps(c.g, s.phase.base)
    case RecoverDone => s.phase.Recovering? && DiskOk(c.g, s.phase.base) && s.phase.step == RecoverSteps(c.g, s.phase.base)
  }

  function DoLogWrite(s: State, which: nat, block: int, data: Block): State
    requires which < |s.active|
  {
    var fresh_ := block !in s.lh;
    var op := s.active[which];
    s.(cache := s.cache[block := data],
       lh := if fresh_ then s.lh + [block] else s.lh,
       active := if fresh_ then s.active[which := Op(op.id, op.used + 1)] else s.active,
       writes := s.writes + [Write(op.id, block, data)])
  }

  function DoEnd(s: State, which: nat): State
    requires which < |s.active|
    requires forall i :: 0 <= i < |s.lh| ==> s.lh[i] in s.cache
  {
    var rest := s.active[..which] + s.active[which + 1..];
    if rest == [] then
      s.(active := [],
         phase := Committing(s.disk, seq(|s.lh|, i requires 0 <= i < |s.lh| => s.cache[s.lh[i]]), 0))
    else
      s.(active := rest)
  }

  /** The buffers that bwrite() has just written hold what is on disk. */
  function Refreshed(cache: map<int, Block>, old_: Disk, new_: Disk): map<int, Block>
    requires |old_| == |new_|
  {
    map b | b in cache :: if 0 <= b < |new_| && old_[b] != new_[b] then new_[b] else cache[b]
  }

  function DoCommitWrite(c: Config, s: State): State
    requires s.phase.Committing? && s.phase.step < CommitSteps(s.lh)
    requires Committable(c.g, s.phase.base, s.lh, s.phase.data)
    requires |s.disk| == |s.phase.base|
  {
    var i := s.phase.step + 1;
    CommitCrash(c.g, s.phase.base, s.lh, s.phase.data, i);
    var d := CommitDisk(c.g, s.phase.base, s.lh, s.phase.data, i);
    var t := s.(disk := d, cache := Refreshed(s.cache, s.disk, d), phase := Committing(s.phase.base, s.phase.data, i));
    if i == |s.lh| + 1 then t.(cut := |s.writes|, cutOp := s.nextOp) else t
  }

  function DoRecoverWrite(c: Config, s: State): State
    requires s.phase.Recovering? && DiskOk(c.g, s.phase.base)
    requires s.phase.step < RecoverSteps(c.g, s.phase.base)
    requires |s.disk| == |s.phase.base|
  {
    var d := RecoverDisk(c.g, s.phase.base, s.phase.step + 1);
    s.(disk := d, cache := Refreshed(s.cache, s.disk, d), phase := Recovering(s.phase.base, s.phase.step + 1))
  }

  /** A crash forgets the memory: buffers, in-memory header and operations. */
  function DoCrash(s: State): State
    requires s.cut <= |s.writes|
  {
    s.(cache := map[], lh := [], active := [], phase := Recovering(s.disk, 0),
       writes := s.writes[..s.cut])
  }

  /** What the event's own code takes for granted; `NeverStuck` shows that it
      always holds. */
  ghost predicate Sane(c: Config, s: State, e: Event)
    requires c.Valid()
  {
    match e
    case Begin => true
    case LogWrite(which, block, data) => true
    case End(which) => forall i :: 0 <= i < |s.lh| ==> s.lh[i] in s.cache
    case CommitWrite =>
      && s.phase.Committing? && |s.disk| == |s.phase.base|
      && Committable(c.g, s.phase.base, s.lh, s.phase.data)
    case CommitDone => true
    case Load(b) => true
    case Evict(b) => true
    case Crash => s.cut <= |s.writes|
    case RecoverWrite => s.phase.Recovering? && |s.disk| == |s.phase.base|
    case RecoverDone => true
  }

  ghost predicate Step(c: Config, s: State, e: Event, t: State)
    requires c.Valid()
  {
    Enabled(c, s, e) && Sane(c, s, e) &&
    match e
    case Begin => t == s.(active := s.active + [Op(s.nextOp, 0)], nextOp := s.nextOp + 1)
    case LogWrite(which, block, data) => t == DoLogWrite(s, which, block, data)
    case End(which) => t == DoEnd(s, which)
    case CommitWrite => t == DoCommitWrite(c, s)
    case CommitDone => t == s.(lh := [], phase := Running)
    case Load(b) => t == s.(cache := s.cache[b := s.disk[b]])
    case Evict(b) => t == s.(cache := s.cache - {b})
    case Crash => t == DoCrash(s)
    case RecoverWrite => t == DoRecoverWrite(c, s)
    case RecoverDone => t == s.(phase := Running)
  }

  // ------------------------------------------------------------- invariant

  /** The home blocks after the given log writes, each applied in full. */
  function Replay(d: Disk, ws: seq<Write>): (r: Disk)
    requires forall i :: 0 <= i < |ws| ==> 0 <= ws[i].block < |d|
    ensures |r| == |d|
  {
    if ws == [] then d
    else
      var k := |ws| - 1;
      Replay(d, ws[..k])[ws[k].block := ws[k].data]
  }

  ghost predicate WritesOk(c: Config, ws: seq<Write>) {
    forall i :: 0 <= i < |ws| ==> c.g.IsHome(|c.init|, ws[i].block) && |ws[i].data| == c.g.words
  }

  function Now(c: Config, s: State): Disk
    requires WritesOk(c, s.writes)
  {
    Replay(c.init, s.writes)
  }

  function Durable(c: Config, s: State): Disk
    requires WritesOk(c, s.writes) && s.cut <= |s.writes|
  {
    Replay(c.init, s.writes[..s.cut])
  }

  /** No operation has writes on both sides of the cut. */
  ghost predicate OpsOk(s: State) {
    && s.cut <= |s.writes| && s.cutOp <= s.nextOp
    && (forall i :: 0 <= i < s.cut ==> s.writes[i].op < s.cutOp)
    && (forall i :: s.cut <= i < |s.writes| ==> s.cutOp <= s.writes[i].op < s.nextOp)
    && (forall i :: 0 <= i < |s.active| ==> s.cutOp <= s.active[i].id < s.nextOp)
    && (forall i, j :: 0 <= i < j < |s.active| ==> s.active[i].id != s.active[j].id)
  }

  /** Pinned buffers hold the newest contents of their blocks; every other
      buffer, and every home block that is not pinned, agrees with the disk. */
  ghost predicate CacheOk(c: Config, s: State)
    requires WritesOk(c, s.writes) && |s.disk| == |c.init|
  {
    && FirstPinned(s) <= |s.lh|
    && (forall i :: FirstPinned(s) <= i < |s.lh| ==>
          s.lh[i] in s.cache && 0 <= s.lh[i] < |s.disk| && s.cache[s.lh[i]] == Now(c, s)[s.lh[i]])
    && (forall b :: b in s.cache && !Pinned(s, b) ==> 0 <= b < |s.disk| && s.cache[b] == s.disk[b])
    && (!s.phase.Recovering? ==>
          forall b :: c.g.IsHome(|s.disk|, b) && !Pinned(s, b) ==> s.disk[b] == Now(c, s)[b])
  }

  ghost predicate PhaseOk(c: Config, s: State)
    requires c.Valid() && WritesOk(c, s.writes) && s.cut <= |s.writes|
  {
    match s.phase
    case Running =>
      && DiskOk(c.g, s.disk) && Head(c.g, s.disk) == []
      && SameHome(c.g, s.disk, Durable(c, s))
    case Committing(base, data, step) =>
      && s.active == []
      && |base| == |c.init|
      && Committable(c.g, base, s.lh, data) && step <= CommitSteps(s.lh)
      && s.disk == CommitDisk(c.g, base, s.lh, data, step)
      && SameHome(c.g, Applied(base, s.lh, data), Now(c, s))
      && (step <= |s.lh| ==> SameHome(c.g, base, Durable(c, s)))
      && (step > |s.lh| ==> s.cut == |s.writes|)
    case Recovering(base, step) =>
      && s.active == [] && s.lh == [] && s.cut == |s.writes|
      && |base| == |c.init|
      && DiskOk(c.g, base) && step <= RecoverSteps(c.g, base)
      && s.disk == RecoverDisk(c.g, base, step)
      && SameHome(c.g, Recovered(c.g, base), Now(c, s))
  }

  ghost predicate Inv(c: Config, s: State)
    requires c.Valid()
  {
    && |s.disk| == |c.init|
    && WritesOk(c, s.writes)
    && Loggable(c.g, s.disk, s.lh) && Distinct(s.lh)
    && (forall i :: s.cut <= i < |s.writes| ==> s.writes[i].block in s.lh)
    && OpsOk(s)
    && CacheOk(c, s)
    && PhaseOk(c, s)
  }

  lemma BootInv(c: Config)
    requires c.Valid()
    ensures Inv(c, Boot(c))
  {
  }

  // --------------------------------------------------------- preservation

  lemma {:induction false} ReplayShape(c: Config, ws: seq<Write>)
    requires c.Valid() && WritesOk(c, ws)
    ensures Shape(c.g, Replay(c.init, ws))
    ensures forall b :: 0 <= b < |c.init| && c.g.InLog(b) ==> Replay(c.init, ws)[b] == c.init[b]
  {
    if ws != [] {
      ReplayShape(c, ws[..|ws| - 1]);
    }
  }

  lemma LogWriteNow(c: Config, s: State, which: nat, block: int, data: Block)
    requires c.Valid() && Inv(c, s)
    requires Enabled(c, s, LogWrite(which, block, data))
    ensures var t := DoLogWrite(s, which, block, data);
            && WritesOk(c, t.writes) && Now(c, t) == Now(c, s)[block := data]
            && t.writes[..t.cut] == s.writes[..s.cut]
  {
    hide CacheOk, PhaseOk, Loggable, Distinct, Panics;
    var t := DoLogWrite(s, which, block, data);
    assert t.writes[..|s.writes|] == s.writes;
  }

  lemma LogWritePins(s: State, which: nat, block: int, data: Block, b: int)
    requires s.phase.Running? && which < |s.active|
    ensures Pinned(DoLogWrite(s, which, block, data), b) <==> b == block || Pinned(s, b)
  {
    var t := DoLogWrite(s, which, block, data);
    if Pinned(s, b) {
      var i :| 0 <= i < |s.lh| && s.lh[i] == b;
      assert t.lh[i] == b;
    }
    if b == block {
      if block in s.lh {
        var i :| 0 <= i < |s.lh| && s.lh[i] == block;
        assert t.lh[i] == block;
      } else {
        assert t.lh[|s.lh|] == block;
      }
    }
  }

  lemma LogWriteCache(c: Config, s: State, which: nat, block: int, data: Block)
    requires c.Valid() && Inv(c, s)
    requires Enabled(c, s, LogWrite(which, block, data))
    ensures WritesOk(c, DoLogWrite(s, which, block, data).writes)
    ensures CacheOk(c, DoLogWrite(s, which, block, data))
  {
    var t := DoLogWrite(s, which, block, data);
    LogWriteNow(c, s, which, block, data);
    forall i | 0 <= i < |t.lh|
      ensures t.lh[i] in t.cache && 0 <= t.lh[i] < |t.disk| && t.cache[t.lh[i]] == Now(c, t)[t.lh[i]]
    {
      assert i < |s.lh| ==> t.lh[i] == s.lh[i];
    }
    forall b | !Pinned(t, b)
      ensures b in t.cache ==> 0 <= b < |t.disk| && t.cache[b] == t.disk[b]
      ensures c.g.IsHome(|t.disk|, b) ==> t.disk[b] == Now(c, t)[b]
    {
      LogWritePins(s, which, block, data, b);
    }
  }

  lemma LogWriteInv(c: Config, s: State, which: nat, block: int, data: Block)
    requires c.Valid() && Inv(c, s)
    requires Enabled(c, s, LogWrite(which, block, data))
    ensures Inv(c, DoLogWrite(s, which, block, data))
  {
    LogWriteNow(c, s, which, block, data);
    LogWriteCache(c, s, which, block, data);
    LogWriteRest(c, s, which, block, data);
    LogWriteOps(s, which, block, data);
  }

  lemma LogWriteRest(c: Config, s: State, which: nat, block: int, data: Block)
    requires c.Valid() && Inv(c, s)
    requires Enabled(c, s, LogWrite(which, block, data))
    ensures var t := DoLogWrite(s, which, block, data);
            && Loggable(c.g, t.disk, t.lh) && Distinct(t.lh)
            && forall i :: t.cut <= i < |t.writes| ==> t.writes[i].block in t.lh
  {
    hide CacheOk, PhaseOk;
  }

  lemma LogWriteOps(s: State, which: nat, block: int, data: Block)
    requires OpsOk(s) && which < |s.active|
    ensures OpsOk(DoLogWrite(s, which, block, data))
  {
  }

  lemma SamePins(s: State, t: State)
    requires s.lh == t.lh && FirstPinned(s) == FirstPinned(t) <= |s.lh|
    ensures forall b :: Pinned(t, b) <==> Pinned(s, b)
  {
  }

  /** The last end_op() starts a commit whose outcome is exactly what the
      operations have logged. */
  lemma EndCommits(c: Config, s: State, data: seq<Block>)
    requires c.Valid() && s.phase.Running?
    requires WritesOk(c, s.writes) && |s.disk| == |c.init| && CacheOk(c, s)
    requires DiskOk(c.g, s.disk) && Head(c.g, s.disk) == [] && Loggable(c.g, s.disk, s.lh)
    requires |data| == |s.lh| && forall i :: 0 <= i < |s.lh| ==> data[i] == s.cache[s.lh[i]]
    ensures Committable(c.g, s.disk, s.lh, data)
    ensures SameHome(c.g, Applied(s.disk, s.lh, data), Now(c, s))
  {
    hide CacheOk, DiskOk, Head, Applied, Replay;
    EndCommittable(c, s, data);
    forall b | c.g.IsHome(|s.disk|, b)
      ensures Applied(s.disk, s.lh, data)[b] == Now(c, s)[b]
    {
      EndHome(c, s, data, b);
    }
  }

  lemma EndCommittable(c: Config, s: State, data: seq<Block>)
    requires c.Valid() && s.phase.Running?
    requires WritesOk(c, s.writes) && |s.disk| == |c.init| && CacheOk(c, s)
    requires DiskOk(c.g, s.disk) && Head(c.g, s.disk) == [] && Loggable(c.g, s.disk, s.lh)
    requires |data| == |s.lh| && forall i :: 0 <= i < |s.lh| ==> data[i] == s.cache[s.lh[i]]
    ensures Committable(c.g, s.disk, s.lh, data)
  {
    hide Replay, Pinned, Head;
    ReplayShape(c, s.writes);
  }

  lemma EndHome(c: Config, s: State, data: seq<Block>, b: int)
    requires s.phase.Running? && WritesOk(c, s.writes) && |s.disk| == |c.init| && CacheOk(c, s)
    requires Loggable(c.g, s.disk, s.lh) && c.g.IsHome(|s.disk|, b)
    requires |data| == |s.lh| && forall i :: 0 <= i < |s.lh| ==> data[i] == s.cache[s.lh[i]]
    ensures Applied(s.disk, s.lh, data)[b] == Now(c, s)[b]
  {
    hide Replay, Applied;
    AppliedAt(s.disk, s.lh, data, b);
    var i := LastIndex(s.lh, |s.lh|, b);
    assert i < 0 ==> !Pinned(s, b);
  }

  lemma EndOps(c: Config, s: State, which: nat)
    requires c.Valid() && Inv(c, s)
    requires Enabled(c, s, End(which))
    ensures OpsOk(DoEnd(s, which))
  {
    var t := DoEnd(s, which);
    assert forall i :: 0 <= i < |t.active| ==>
      t.active[i] == s.active[if i < which then i else i + 1];
  }

  lemma EndCache(c: Config, s: State, which: nat)
    requires c.Valid() && Inv(c, s)
    requires Enabled(c, s, End(which))
    ensures CacheOk(c, DoEnd(s, which))
  {
    SamePins(s, DoEnd(s, which));
  }

  lemma EndInv(c: Config, s: State, which: nat)
    requires c.Valid() && Inv(c, s)
    requires Enabled(c, s, End(which))
    ensures Inv(c, DoEnd(s, which))
  {
    var t := DoEnd(s, which);
    EndOps(c, s, which);
    EndCache(c, s, which);
    if t.phase.Committing? {
      EndCommits(c, s, t.phase.data);
    }
  }

  /** What one block write of a commit does to a block outside the log. */
  lemma CommitWriteHome(c: Config, s: State, b: int)
    requires c.Valid() && WritesOk(c, s.writes) && s.cut <= |s.writes|
    requires PhaseOk(c, s) && Distinct(s.lh)
    requires s.phase.Committing? && s.phase.step < CommitSteps(s.lh)
    requires |s.disk| == |s.phase.base| && c.g.IsHome(|s.disk|, b)
    ensures var t := DoCommitWrite(c, s);
            && |t.disk| == |s.disk|
            && if Pinned(t, b) then t.disk[b] == s.disk[b] else t.disk[b] == Now(c, s)[b]
  {
    hide Replay, Refreshed, Applied, Install, Logged;
    var base, data, i := s.phase.base, s.phase.data, s.phase.step;
    assert SameHome(c.g, Applied(base, s.lh, data), Now(c, s));
    CommitHomeStep(c.g, base, s.lh, data, i, b);
    var t := DoCommitWrite(c, s);
    assert FirstPinned(t) == Installed(|s.lh|, i + 1);
    assert t.disk == CommitDisk(c.g, base, s.lh, data, i + 1);
  }

  /** A block write that leaves pinned blocks alone on disk and brings every other
      home block up to date keeps the cache consistent. */
  lemma RefreshedCache(c: Config, s: State, t: State)
    requires WritesOk(c, s.writes) && |s.disk| == |t.disk| == |c.init| && CacheOk(c, s)
    requires t.writes == s.writes && t.lh == s.lh && !t.phase.Recovering?
    requires Loggable(c.g, s.disk, s.lh)
    requires FirstPinned(s) <= FirstPinned(t) <= |s.lh|
    requires t.cache == Refreshed(s.cache, s.disk, t.disk)
    requires forall b :: c.g.IsHome(|s.disk|, b) ==>
               if Pinned(t, b) then t.disk[b] == s.disk[b] else t.disk[b] == Now(c, s)[b]
    ensures CacheOk(c, t)
  {
    forall b | Pinned(t, b)
      ensures Pinned(s, b)
    {
      var k :| FirstPinned(t) <= k < |t.lh| && t.lh[k] == b;
      assert s.lh[k] == b;
    }
    forall i | FirstPinned(t) <= i < |t.lh|
      ensures t.lh[i] in t.cache && t.cache[t.lh[i]] == Now(c, t)[t.lh[i]]
    {
      assert Pinned(t, t.lh[i]);
      assert s.lh[i] in s.cache;
    }
    forall b | b in t.cache && !Pinned(t, b)
      ensures 0 <= b < |t.disk| && t.cache[b] == t.disk[b]
    {
      if Pinned(s, b) {
        var i :| FirstPinned(s) <= i < |s.lh| && s.lh[i] == b;
        assert c.g.IsHome(|s.disk|, b) && s.cache[b] == Now(c, s)[b];
      }
    }
  }

  lemma CommitWriteInv(c: Config, s: State)
    requires c.Valid() && Inv(c, s)
    requires Enabled(c, s, CommitWrite)
    ensures Inv(c, DoCommitWrite(c, s))
  {
    CommitWriteCache(c, s);
    CommitWriteOps(c, s);
    CommitWritePhase(c, s);
  }

  lemma CommitWritePhase(c: Config, s: State)
    requires c.Valid() && Inv(c, s)
    requires Enabled(c, s, CommitWrite)
    ensures PhaseOk(c, DoCommitWrite(c, s))
  {
    hide CacheOk, OpsOk, Replay, Refreshed, Applied, Install, Logged, Distinct;
  }

  lemma CommitWriteOps(c: Config, s: State)
    requires c.Valid() && Inv(c, s)
    requires Enabled(c, s, CommitWrite)
    ensures OpsOk(DoCommitWrite(c, s))
  {
  }

  lemma CommitWriteCache(c: Config, s: State)
    requires c.Valid() && Inv(c, s)
    requires Enabled(c, s, CommitWrite)
    ensures |DoCommitWrite(c, s).disk| == |c.init|
    ensures CacheOk(c, DoCommitWrite(c, s))
  {
    hide CacheOk, Replay, Refreshed, Applied, Install, Logged, Now;
    assert s.cut <= |s.writes| && |s.disk| == |s.phase.base|;
    var t := DoCommitWrite(c, s);
    CommitCrash(c.g, s.phase.base, s.lh, s.phase.data, t.phase.step);
    forall b | c.g.IsHome(|s.disk|, b)
      ensures if Pinned(t, b) then t.disk[b] == s.disk[b] else t.disk[b] == Now(c, s)[b]
    {
      CommitWriteHome(c, s, b);
    }
    RefreshedCache(c, s, t);
  }

  lemma CommitDoneInv(c: Config, s: State)
    requires c.Valid() && Inv(c, s)
    requires Enabled(c, s, CommitDone)
    ensures Inv(c, s.(lh := [], phase := Running))
  {
    var t := s.(lh := [], phase := Running);
    CommitFinal(c.g, s.phase.base, s.lh, s.phase.data);
    assert FirstPinned(s) == |s.lh|;
    assert s.lh == [] ==> s.cut == |s.writes|;
    assert s.writes[..s.cut] == s.writes;
    assert forall b :: !Pinned(s, b) && !Pinned(t, b);
  }

  lemma CrashInv(c: Config, s: State)
    requires c.Valid() && Inv(c, s)
    ensures Inv(c, DoCrash(s))
  {
    var t := DoCrash(s);
    assert t.writes[..t.cut] == t.writes;
    RecoverableNow(c, s);
  }

  /** In every phase the disk is one that recovery turns into the durable state. */
  lemma RecoverableNow(c: Config, s: State)
    requires c.Valid() && Inv(c, s)
    ensures DiskOk(c.g, s.disk) && WritesOk(c, s.writes)
    ensures s.cut <= |s.writes|
    ensures SameHome(c.g, Recovered(c.g, s.disk), Durable(c, s))
  {
    match s.phase
    case Running =>
      forall b | c.g.IsHome(|s.disk|, b)
        ensures Recovered(c.g, s.disk)[b] == s.disk[b]
      {
        RecoveredAt(c.g, s.disk, b);
      }
    case Committing(base, data, step) =>
      CommitCrash(c.g, base, s.lh, data, step);
      assert s.cut == |s.writes| ==> s.writes[..s.cut] == s.writes;
    case Recovering(base, step) =>
      RecoverCrash(c.g, base, step);
      assert s.writes[..s.cut] == s.writes;
  }

  lemma RecoverWriteInv(c: Config, s: State)
    requires c.Valid() && Inv(c, s)
    requires Enabled(c, s, RecoverWrite)
    ensures Inv(c, DoRecoverWrite(c, s))
  {
    hide Replay, Install, WritesOk;
    var t := DoRecoverWrite(c, s);
    RecoverCrash(c.g, s.phase.base, t.phase.step);
    assert forall b :: !Pinned(s, b) && !Pinned(t, b);
  }

  lemma RecoverDoneInv(c: Config, s: State)
    requires c.Valid() && Inv(c, s)
    requires Enabled(c, s, RecoverDone)
    ensures Inv(c, s.(phase := Running))
  {
    RecoveredIsClean(c.g, s.phase.base);
    assert s.writes[..s.cut] == s.writes;
    assert forall b :: !Pinned(s, b);
  }

  lemma LoadCache(c: Config, s: State, b: int)
    requires WritesOk(c, s.writes) && |s.disk| == |c.init| && CacheOk(c, s)
    requires 0 <= b < |s.disk| && b !in s.cache
    ensures CacheOk(c, s.(cache := s.cache[b := s.disk[b]]))
  {
    SamePins(s, s.(cache := s.cache[b := s.disk[b]]));
  }

  lemma EvictCache(c: Config, s: State, b: int)
    requires WritesOk(c, s.writes) && |s.disk| == |c.init| && CacheOk(c, s)
    requires b in s.cache && !Pinned(s, b)
    ensures CacheOk(c, s.(cache := s.cache - {b}))
  {
    var t := s.(cache := s.cache - {b});
    SamePins(s, t);
    assert forall i :: FirstPinned(s) <= i < |s.lh| ==> Pinned(s, s.lh[i]);
  }

  lemma CacheOnlyInv(c: Config, s: State, cache: map<int, Block>)
    requires c.Valid() && Inv(c, s) && CacheOk(c, s.(cache := cache))
    ensures Inv(c, s.(cache := cache))
  {
  }

  /** An event whose guard holds can always be taken. */
  lemma NeverStuck(c: Config, s: State, e: Event)
    requires c.Valid() && Inv(c, s) && Enabled(c, s, e)
    ensures exists t :: Step(c, s, e, t)
  {
    assert Sane(c, s, e);
    var t := match e
      case Begin => s.(active := s.active + [Op(s.nextOp, 0)], nextOp := s.nextOp + 1)
      case LogWrite(which, block, data) => DoLogWrite(s, which, block, data)
      case End(which) => DoEnd(s, which)
      case CommitWrite => DoCommitWrite(c, s)
      case CommitDone => s.(lh := [], phase := Running)
      case Load(b) => s.(cache := s.cache[b := s.disk[b]])
      case Evict(b) => s.(cache := s.cache - {b})
      case Crash => DoCrash(s)
      case RecoverWrite => DoRecoverWrite(c, s)
      case RecoverDone => s.(phase := Running);
    assert Step(c, s, e, t);
  }

  lemma LoadEvictInv(c: Config, s: State, e: Event, t: State)
    requires c.Valid() && Inv(c, s) && Step(c, s, e, t)
    requires e.Load? || e.Evict?
    ensures Inv(c, t)
  {
    if e.Load? {
      LoadCache(c, s, e.block);
    } else {
      EvictCache(c, s, e.block);
    }
    CacheOnlyInv(c, s, t.cache);
  }

  lemma BeginInv(c: Config, s: State)
    requires c.Valid() && Inv(c, s)
    requires Enabled(c, s, Begin)
    ensures Inv(c, s.(active := s.active + [Op(s.nextOp, 0)], nextOp := s.nextOp + 1))
  {
    SamePins(s, s.(active := s.active + [Op(s.nextOp, 0)], nextOp := s.nextOp + 1));
  }

  lemma OperationInv(c: Config, s: State, e: Event, t: State)
    requires c.Valid() && Inv(c, s) && Step(c, s, e, t)
    requires e.Begin? || e.LogWrite? || e.End?
    ensures Inv(c, t)
  {
    match e
    case Begin => BeginInv(c, s);
    case LogWrite(which, block, data) => LogWriteInv(c, s, which, block, data);
    case End(which) => EndInv(c, s, which);
  }

  lemma DiskEventInv(c: Config, s: State, e: Event, t: State)
    requires c.Valid() && Inv(c, s) && Step(c, s, e, t)
    requires e.CommitWrite? || e.CommitDone? || e.Crash? || e.RecoverWrite? || e.RecoverDone?
    ensures Inv(c, t)
  {
    match e
    case CommitWrite => CommitWriteInv(c, s);
    case CommitDone => CommitDoneInv(c, s);
    case Crash => CrashInv(c, s);
    case RecoverWrite => RecoverWriteInv(c, s);
    case RecoverDone => RecoverDoneInv(c, s);
  }

  /** Every event keeps the invariant. */
  lemma StepInv(c: Config, s: State, e: Event, t: State)
    requires c.Valid() && Inv(c, s) && Step(c, s, e, t)
    ensures Inv(c, t)
  {
    if e.Load? || e.Evict? {
      LoadEvictInv(c, s, e, t);
    } else if e.Begin? || e.LogWrite? || e.End? {
      OperationInv(c, s, e, t);
    } else {
      DiskEventInv(c, s, e, t);
    }
  }

  // ------------------------------------------------------------------ runs

  /** `ss` are the states of a run from the first boot, `es` its events. */
  ghost predicate IsRun(c: Config, ss: seq<State>, es: seq<Event>)
    requires c.Valid()
  {
    && |ss| == |es| + 1
    && ss[0] == Boot(c)
    && forall i {:trigger es[i]} :: 0 <= i < |es| ==> Step(c, ss[i], es[i], ss[i + 1])
  }

  lemma {:induction false} RunInv(c: Config, ss: seq<State>, es: seq<Event>, i: nat)
    requires c.Valid() && IsRun(c, ss, es) && i < |ss|
    ensures Inv(c, ss[i])
  {
    if i == 0 {
      BootInv(c);
    } else {
      RunInv(c, ss, es, i - 1);
      StepInv(c, ss[i - 1], es[i - 1], ss[i]);
    }
  }

  /** Crash atomicity. At every moment of every run, a recovery from the disk as
      it stands yields exactly the first `cut` log writes, and no operation has
      writes on both sides of the cut; operations still open are past it. */
  lemma CrashAtomicity(c: Config, ss: seq<State>, es: seq<Event>, i: nat)
    requires c.Valid() && IsRun(c, ss, es) && i < |ss|
    ensures var s := ss[i];
      && WritesOk(c, s.writes) && s.cut <= |s.writes|
      && DiskOk(c.g, s.disk)
      && SameHome(c.g, Recovered(c.g, s.disk), Replay(c.init, s.writes[..s.cut]))
      && (forall a, b :: 0 <= a < s.cut <= b < |s.writes| ==> s.writes[a].op != s.writes[b].op)
      && (forall a, k :: 0 <= a < s.cut && 0 <= k < |s.active| ==> s.writes[a].op != s.active[k].id)
  {
    RunInv(c, ss, es, i);
    RecoverableNow(c, ss[i]);
  }

  lemma StepKeepsDurable(c: Config, s: State, e: Event, t: State)
    requires c.Valid() && Step(c, s, e, t) && s.cut <= |s.writes|
    ensures s.cut <= t.cut <= |t.writes|
    ensures s.writes[..s.cut] == t.writes[..s.cut]
  {
    hide CommitDisk, RecoverDisk, Refreshed;
  }

  lemma PrefixChain(a: seq<Write>, p: seq<Write>, k: nat, q: seq<Write>, m: nat)
    requires k <= |p| && k <= m <= |q|
    requires a <= p[..k] && p[..k] == q[..k]
    ensures a <= q[..m]
  {
    assert q[..k] == q[..m][..k];
  }

  /** Durability: what a crash would keep now is kept for ever after. */
  lemma {:induction false} DurableForever(c: Config, ss: seq<State>, es: seq<Event>, i: nat, j: nat)
    requires c.Valid() && IsRun(c, ss, es) && i <= j < |ss|
    ensures ss[i].cut <= ss[j].cut <= |ss[j].writes| && ss[i].cut <= |ss[i].writes|
    ensures ss[i].writes[..ss[i].cut] <= ss[j].writes[..ss[j].cut]
    decreases j
  {
    hide Inv;
    if i == j {
      RunInv(c, ss, es, i);
      RecoverableNow(c, ss[i]);
    } else {
      DurableForever(c, ss, es, i, j - 1);
      StepKeepsDurable(c, ss[j - 1], es[j - 1], ss[j]);
      PrefixChain(ss[i].writes[..ss[i].cut], ss[j - 1].writes, ss[j - 1].cut, ss[j].writes, ss[j].cut);
    }
  }

  /** In any run a log_write() puts its contents where the next bread() finds them, and
      into the history, and changes no other block and nothing on disk. */
  lemma WriteLands(c: Config, ss: seq<State>, es: seq<Event>, i: nat, which: nat, b: int, data: Block)
    requires c.Valid() && IsRun(c, ss, es) && i < |es| && es[i] == LogWrite(which, b, data)
    ensures ss[i + 1].disk == ss[i].disk && 0 <= b < |ss[i].disk| && which < |ss[i].active|
    ensures View(ss[i + 1], b) == data && forall x :: 0 <= x < |ss[i].disk| && x != b ==> View(ss[i + 1], x) == View(ss[i], x)
    ensures ss[i + 1].writes == ss[i].writes + [Write(ss[i].active[which].id, b, data)]
  {
    assert Step(c, ss[i], es[i], ss[i + 1]);
  }

  /** Nothing else adds to the history, and only a crash takes away from it: what lies
      behind the cut, with all that was in memory. The cut moves at the header write of
      a commit and at no other time. */
  lemma HistoryIs(c: Config, ss: seq<State>, es: seq<Event>, i: nat)
    requires c.Valid() && IsRun(c, ss, es) && i < |es|
    ensures !es[i].LogWrite? && !es[i].Crash? ==> ss[i + 1].writes == ss[i].writes
    ensures es[i].Crash? ==> ss[i].cut <= |ss[i].writes| && ss[i + 1].writes == ss[i].writes[..ss[i].cut] && ss[i + 1].disk == ss[i].disk
    ensures es[i].Crash? ==> ss[i + 1].cache == map[] && ss[i + 1].lh == [] && ss[i + 1].active == [] && !ss[i + 1].phase.Running?
    ensures ss[i + 1].cut ==
      if es[i].CommitWrite? && ss[i].phase.Committing? && ss[i].phase.step == |ss[i].lh| then |ss[i].writes| else ss[i].cut
  {
    hide CommitDisk, RecoverDisk, Refreshed, DiskOk, Committable;
    assert Step(c, ss[i], es[i], ss[i + 1]);
  }

  /** begin_op() adds an operation that has written nothing yet, and end_op() takes one
      away; the commit starts exactly when the last one ends. */
  lemma OperationsAre(c: Config, ss: seq<State>, es: seq<Event>, i: nat)
    requires c.Valid() && IsRun(c, ss, es) && i < |es|
    ensures es[i].Begin? ==>
      && |ss[i + 1].active| == |ss[i].active| + 1 && ss[i + 1].active[..|ss[i].active|] == ss[i].active
      && var id := ss[i + 1].active[|ss[i].active|].id;
         && (forall k :: 0 <= k < |ss[i].active| ==> ss[i].active[k].id != id)
         && (forall k :: 0 <= k < |ss[i].writes| ==> ss[i].writes[k].op != id)
    ensures es[i].End? ==>
      && es[i].which < |ss[i].active|
      && ss[i + 1].active == ss[i].active[..es[i].which] + ss[i].active[es[i].which + 1..]
      && (ss[i + 1].phase.Committing? <==> |ss[i].active| == 1)
    ensures !es[i].Begin? && !es[i].End? && !es[i].Crash? ==> |ss[i + 1].active| == |ss[i].active|
    ensures !es[i].End? && ss[i + 1].phase.Committing? ==> ss[i].phase.Committing?
  {
    hide CommitDisk, RecoverDisk, Refreshed, DiskOk, Committable, CacheOk, PhaseOk, Loggable, WritesOk;
    RunInv(c, ss, es, i);
    assert Step(c, ss[i], es[i], ss[i + 1]);
  }

  /** Once a commit is done every operation that has ended is durable: all writes are
      at home on disk, and every later state keeps them. */
  lemma CommittedForever(c: Config, ss: seq<State>, es: seq<Event>, i: nat, j: nat)
    requires c.Valid() && IsRun(c, ss, es) && i < j < |ss| && es[i].CommitDone?
    ensures ss[i + 1].active == [] && WritesOk(c, ss[i].writes) && SameHome(c.g, ss[i + 1].disk, Replay(c.init, ss[i].writes))
    ensures ss[i + 1].cut == |ss[i].writes| && ss[i + 1].writes == ss[i].writes
    ensures ss[j].cut <= |ss[j].writes| && ss[i].writes <= ss[j].writes[..ss[j].cut]
  {
    hide Inv, Step, Replay, SameHome, WritesOk;
    RunInv(c, ss, es, i);
    RunInv(c, ss, es, i + 1);
    NothingPending(c, ss[i], ss[i + 1]);
    DurableForever(c, ss, es, i + 1, j);
    assert ss[i].writes[..ss[i + 1].cut] == ss[i].writes;
  }

  lemma NothingPending(c: Config, s: State, t: State)
    requires c.Valid() && Inv(c, s) && Inv(c, t) && Step(c, s, CommitDone, t)
    ensures t.active == [] && t.cut == |t.writes| && t.writes == s.writes && WritesOk(c, t.writes)
    ensures SameHome(c.g, t.disk, Replay(c.init, t.writes))
  {
    hide CacheOk, CommitDisk, Replay, Install, Logged, Applied, SameHome, Committable;
    PendingLogged(t.writes, t.cut, t.lh);
    assert t.writes[..t.cut] == t.writes;
  }

  lemma PendingLogged(ws: seq<Write>, cut: nat, lh: seq<int>)
    requires forall i :: cut <= i < |ws| ==> ws[i].block in lh
    ensures cut < |ws| ==> lh != []
  {
    if cut < |ws| {
      assert ws[cut].block in lh;
    }
  }

  predicate IsRebootEvent(e: Event) {
    e.Crash? || e.RecoverWrite? || e.RecoverDone? || e.Load? || e.Evict?
  }

  lemma RebootStep(c: Config, s: State, e: Event, t: State)
    requires c.Valid() && Step(c, s, e, t) && IsRebootEvent(e)
    ensures e.Crash? ==> s.cut <= |s.writes| && t.cut == s.cut && t.writes == s.writes[..s.cut]
    ensures !e.Crash? ==> t.cut == s.cut && t.writes == s.writes
  {
  }

  lemma {:induction false} RebootKeepsWrites(c: Config, ss: seq<State>, es: seq<Event>, i: nat, j: nat)
    requires c.Valid() && IsRun(c, ss, es) && i < j < |ss|
    requires es[i].Crash? && forall k :: i <= k < j ==> IsRebootEvent(es[k])
    ensures ss[i].cut <= |ss[i].writes|
    ensures ss[j].cut == |ss[j].writes| && ss[j].writes == ss[i].writes[..ss[i].cut]
    decreases j
  {
    RebootStep(c, ss[j - 1], es[j - 1], ss[j]);
    if i + 1 < j {
      RebootKeepsWrites(c, ss, es, i, j - 1);
    }
  }

  /** However often a crash interrupts the recovery, the recovery that finally
      completes leaves the home blocks that were durable at the first crash. */
  lemma RepeatedCrash(c: Config, ss: seq<State>, es: seq<Event>, i: nat, j: nat)
    requires c.Valid() && IsRun(c, ss, es) && i < j < |ss|
    requires es[i].Crash? && forall k :: i <= k < j ==> IsRebootEvent(es[k])
    requires ss[j].phase.Running?
    ensures ss[i].cut <= |ss[i].writes| && WritesOk(c, ss[i].writes)
    ensures SameHome(c.g, ss[j].disk, Replay(c.init, ss[i].writes[..ss[i].cut]))
  {
    RunInv(c, ss, es, i);
    RunInv(c, ss, es, j);
    RebootKeepsWrites(c, ss, es, i, j);
    assert ss[j].writes[..ss[j].cut] == ss[j].writes;
  }

  // ---------------------------------------------------------- transparency

  /** The last write to block b, if any, else -1. */
  function LastWrite(ws: seq<Write>, b: int): (i: int)
    ensures -1 <= i < |ws|
    ensures i >= 0 ==> ws[i].block == b
    ensures forall j :: i < j < |ws| ==> ws[j].block != b
  {
    if ws == [] then -1
    else if ws[|ws| - 1].block == b then |ws| - 1
    else LastWrite(ws[..|ws| - 1], b)
  }

  lemma {:induction false} ReplayAt(d: Disk, ws: seq<Write>, b: int)
    requires forall i :: 0 <= i < |ws| ==> 0 <= ws[i].block < |d|
    requires 0 <= b < |d|
    ensures Replay(d, ws)[b] == var i := LastWrite(ws, b); if i >= 0 then ws[i].data else d[b]
  {
    if ws != [] {
      ReplayAt(d, ws[..|ws| - 1], b);
    }
  }

  /** Cache and log are transparent: in every state outside recovery, bread() of
      a home block returns the contents last logged for it; a block with no write
      pending reads as it is on disk; and a logged block stays in its buffer
      until install_trans() has written it home. */
  lemma Transparent(c: Config, ss: seq<State>, es: seq<Event>, i: nat, b: int)
    requires c.Valid() && IsRun(c, ss, es) && i < |ss|
    requires !ss[i].phase.Recovering? && c.g.IsHome(|ss[i].disk|, b)
    ensures |ss[i].disk| == |c.init| && FirstPinned(ss[i]) <= |ss[i].lh|
    ensures View(ss[i], b) ==
            var k := LastWrite(ss[i].writes, b); if k >= 0 then ss[i].writes[k].data else c.init[b]
    ensures !Pinned(ss[i], b) ==> View(ss[i], b) == ss[i].disk[b]
    ensures Pinned(ss[i], b) ==> b in ss[i].cache
  {
    RunInv(c, ss, es, i);
    ReplayAt(c.init, ss[i].writes, b);
  }

  lemma CommitHomeChange(g: Geometry, d: Disk, bs: seq<int>, data: seq<Block>, i: nat, b: int)
    requires Committable(g, d, bs, data) && i < CommitSteps(bs) && g.IsHome(|d|, b)
    ensures |CommitDisk(g, d, bs, data, i)| == |CommitDisk(g, d, bs, data, i + 1)| == |d|
    ensures CommitDisk(g, d, bs, data, i + 1)[b] != CommitDisk(g, d, bs, data, i)[b] ==> b in bs && |bs| < i
  {
    CommitHomeAt(g, d, bs, data, i, b);
    CommitHomeAt(g, d, bs, data, i + 1, b);
  }

  lemma HomeChangeStep(c: Config, s: State, e: Event, t: State, b: int)
    requires c.Valid() && Inv(c, s) && Step(c, s, e, t)
    requires |s.disk| == |t.disk| && c.g.IsHome(|s.disk|, b) && t.disk[b] != s.disk[b]
    ensures e.RecoverWrite? || (e.CommitWrite? && b in s.lh)
    ensures e.CommitWrite? ==> s.phase.Committing? && |s.lh| < s.phase.step
  {
    hide CacheOk, OpsOk, Replay, Refreshed, CommitDisk, Install, WritesOk, Distinct;
    if e.CommitWrite? {
      CommitHomeChange(c.g, s.phase.base, s.lh, s.phase.data, s.phase.step, b);
    }
  }

  /** A home block changes on disk only in a recovery or after the header write
      that commits the transaction holding it. */
  lemma HomeWritesAreCommitted(c: Config, ss: seq<State>, es: seq<Event>, i: nat, b: int)
    requires c.Valid() && IsRun(c, ss, es) && i < |es|
    requires |ss[i].disk| == |ss[i + 1].disk| && c.g.IsHome(|ss[i].disk|, b)
    requires ss[i + 1].disk[b] != ss[i].disk[b]
    ensures es[i].RecoverWrite? || (es[i].CommitWrite? && b in ss[i].lh)
    ensures es[i].CommitWrite? ==> ss[i].phase.Committing? && |ss[i].lh| < ss[i].phase.step
  {
    RunInv(c, ss, es, i);
    HomeChangeStep(c, ss[i], es[i], ss[i + 1], b);
  }

  // ----------------------------------------------------------- reservation

  /** Log blocks that the open operations may still add. */
  function Unused(maxOp: nat, ops: seq<Op>): int {
    if ops == [] then 0 else maxOp - ops[0].used + Unused(maxOp, ops[1..])
  }

  ghost predicate BudgetOk(c: Config, s: State) {
    forall i :: 0 <= i < |s.active| ==> s.active[i].used <= c.maxOp
  }

  ghost predicate Reserved(c: Config, s: State) {
    |s.lh| + Unused(c.maxOp, s.active) <= c.g.logSize
  }

  lemma {:induction false} UnusedBounds(maxOp: nat, ops: seq<Op>)
    requires forall i :: 0 <= i < |ops| ==> ops[i].used <= maxOp
    ensures 0 <= Unused(maxOp, ops) <= |ops| * maxOp
  {
    if ops != [] {
      UnusedBounds(maxOp, ops[1..]);
      assert |ops| * maxOp == maxOp + |ops[1..]| * maxOp;
    }
  }

  lemma {:induction false} UnusedConcat(maxOp: nat, a: seq<Op>, b: seq<Op>)
    ensures Unused(maxOp, a + b) == Unused(maxOp, a) + Unused(maxOp, b)
  {
    if a == [] {
      assert a + b == b;
    } else {
      assert (a + b)[1..] == a[1..] + b;
      UnusedConcat(maxOp, a[1..], b);
    }
  }

  lemma UnusedSplit(maxOp: nat, ops: seq<Op>, i: nat)
    requires i < |ops|
    ensures Unused(maxOp, ops) ==
            Unused(maxOp, ops[..i]) + (maxOp - ops[i].used) + Unused(maxOp, ops[i + 1..])
  {
    assert ops == ops[..i] + ops[i..];
    UnusedConcat(maxOp, ops[..i], ops[i..]);
  }

  lemma ReservedStep(c: Config, s: State, e: Event, t: State)
    requires c.Valid() && Inv(c, s) && Step(c, s, e, t)
    requires Reserved(c, s) && BudgetOk(c, s) && BudgetOk(c, t)
    ensures Reserved(c, t)
  {
    hide Inv, CommitDisk, Refreshed, Unused;
    UnusedBounds(c.maxOp, s.active);
    UnusedNone(c.maxOp);
    match e
    case Begin =>
      UnusedConcat(c.maxOp, s.active, [Op(s.nextOp, 0)]);
      UnusedOne(c.maxOp, Op(s.nextOp, 0));
    case LogWrite(which, block, data) =>
      if block !in s.lh {
        ReservedWrite(c, s, which, block, data);
      }
    case End(which) =>
      UnusedSplit(c.maxOp, s.active, which);
      UnusedConcat(c.maxOp, s.active[..which], s.active[which + 1..]);
    case _ =>
  }

  lemma UnusedNone(maxOp: nat)
    ensures Unused(maxOp, []) == 0
  {
  }

  lemma UnusedOne(maxOp: nat, op: Op)
    ensures Unused(maxOp, [op]) == maxOp - op.used
  {
    assert [op][1..] == [];
  }

  lemma ReservedWrite(c: Config, s: State, which: nat, block: int, data: Block)
    requires which < |s.active| && block !in s.lh && Reserved(c, s)
    ensures Reserved(c, DoLogWrite(s, which, block, data))
  {
    hide Unused;
    var t := DoLogWrite(s, which, block, data);
    UnusedSplit(c.maxOp, s.active, which);
    UnusedSplit(c.maxOp, t.active, which);
    assert t.active[..which] == s.active[..which] && t.active[which + 1..] == s.active[which + 1..];
  }

  /** A run whose operations never add more than maxOp blocks each. */
  ghost predicate BudgetedRun(c: Config, ss: seq<State>, es: seq<Event>)
    requires c.Valid()
  {
    IsRun(c, ss, es) && forall i :: 0 <= i < |ss| ==> BudgetOk(c, ss[i])
  }

  /** Log reservation: the blocks logged and the budgets still open never exceed
      LOGSIZE. */
  lemma {:induction false} Reservation(c: Config, ss: seq<State>, es: seq<Event>, i: nat)
    requires c.Valid() && BudgetedRun(c, ss, es) && i < |ss|
    ensures Reserved(c, ss[i])
  {
    hide Step, Inv, BudgetOk;
    if i > 0 {
      Reservation(c, ss, es, i - 1);
      RunInv(c, ss, es, i - 1);
      ReservedStep(c, ss[i - 1], es[i - 1], ss[i]);
    }
  }

  lemma UnusedPositive(maxOp: nat, ops: seq<Op>, i: nat)
    requires forall k :: 0 <= k < |ops| ==> ops[k].used <= maxOp
    requires i < |ops| && ops[i].used < maxOp
    ensures 0 < Unused(maxOp, ops)
  {
    UnusedSplit(maxOp, ops, i);
    UnusedBounds(maxOp, ops[..i]);
    UnusedBounds(maxOp, ops[i + 1..]);
  }

  ghost predicate BudgetReachable(c: Config, s: State)
    requires c.Valid()
  {
    exists ss: seq<State>, es: seq<Event> :: BudgetedRun(c, ss, es) && ss[|ss| - 1] == s
  }

  /** log_write() never panics on an operation that has budget left. */
  ghost predicate NewWritesSafe(c: Config)
    requires c.Valid()
  {
    forall s: State, k: nat ::
      BudgetReachable(c, s) && k < |s.active| && s.active[k].used < c.maxOp ==> !Panics(c, s)
  }

  /** log_write() never panics on a block that is already in the log, for an operation
      that has used u blocks of its budget. */
  ghost predicate AbsorbedWritesSafe(c: Config, u: nat)
    requires c.Valid()
  {
    forall s: State, k: nat, b: int ::
      BudgetReachable(c, s) && k < |s.active| && s.active[k].used == u && b in s.lh ==> !Panics(c, s)
  }

  lemma ReservationPreventsPanic(c: Config)
    requires c.Valid() && c.g.nlog > c.g.logSize
    ensures NewWritesSafe(c)
  {
    forall s: State, k: nat | BudgetReachable(c, s) && k < |s.active| && s.active[k].used < c.maxOp
      ensures !Panics(c, s)
    {
      var ss: seq<State>, es: seq<Event> :| BudgetedRun(c, ss, es) && ss[|ss| - 1] == s;
      Reservation(c, ss, es, |ss| - 1);
      UnusedPositive(c.maxOp, s.active, k);
    }
  }

  // ------------------------------------------------------- stretches of a run

  ghost predicate Chain(c: Config, ss: seq<State>, es: seq<Event>)
    requires c.Valid()
  {
    |ss| == |es| + 1 && forall i {:trigger es[i]} :: 0 <= i < |es| ==> Step(c, ss[i], es[i], ss[i + 1])
  }

  /** The events lead from s to t. */
  ghost predicate Leads(c: Config, s: State, es: seq<Event>, t: State)
    requires c.Valid()
  {
    exists ss: seq<State> :: Chain(c, ss, es) && ss[0] == s && ss[|es|] == t
  }

  lemma LeadsOn(c: Config, s: State, es: seq<Event>, m: State, e: Event, t: State)
    requires c.Valid() && Leads(c, s, es, m) && Step(c, m, e, t)
    ensures Leads(c, s, es + [e], t)
  {
    hide Step;
    var ss: seq<State> :| Chain(c, ss, es) && ss[0] == s && ss[|es|] == m;
    var ss', es' := ss + [t], es + [e];
    forall i {:trigger es'[i]} | 0 <= i < |es'|
      ensures Step(c, ss'[i], es'[i], ss'[i + 1])
    {
      if i < |es| {
        assert es'[i] == es[i];
      }
    }
    assert Chain(c, ss', es');
  }

  lemma LeadsOne(c: Config, s: State, e: Event, t: State)
    requires c.Valid() && Step(c, s, e, t)
    ensures Leads(c, s, [e], t)
  {
    hide Step;
    assert Chain(c, [s, t], [e]);
  }

  /** Ending operations and committing leads from a reachable state to one. */
  lemma LeadsReach(c: Config, s: State, es: seq<Event>, t: State)
    requires c.Valid() && BudgetReachable(c, s) && Leads(c, s, es, t)
    requires forall i :: 0 <= i < |es| ==> IsCommitEvent(es[i])
    ensures BudgetReachable(c, t)
  {
    hide BudgetReachable, Step;
    var ss: seq<State> :| Chain(c, ss, es) && ss[0] == s && ss[|es|] == t;
    ChainReach(c, ss, es, |es|);
  }

  lemma {:induction false} ChainReach(c: Config, ss: seq<State>, es: seq<Event>, i: nat)
    requires c.Valid() && Chain(c, ss, es) && i <= |es| && BudgetReachable(c, ss[0])
    requires forall i :: 0 <= i < |es| ==> IsCommitEvent(es[i])
    ensures BudgetReachable(c, ss[i])
  {
    hide BudgetReachable, Step;
    if i > 0 {
      ChainReach(c, ss, es, i - 1);
      KeepsBudget(c, ss[i - 1], es[i - 1], ss[i]);
      ReachStep(c, ss[i - 1], es[i - 1], ss[i]);
    }
  }

  lemma BootReachable(c: Config)
    requires c.Valid()
    ensures BudgetReachable(c, Boot(c))
  {
    assert BudgetedRun(c, [Boot(c)], []);
  }

  lemma WithinOk(c: Config, s: State)
    requires c.Valid() && BudgetReachable(c, s)
    ensures BudgetOk(c, s)
  {
    var ss: seq<State>, es: seq<Event> :| BudgetedRun(c, ss, es) && ss[|ss| - 1] == s;
  }

  lemma KeepsBudget(c: Config, s: State, e: Event, t: State)
    requires c.Valid() && BudgetReachable(c, s) && Step(c, s, e, t) && (e.Begin? || e.End? || e.CommitWrite? || e.CommitDone?)
    ensures BudgetOk(c, t)
  {
    hide BudgetReachable, DoCommitWrite, CommitDisk;
    WithinOk(c, s);
    if e.CommitWrite? {
      CommitWriteActive(c, s, e, t);
    }
  }

  lemma CommitWriteActive(c: Config, s: State, e: Event, t: State)
    requires c.Valid() && Step(c, s, e, t) && e.CommitWrite?
    ensures t.active == s.active && t.lh == s.lh && s.phase.Committing? && s.phase.step < CommitSteps(s.lh)
    ensures t.phase == Committing(s.phase.base, s.phase.data, s.phase.step + 1)
  {
    hide CommitDisk, Refreshed;
  }

  predicate IsCommitEvent(e: Event) {
    e.End? || e.CommitWrite? || e.CommitDone?
  }

  /** The contents that end_op() commits. */
  function Pending(s: State): seq<Block>
    requires forall i :: 0 <= i < |s.lh| ==> s.lh[i] in s.cache
  {
    seq(|s.lh|, i requires 0 <= i < |s.lh| => s.cache[s.lh[i]])
  }

  /** The last end_op() and the commit it starts, if nothing interrupts them. */
  lemma CommitLeads(c: Config, s: State, which: nat) returns (es: seq<Event>, t: State)
    requires c.Valid() && Inv(c, s) && s.phase.Running? && which < |s.active| == 1
    ensures forall i :: 0 <= i < |s.lh| ==> s.lh[i] in s.cache
    ensures Leads(c, s, es, t) && (forall i :: 0 <= i < |es| ==> IsCommitEvent(es[i])) && Inv(c, t)
    ensures t.phase.Running? && t.lh == [] && t.active == []
    ensures Committable(c.g, s.disk, s.lh, Pending(s)) && t.disk == CommitDisk(c.g, s.disk, s.lh, Pending(s), CommitSteps(s.lh))
  {
    hide Inv, Leads, CommitDisk, Step, Committable;
    LastEnd(c, s, which);
    NeverStuck(c, s, End(which));
    var m: State :| Step(c, s, End(which), m);
    LastEndIs(c, s, which, m);
    StepInv(c, s, End(which), m);
    LeadsOne(c, s, End(which), m);
    var es1, u := CommitWrites(c, s, m, [End(which)], CommitSteps(s.lh));
    CommitImage(c, u);
    NeverStuck(c, u, CommitDone);
    t :| Step(c, u, CommitDone, t);
    StepInv(c, u, CommitDone, t);
    LeadsOn(c, s, es1, u, CommitDone, t);
    es := es1 + [CommitDone];
    CommitDoneIs(c, u, t);
  }

  lemma LastEnd(c: Config, s: State, which: nat)
    requires c.Valid() && Inv(c, s) && s.phase.Running? && which < |s.active|
    ensures Enabled(c, s, End(which)) && forall i :: 0 <= i < |s.lh| ==> s.lh[i] in s.cache
  {
    hide PhaseOk, OpsOk, Now;
  }

  lemma LastEndIs(c: Config, s: State, which: nat, t: State)
    requires c.Valid() && Step(c, s, End(which), t) && |s.active| == 1 && forall i :: 0 <= i < |s.lh| ==> s.lh[i] in s.cache
    ensures t.phase == Committing(s.disk, Pending(s), 0) && t.lh == s.lh && t.active == []
  {
    assert s.active[..which] + s.active[which + 1..] == [];
  }

  lemma CommitImage(c: Config, s: State)
    requires c.Valid() && Inv(c, s) && s.phase.Committing?
    ensures Committable(c.g, s.phase.base, s.lh, s.phase.data) && s.phase.step <= CommitSteps(s.lh)
    ensures s.disk == CommitDisk(c.g, s.phase.base, s.lh, s.phase.data, s.phase.step)
  {
    hide CacheOk, OpsOk, CommitDisk, Committable, SameHome, Applied, Now, Durable;
  }

  lemma CommitDoneIs(c: Config, s: State, t: State)
    requires c.Valid() && Step(c, s, CommitDone, t)
    ensures t == s.(lh := [], phase := Running)
  {
  }

  lemma {:induction false} CommitWrites(c: Config, s: State, m: State, es0: seq<Event>, i: nat) returns (es: seq<Event>, t: State)
    requires c.Valid() && Leads(c, s, es0, m) && Inv(c, m) && m.phase.Committing? && m.phase.step == 0 && i <= CommitSteps(m.lh)
    requires forall k :: 0 <= k < |es0| ==> IsCommitEvent(es0[k])
    ensures Leads(c, s, es, t) && (forall k :: 0 <= k < |es| ==> IsCommitEvent(es[k])) && Inv(c, t)
    ensures t.phase == Committing(m.phase.base, m.phase.data, i) && t.lh == m.lh && t.active == m.active
  {
    hide Inv, Leads, CommitDisk, Step;
    if i == 0 {
      es, t := es0, m;
    } else {
      var es1, u := CommitWrites(c, s, m, es0, i - 1);
      NeverStuck(c, u, CommitWrite);
      t :| Step(c, u, CommitWrite, t);
      CommitWriteActive(c, u, CommitWrite, t);
      StepInv(c, u, CommitWrite, t);
      LeadsOn(c, s, es1, u, CommitWrite, t);
      es := es1 + [CommitWrite];
    }
  }

  // ------------------------------------------- how far the reservation reaches

  /** A geometry whose log holds whole operations, on a disk with LOGSIZE blocks
      after the log. */
  ghost predicate Roomy(c: Config, k: nat) {
    && k > 0 && c.g.logSize == k * c.maxOp
    && c.g.start + c.g.nlog + c.g.logSize <= |c.init|
  }

  function Clamp(x: int, hi: nat): nat {
    if x < 0 then 0 else if x > hi then hi else x
  }

  function ZeroBlock(c: Config): Block {
    seq(c.g.words, i => 0)
  }

  function FillCache(c: Config, m: nat): map<int, Block> {
    if m == 0 then map[] else FillCache(c, m - 1)[c.g.start + c.g.nlog + m - 1 := ZeroBlock(c)]
  }

  /** k operations open, and the first m blocks after the log logged by them,
      each operation using up its budget before the next one starts. */
  function Filled(c: Config, k: nat, m: nat): State
    requires c.maxOp > 0
  {
    var home := c.g.start + c.g.nlog;
    State(c.init,
          FillCache(c, m),
          seq(m, i => home + i),
          seq(k, j requires 0 <= j => Op(j, Clamp(m - j * c.maxOp, c.maxOp))),
          k, Running,
          seq(m, i requires 0 <= i => Write(i / c.maxOp, home + i, ZeroBlock(c))),
          0, 0)
  }

  lemma ReachStep(c: Config, s: State, e: Event, t: State)
    requires c.Valid() && BudgetReachable(c, s) && Step(c, s, e, t) && BudgetOk(c, t)
    ensures BudgetReachable(c, t)
  {
    var ss: seq<State>, es: seq<Event> :| BudgetedRun(c, ss, es) && ss[|ss| - 1] == s;
    var ss', es' := ss + [t], es + [e];
    assert forall i :: 0 <= i < |ss| ==> ss'[i] == ss[i];
    assert forall i :: 0 <= i < |es| ==> es'[i] == es[i];
    assert BudgetedRun(c, ss', es');
  }

  lemma {:induction false} OpenAll(c: Config, k: nat, j: nat)
    requires c.Valid() && Roomy(c, k) && j <= k
    ensures BudgetReachable(c, Filled(c, j, 0))
  {
    if j == 0 {
      assert BudgetedRun(c, [Boot(c)], []);
      assert Filled(c, 0, 0) == Boot(c);
    } else {
      OpenAll(c, k, j - 1);
      var s, t := Filled(c, j - 1, 0), Filled(c, j, 0);
      assert j * c.maxOp <= k * c.maxOp;
      forall i | 0 <= i < j
        ensures t.active[i] == Op(i, 0)
      {
        assert i * c.maxOp >= 0;
      }
      assert t.active == s.active + [Op(j - 1, 0)];
      ReachStep(c, s, Begin, t);
    }
  }

  lemma MulMonotone(a: nat, b: nat, m: nat)
    requires a <= b
    ensures a * m <= b * m
  {
  }

  lemma ShareBounds(maxOp: nat, k: nat, m: nat)
    requires maxOp > 0 && m < k * maxOp
    ensures 0 <= m / maxOp < k
    ensures (m / maxOp) * maxOp <= m < (m / maxOp) * maxOp + maxOp
  {
    var q := m / maxOp;
    assert m == q * maxOp + m % maxOp;
    if q >= k {
      MulMonotone(k, q, maxOp);
    }
  }

  /** Which operation writes next, and how much it has used. */
  lemma FillShare(maxOp: nat, k: nat, m: nat, j: nat)
    requires maxOp > 0 && m < k * maxOp && j < k
    ensures m / maxOp < k
    ensures j < m / maxOp ==> Clamp(m - j * maxOp, maxOp) == Clamp(m + 1 - j * maxOp, maxOp) == maxOp
    ensures j > m / maxOp ==> Clamp(m - j * maxOp, maxOp) == Clamp(m + 1 - j * maxOp, maxOp) == 0
    ensures j == m / maxOp ==> Clamp(m - j * maxOp, maxOp) + 1 == Clamp(m + 1 - j * maxOp, maxOp) <= maxOp
  {
    var q := m / maxOp;
    ShareBounds(maxOp, k, m);
    if j < q {
      MulMonotone(j + 1, q, maxOp);
      assert (j + 1) * maxOp == j * maxOp + maxOp;
    } else if j > q {
      MulMonotone(q + 1, j, maxOp);
      assert (q + 1) * maxOp == q * maxOp + maxOp;
    }
  }

  lemma FilledNext(c: Config, k: nat, m: nat)
    requires c.maxOp > 0 && m < k * c.maxOp
    ensures 0 <= m / c.maxOp < k
    ensures var s := Filled(c, k, m);
      |s.active| == k && s.active[m / c.maxOp].used < c.maxOp && |s.lh| == m
  {
    FillShare(c.maxOp, k, m, m / c.maxOp);
  }

  lemma FilledBudget(c: Config, k: nat, m: nat)
    requires c.maxOp > 0
    ensures BudgetOk(c, Filled(c, k, m))
  {
  }

  lemma FillStep(c: Config, k: nat, m: nat)
    requires c.Valid() && Roomy(c, k) && m < c.g.Capacity()
    ensures m / c.maxOp < k
    ensures Step(c, Filled(c, k, m),
                 LogWrite(m / c.maxOp, c.g.start + c.g.nlog + m, ZeroBlock(c)),
                 Filled(c, k, m + 1))
  {
    var s, t := Filled(c, k, m), Filled(c, k, m + 1);
    var q, block := m / c.maxOp, c.g.start + c.g.nlog + m;
    FillShare(c.maxOp, k, m, 0);
    var op := s.active[q];
    forall j | 0 <= j < k
      ensures t.active[j] == s.active[q := Op(op.id, op.used + 1)][j]
    {
      FillShare(c.maxOp, k, m, j);
    }
    assert t.active == s.active[q := Op(op.id, op.used + 1)];
    assert t.lh == s.lh + [block];
    assert t.writes == s.writes + [Write(q, block, ZeroBlock(c))];
    assert block !in s.lh;
    assert t == DoLogWrite(s, q, block, ZeroBlock(c));
  }

  lemma {:induction false} FillUp(c: Config, k: nat, m: nat)
    requires c.Valid() && Roomy(c, k) && m <= c.g.Capacity()
    ensures BudgetReachable(c, Filled(c, k, m))
  {
    hide Filled, BudgetReachable, Step;
    if m == 0 {
      OpenAll(c, k, k);
    } else {
      FillUp(c, k, m - 1);
      FillStep(c, k, m - 1);
      FilledBudget(c, k, m);
      ReachStep(c, Filled(c, k, m - 1), LogWrite((m - 1) / c.maxOp, c.g.start + c.g.nlog + m - 1, ZeroBlock(c)),
                Filled(c, k, m));
    }
  }

  /** An operation with budget left can always log a block exactly when the log
      area is larger than LOGSIZE; mkfs makes it equal to LOGSIZE. */
  lemma NewWritesSafeIff(c: Config, k: nat)
    requires c.Valid() && Roomy(c, k)
    ensures NewWritesSafe(c) <==> c.g.nlog > c.g.logSize
  {
    if c.g.nlog > c.g.logSize {
      ReservationPreventsPanic(c);
    } else {
      var m := c.g.nlog - 1;
      FillUp(c, k, m);
      FilledNext(c, k, m);
      var s := Filled(c, k, m);
      hide BudgetReachable, Filled;
      assert Panics(c, s) && s.active[m / c.maxOp].used < c.maxOp;
    }
  }

  /** log_write() checks for a full log before it looks for the block in it, so
      writing again a block that is already logged is safe exactly while there is
      budget left, although it would use none. */
  lemma AbsorbedSafeIff(c: Config, k: nat, u: nat)
    requires c.Valid() && Roomy(c, k) && c.g.nlog > c.g.logSize && u <= c.maxOp
    ensures AbsorbedWritesSafe(c, u) <==> u < c.maxOp
  {
    hide BudgetReachable, Filled;
    if u < c.maxOp {
      ReservationPreventsPanic(c);
    } else {
      FillUp(c, k, c.g.logSize);
      AllSpent(c, k);
      var s := Filled(c, k, c.g.logSize);
      assert Panics(c, s) && s.active[0].used == u && c.g.start + c.g.nlog in s.lh;
    }
  }

  lemma AllSpent(c: Config, k: nat)
    requires c.Valid() && Roomy(c, k)
    ensures var s := Filled(c, k, c.g.logSize);
      |s.active| == k && s.active[0].used == c.maxOp && |s.lh| == c.g.logSize && c.g.start + c.g.nlog in s.lh
  {
    MulMonotone(1, k, c.maxOp);
    var s := Filled(c, k, c.g.logSize);
    assert s.lh[0] == c.g.start + c.g.nlog;
    assert s.active[0] == Op(0, Clamp(c.g.logSize - 0 * c.maxOp, c.maxOp));
  }

  /** With nlog > LOGSIZE that is the only way: a panic means that the open
      operations have all spent their budgets. */
  lemma PanicMeansSpent(c: Config, s: State, i: nat)
    requires c.Valid() && c.g.nlog > c.g.logSize
    requires BudgetReachable(c, s) && i < |s.active| && Panics(c, s)
    ensures s.active[i].used == c.maxOp && |s.lh| == c.g.logSize
  {
    var ss: seq<State>, es: seq<Event> :| BudgetedRun(c, ss, es) && ss[|ss| - 1] == s;
    Reservation(c, ss, es, |ss| - 1);
    UnusedBounds(c.maxOp, s.active);
    if s.active[i].used < c.maxOp {
      UnusedPositive(c.maxOp, s.active, i);
    }
  }
}
