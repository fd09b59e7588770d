/** kernel/log.c over the buffer cache: the loops that copy blocks between cache,
    log and home locations, proved to put the disk through exactly the images that
    `DiskLog` analyses. A method that returns false has hit a kernel panic
    ("bget: no buffers" or "too big a transaction") and stopped there, which
    leaves the disk as a crash at that point would. */
module Log {
  import opened DiskLog
  import opened BufferCache
  import opened Basics
  import P = LogProtocol

  function Count(b: bool): nat {
    if b then 1 else 0
  }

  // ---------------------------------------------------- transactions as values

  /** A transaction on the distinct home blocks `bs`: those from position k on are
      pinned, and every other block reads as it is on disk. */
  ghost predicate TxnOk(g: Geometry, disk: Disk, view: seq<Block>, refs: seq<nat>, bs: seq<int>, k: nat) {
    && Shape(g, disk) && Shape(g, view) && |refs| == |view| == |disk|
    && k <= |bs| <= g.logSize
    && Loggable(g, disk, bs) && Distinct(bs[k..])
    && (forall i :: k <= i < |bs| ==> refs[bs[i]] > 0)
    && (forall b :: 0 <= b < |disk| && b !in bs[k..] ==> view[b] == disk[b])
  }

  /** The cached contents of the given blocks. */
  ghost function Contents(view: seq<Block>, bs: seq<int>): (data: seq<Block>)
    requires forall i :: 0 <= i < |bs| ==> 0 <= bs[i] < |view|
    ensures |data| == |bs| && forall i :: 0 <= i < |bs| ==> data[i] == view[bs[i]]
  {
    seq(|bs|, i requires 0 <= i < |bs| => view[bs[i]])
  }

  ghost predicate Widths(g: Geometry, data: seq<Block>) {
    forall i :: 0 <= i < |data| ==> |data[i]| == g.words
  }

  /** h extends h0 by the disks of the first k iterations of write_log(). */
  ghost predicate LogTrace(g: Geometry, d0: Disk, h0: seq<Disk>, data: seq<Block>, k: nat, h: seq<Disk>) {
    && Shape(g, d0) && k <= |data| <= g.Capacity() && Widths(g, data)
    && |h| == |h0| + k && h0 <= h
    && forall j :: |h0| <= j < |h| ==> h[j] == Logged(g, d0, data, j - |h0| + 1)
  }

  /** h extends h0 by the disks of the first k iterations of install_trans(). */
  ghost predicate InstallTrace(g: Geometry, d0: Disk, h0: seq<Disk>, bs: seq<int>, k: nat, h: seq<Disk>) {
    && Shape(g, d0) && Loggable(g, d0, bs) && k <= |bs|
    && |h| == |h0| + k && h0 <= h
    && forall j :: |h0| <= j < |h| ==> h[j] == Install(g, d0, bs, j - |h0| + 1)
  }

  /** h extends h0 by the disks of the first block writes of a commit. */
  ghost predicate CommitTrace(g: Geometry, d0: Disk, h0: seq<Disk>, bs: seq<int>, data: seq<Block>, h: seq<Disk>) {
    && Committable(g, d0, bs, data)
    && h0 <= h && |h| <= |h0| + CommitSteps(bs)
    && forall j :: |h0| <= j < |h| ==> h[j] == CommitDisk(g, d0, bs, data, j - |h0| + 1)
  }

  ghost predicate RecoverTrace(g: Geometry, d0: Disk, h0: seq<Disk>, h: seq<Disk>) {
    && DiskOk(g, d0)
    && h0 <= h && |h| <= |h0| + RecoverSteps(g, d0)
    && forall j :: |h0| <= j < |h| ==> h[j] == RecoverDisk(g, d0, j - |h0| + 1)
  }

  lemma SlotWritten(g: Geometry, disk: Disk, view: seq<Block>, refs: seq<nat>, bs: seq<int>, tail: nat, data: Block)
    requires TxnOk(g, disk, view, refs, bs, 0) && tail < |bs|
    requires data == Contents(view, bs)[tail]
    ensures g.start <= g.Slot(tail) < |disk| == |view| == |refs| && 0 <= bs[tail] < |disk| && bs[tail] != g.Slot(tail)
    ensures refs[bs[tail]] > 0 && data == view[bs[tail]]
    ensures TxnOk(g, disk[g.Slot(tail) := data], view[g.Slot(tail) := data], refs, bs, 0)
    ensures Contents(view[g.Slot(tail) := data], bs) == Contents(view, bs)
  {
    assert Contents(view[g.Slot(tail) := data], bs) == Contents(view, bs);
  }

  lemma LogTraceGrows(g: Geometry, d0: Disk, h0: seq<Disk>, data: seq<Block>, k: nat, h: seq<Disk>, e: Disk)
    requires LogTrace(g, d0, h0, data, k, h) && k < |data|
    requires e == Logged(g, d0, data, k)[g.Slot(k) := data[k]]
    ensures e == Logged(g, d0, data, k + 1) && LogTrace(g, d0, h0, data, k + 1, h + [e])
  {
  }

  lemma HomeWritten(g: Geometry, disk: Disk, view: seq<Block>, refs: seq<nat>, bs: seq<int>, tail: nat,
                    data: Block, recovering: bool)
    requires g.Slot(tail) < |disk|
    requires TxnOk(g, disk, view, refs, bs, if recovering then |bs| else tail)
    requires tail < |bs| && data == disk[g.Slot(tail)]
    ensures g.start <= g.Slot(tail) < |disk| == |view| == |refs| && 0 <= bs[tail] < |disk| && bs[tail] != g.Slot(tail)
    ensures view[g.Slot(tail)] == disk[g.Slot(tail)]
    ensures !recovering ==> refs[bs[tail]] > 0
    ensures TxnOk(g, disk[bs[tail] := data], view[bs[tail] := data],
                  if recovering then refs else refs[bs[tail] := refs[bs[tail]] - 1], bs,
                  if recovering then |bs| else tail + 1)
  {
    if !recovering {
      assert bs[tail..] == [bs[tail]] + bs[tail + 1..];
    } else {
      assert bs[|bs|..] == [];
    }
  }

  lemma InstallStart(g: Geometry, d: Disk, view: seq<Block>, refs: seq<nat>, bs: seq<int>, k: nat, h: seq<Disk>)
    requires TxnOk(g, d, view, refs, bs, k)
    ensures Shape(g, d) && Loggable(g, d, bs) && Install(g, d, bs, 0) == d && InstallTrace(g, d, h, bs, 0, h)
    ensures (forall i :: 0 <= i < |bs| ==> g.Slot(i) < |d|) && Lower(refs, refs)
  {
  }

  lemma InstallTraceGrows(g: Geometry, d0: Disk, h0: seq<Disk>, bs: seq<int>, k: nat, h: seq<Disk>, e: Disk)
    requires InstallTrace(g, d0, h0, bs, k, h) && k < |bs|
    requires e == Install(g, d0, bs, k)[bs[k] := Install(g, d0, bs, k)[g.Slot(k)]]
    ensures e == Install(g, d0, bs, k + 1) && InstallTrace(g, d0, h0, bs, k + 1, h + [e])
  {
  }

  lemma ReferencedGrows(refs: seq<nat>, b: nat, x: nat)
    requires b < |refs|
    ensures |Referenced(refs[b := x])| <= |Referenced(refs)| + 1
  {
    SubsetSize(Referenced(refs[b := x]), Referenced(refs) + {b});
  }

  ghost predicate Lower(refs': seq<nat>, refs: seq<nat>) {
    |refs'| == |refs| && forall b :: 0 <= b < |refs| ==> refs'[b] <= refs[b]
  }

  lemma LowerStep(refs: seq<nat>, refs': seq<nat>, b: nat)
    requires Lower(refs', refs) && b < |refs| && refs'[b] > 0
    ensures Lower(refs'[b := refs'[b] - 1], refs)
  {
  }

  lemma ReferencedShrinks(refs: seq<nat>, refs': seq<nat>)
    requires Lower(refs', refs)
    ensures |Referenced(refs')| <= |Referenced(refs)|
  {
    SubsetSize(Referenced(refs'), Referenced(refs));
  }

  lemma RecoveryDone(g: Geometry, d0: Disk, h0: seq<Disk>, h: seq<Disk>, k: nat)
    requires DiskOk(g, d0) && InstallTrace(g, d0, h0, Head(g, d0), k, h)
    ensures RecoverTrace(g, d0, h0, h)
    ensures k == |Head(g, d0)| ==>
      var e := WithHead(g, Install(g, d0, Head(g, d0), k), []);
      e == Recovered(g, d0) && RecoverTrace(g, d0, h0, h + [e])
  {
  }

  lemma CommitLogged(g: Geometry, d0: Disk, h0: seq<Disk>, bs: seq<int>, data: seq<Block>, k: nat, h: seq<Disk>)
    requires Committable(g, d0, bs, data) && bs != [] && LogTrace(g, d0, h0, data, k, h)
    ensures CommitTrace(g, d0, h0, bs, data, h)
    ensures k == |bs| ==> CommitTrace(g, d0, h0, bs, data, h + [WithHead(g, Logged(g, d0, data, k), bs)])
  {
  }

  lemma CommitInstalled(g: Geometry, d0: Disk, h0: seq<Disk>, bs: seq<int>, data: seq<Block>, h1: seq<Disk>,
                        k: nat, h: seq<Disk>)
    requires CommitTrace(g, d0, h0, bs, data, h1) && bs != [] && |h1| == |h0| + |bs| + 1
    requires InstallTrace(g, WithHead(g, Logged(g, d0, data, |bs|), bs), h1, bs, k, h)
    ensures CommitTrace(g, d0, h0, bs, data, h)
    ensures k == |bs| ==>
      var e := WithHead(g, Install(g, WithHead(g, Logged(g, d0, data, |bs|), bs), bs, k), []);
      e == CommitDisk(g, d0, bs, data, CommitSteps(bs)) && CommitTrace(g, d0, h0, bs, data, h + [e])
  {
  }

  /** Every disk in the trace of a commit recovers to the state before it or to the
      state after it, and once to the state after it, then always. */
  lemma CommitTraceAtomic(g: Geometry, d0: Disk, h0: seq<Disk>, bs: seq<int>, data: seq<Block>, h: seq<Disk>, j: nat)
    requires CommitTrace(g, d0, h0, bs, data, h) && |h0| <= j < |h|
    ensures DiskOk(g, h[j])
    ensures SameHome(g, Recovered(g, h[j]), if j < |h0| + |bs| then d0 else Applied(d0, bs, data))
  {
    hide Install, Logged, Applied, WithHead, CommitDisk;
    assert h[j] == CommitDisk(g, d0, bs, data, j - |h0| + 1);
    CommitCrash(g, d0, bs, data, j - |h0| + 1);
  }

  /** Every disk in the trace of a recovery recovers to the same home blocks. */
  lemma RecoverTraceSafe(g: Geometry, d0: Disk, h0: seq<Disk>, h: seq<Disk>, j: nat)
    requires RecoverTrace(g, d0, h0, h) && |h0| <= j < |h|
    ensures DiskOk(g, h[j]) && SameHome(g, Recovered(g, h[j]), Recovered(g, d0))
  {
    RecoverCrash(g, d0, j - |h0| + 1);
  }

  // ------------------------------------------------------------ loop bodies

  /** The body of write_log()'s loop: the cached contents of a pinned home block
      go to a log slot. */
  method CopyToSlot(bc: Cache, slot: nat, home: nat) returns (ok: bool)
    requires bc.Valid() && slot < |bc.disk| && home < |bc.disk| && slot != home
    requires bc.refs[home] > 0
    modifies bc
    ensures bc.Valid()
    ensures |bc.bufs| == old(|bc.bufs|) && bc.refs == old(bc.refs)
    ensures |Referenced(bc.refs)| < |bc.bufs| ==> ok
    ensures ok ==> bc.disk == old(bc.disk)[slot := old(bc.view)[home]]
    ensures ok ==> bc.view == old(bc.view)[slot := old(bc.view)[home]]
    ensures ok ==> bc.history == old(bc.history) + [bc.disk]
    ensures !ok ==> bc.disk == old(bc.disk) && bc.history == old(bc.history) && bc.view == old(bc.view)
  {
    hide IsRing, Consistent;
    var to := bc.Bread(slot);
    if to < 0 {
      return false;
    }
    var from := bc.Bread(home);
    assert to != from;
    bc.Store(to, bc.bufs[from].data);
    bc.Bwrite(to);
    bc.Brelse(from);
    bc.Brelse(to);
    ok := true;
  }

  /** The body of install_trans()'s loop: a log slot goes to its home block, which
      a commit then unpins. */
  method CopyHome(bc: Cache, slot: nat, home: nat, recovering: bool) returns (ok: bool)
    requires bc.Valid() && slot < |bc.disk| && home < |bc.disk| && slot != home
    requires bc.view[slot] == bc.disk[slot]
    requires !recovering ==> bc.refs[home] > 0
    modifies bc
    ensures |bc.bufs| == old(|bc.bufs|)
    ensures |Referenced(old(bc.refs))| + Count(recovering) < |bc.bufs| ==> ok
    ensures ok ==> bc.Valid()
    ensures ok ==> bc.disk == old(bc.disk)[home := old(bc.disk)[slot]]
    ensures ok ==> bc.view == old(bc.view)[home := old(bc.disk)[slot]]
    ensures ok ==> bc.history == old(bc.history) + [bc.disk]
    ensures ok ==> bc.refs == if recovering then old(bc.refs) else old(bc.refs)[home := old(bc.refs)[home] - 1]
    ensures !ok ==> bc.disk == old(bc.disk) && bc.history == old(bc.history)
  {
    hide IsRing, Consistent;
    var lbuf := bc.Bread(slot);
    if lbuf < 0 {
      return false;
    }
    ReferencedGrows(old(bc.refs), slot, bc.refs[slot]);
    var dbuf := bc.Bread(home);
    if dbuf < 0 {
      return false;
    }
    assert lbuf != dbuf;
    bc.Store(dbuf, bc.bufs[lbuf].data);
    bc.Bwrite(dbuf);
    if !recovering {
      bc.Bunpin(dbuf);
    }
    bc.Brelse(lbuf);
    bc.Brelse(dbuf);
    ok := true;
  }

  // ------------------------------------------------------------- the protocol

  /** The log, in memory and on disk, is as in state s of the protocol, between two
      block writes. */
  ghost predicate Matches(c: P.Config, s: P.State, g: Geometry, maxOp: nat, disk: Disk, view: seq<Block>, bs: seq<int>,
                          outstanding: int, committing: bool) {
    && c.Valid() && P.Inv(c, s) && c.g == g && c.maxOp == maxOp
    && !s.phase.Recovering? && committing == s.phase.Committing?
    && s.disk == disk && s.lh == bs && |s.active| == outstanding
    && |view| == |disk| && forall b :: 0 <= b < |disk| ==> P.View(s, b) == view[b]
  }

  /** After recovery the protocol starts. */
  lemma BootMatches(g: Geometry, maxOp: nat, d0: Disk, disk: Disk, view: seq<Block>, refs: seq<nat>)
    requires maxOp > 0 && DiskOk(g, d0) && disk == Recovered(g, d0) && TxnOk(g, disk, view, refs, [], 0)
    ensures var c := P.Config(g, maxOp, disk);
      c.Valid() && Matches(c, P.Boot(c), g, maxOp, disk, view, [], 0, false) && P.BudgetReachable(c, P.Boot(c))
  {
    hide DiskOk, Recovered, P.Inv, P.BudgetedRun;
    RecoveredIsClean(g, d0);
    CleanView(g, disk, view, refs);
    var c := P.Config(g, maxOp, disk);
    P.BootInv(c);
    P.BootReachable(c);
  }

  lemma MatchesFacts(c: P.Config, s: P.State, g: Geometry, maxOp: nat, disk: Disk, view: seq<Block>, bs: seq<int>,
                     outstanding: int, committing: bool)
    requires Matches(c, s, g, maxOp, disk, view, bs, outstanding, committing)
    ensures c.Valid() && P.Inv(c, s) && c.g == g && c.maxOp == maxOp && committing == s.phase.Committing?
    ensures s.disk == disk && s.lh == bs && |s.active| == outstanding
    ensures s.phase.Running? ==> DiskOk(g, disk) && Head(g, disk) == []
  {
    hide P.CacheOk, P.OpsOk, P.WritesOk, SameHome, DiskOk;
  }

  lemma BeginMatches(c: P.Config, s: P.State, g: Geometry, maxOp: nat, disk: Disk, view: seq<Block>, bs: seq<int>,
                     outstanding: int, committing: bool)
    requires Matches(c, s, g, maxOp, disk, view, bs, outstanding, committing)
    ensures c.Valid() && (P.Enabled(c, s, P.Begin) <==> !committing && |bs| + (outstanding + 1) * maxOp <= g.logSize)
    ensures P.Enabled(c, s, P.Begin) ==>
      var t := s.(active := s.active + [P.Op(s.nextOp, 0)], nextOp := s.nextOp + 1);
      && P.Step(c, s, P.Begin, t) && Matches(c, t, g, maxOp, disk, view, bs, outstanding + 1, committing)
      && (P.BudgetReachable(c, s) ==> P.BudgetReachable(c, t))
  {
    hide P.Inv, P.BudgetReachable;
    if P.Enabled(c, s, P.Begin) {
      var t := s.(active := s.active + [P.Op(s.nextOp, 0)], nextOp := s.nextOp + 1);
      P.StepInv(c, s, P.Begin, t);
      if P.BudgetReachable(c, s) {
        P.KeepsBudget(c, s, P.Begin, t);
        P.ReachStep(c, s, P.Begin, t);
      }
    }
  }

  lemma WriteMatches(c: P.Config, s: P.State, which: nat, g: Geometry, maxOp: nat, disk: Disk, view: seq<Block>, bs: seq<int>,
                     outstanding: int, b: int, data: Block) returns (t: P.State)
    requires Matches(c, s, g, maxOp, disk, view, bs, outstanding, false) && which < |s.active| && !P.Panics(c, s)
    requires g.IsHome(|disk|, b) && |data| == g.words
    ensures c.Valid() && P.Step(c, s, P.LogWrite(which, b, data), t)
    ensures Matches(c, t, g, maxOp, disk, view[b := data], if b in bs then bs else bs + [b], outstanding, false)
    ensures P.BudgetReachable(c, s) && s.active[which].used < c.maxOp ==> P.BudgetReachable(c, t)
  {
    hide P.Inv, P.BudgetReachable, P.Panics;
    t := P.DoLogWrite(s, which, b, data);
    P.StepInv(c, s, P.LogWrite(which, b, data), t);
    if P.BudgetReachable(c, s) && s.active[which].used < c.maxOp {
      P.WithinOk(c, s);
      P.ReachStep(c, s, P.LogWrite(which, b, data), t);
    }
  }

  lemma BudgetSafe(c: P.Config, s: P.State, which: nat)
    requires c.Valid() && which < |s.active|
    ensures P.BudgetReachable(c, s) && s.active[which].used < c.maxOp && c.g.nlog > c.g.logSize ==> !P.Panics(c, s)
  {
    hide P.BudgetReachable, P.Panics;
    if c.g.nlog > c.g.logSize {
      P.ReservationPreventsPanic(c);
    }
  }

  lemma EndMatches(c: P.Config, s: P.State, which: nat, g: Geometry, maxOp: nat, disk: Disk, view: seq<Block>, bs: seq<int>,
                   outstanding: int) returns (t: P.State)
    requires Matches(c, s, g, maxOp, disk, view, bs, outstanding, false) && which < |s.active| && outstanding > 1
    ensures c.Valid() && P.Leads(c, s, [P.End(which)], t) && t.phase.Running?
    ensures Matches(c, t, g, maxOp, disk, view, bs, outstanding - 1, false)
    ensures P.BudgetReachable(c, s) ==> P.BudgetReachable(c, t)
  {
    hide P.Inv, P.BudgetReachable, P.Leads;
    P.LastEnd(c, s, which);
    t := P.DoEnd(s, which);
    P.StepInv(c, s, P.End(which), t);
    P.LeadsOne(c, s, P.End(which), t);
    if P.BudgetReachable(c, s) {
      P.LeadsReach(c, s, [P.End(which)], t);
    }
  }

  lemma CommitMatches(c: P.Config, s: P.State, which: nat, g: Geometry, maxOp: nat, disk: Disk, view: seq<Block>, bs: seq<int>)
    returns (es: seq<P.Event>, t: P.State)
    requires Matches(c, s, g, maxOp, disk, view, bs, 1, false) && which < |s.active|
    ensures c.Valid() && P.Leads(c, s, es, t) && t.phase.Running?
    ensures forall i :: 0 <= i < |bs| ==> 0 <= bs[i] < |view|
    ensures Committable(g, disk, bs, Contents(view, bs))
    ensures var d := CommitDisk(g, disk, bs, Contents(view, bs), CommitSteps(bs)); Matches(c, t, g, maxOp, d, d, [], 0, false)
    ensures P.BudgetReachable(c, s) ==> P.BudgetReachable(c, t)
  {
    hide P.BudgetReachable, P.Leads, P.Inv, CommitDisk, Committable;
    es, t := P.CommitLeads(c, s, which);
    ListedHome(c, s);
    assert P.Pending(s) == Contents(view, bs);
    EmptyView(c, t);
    if P.BudgetReachable(c, s) {
      P.LeadsReach(c, s, es, t);
    }
  }

  lemma ListedHome(c: P.Config, s: P.State)
    requires c.Valid() && P.Inv(c, s)
    ensures forall i :: 0 <= i < |s.lh| ==> 0 <= s.lh[i] < |s.disk|
  {
    hide P.CacheOk, P.OpsOk, P.PhaseOk, P.WritesOk;
  }

  lemma EmptyView(c: P.Config, s: P.State)
    requires c.Valid() && P.Inv(c, s) && s.phase.Running? && s.lh == []
    ensures forall b :: 0 <= b < |s.disk| ==> P.View(s, b) == s.disk[b]
  {
    hide P.OpsOk, P.PhaseOk, P.WritesOk, P.Now;
  }

  lemma CleanView(g: Geometry, disk: Disk, view: seq<Block>, refs: seq<nat>)
    requires TxnOk(g, disk, view, refs, [], 0)
    ensures view == disk
  {
  }

  class Log {
    const g: Geometry
    const maxOp: nat
    const bc: Cache
    var n: nat
    var block: seq<int>
    var outstanding: int
    var committing: bool

    /** The block numbers of the current transaction. */
    function Lh(): seq<int>
      requires n <= |block|
      reads this
    {
      block[..n]
    }

    ghost predicate ValidFrom(k: nat)
      reads this, bc
    {
      && |block| == g.logSize && n <= g.logSize
      && bc.Valid()
      && TxnOk(g, bc.disk, bc.view, bc.refs, Lh(), k)
    }

    ghost predicate Valid()
      reads this, bc
    {
      ValidFrom(0)
    }

    /** The zeroed `struct log`, before initlog() runs recovery. */
    constructor (g: Geometry, maxOp: nat, bc: Cache)
      requires bc.Valid() && Shape(g, bc.disk) && bc.view == bc.disk
      ensures this.g == g && this.maxOp == maxOp && this.bc == bc
      ensures Valid() && n == 0 && outstanding == 0 && !committing
    {
      this.g, this.maxOp, this.bc := g, maxOp, bc;
      n, block, outstanding, committing := 0, seq(g.logSize, i => 0), 0, false;
    }

    /** write_head()'s loop: the count and the block numbers, over the words that
        are already there. */
    method FillHeader(was: Block) returns (hb: Block)
      requires n <= |block| && n < |was|
      ensures hb == HeaderBlock(was, Lh())
    {
      hb := was[0 := n];
      var i := 0;
      while i < n
        invariant 0 <= i <= n && |hb| == |was|
        invariant hb[0] == n
        invariant forall j :: 0 <= j < i ==> hb[1 + j] == block[j]
        invariant forall j :: i < j < |hb| ==> hb[j] == was[j]
      {
        hb := hb[1 + i := block[i]];
        i := i + 1;
      }
    }

    /** write_head(): one block write that puts the in-memory header on disk. */
    method WriteHead() returns (ok: bool)
      requires Valid()
      modifies bc
      ensures Valid()
      ensures |bc.bufs| == old(|bc.bufs|) && bc.refs == old(bc.refs)
      ensures |Referenced(bc.refs)| < |bc.bufs| ==> ok
      ensures ok ==> bc.disk == WithHead(g, old(bc.disk), Lh()) && bc.history == old(bc.history) + [bc.disk]
      ensures ok ==> bc.view == old(bc.view)[g.start := bc.disk[g.start]]
      ensures !ok ==> bc.disk == old(bc.disk) && bc.history == old(bc.history) && bc.view == old(bc.view)
    {
      hide IsRing, Consistent;
      assert g.start !in Lh()[0..];
      var b := bc.Bread(g.start);
      if b < 0 {
        return false;
      }
      var hb := FillHeader(bc.bufs[b].data);
      bc.Store(b, hb);
      bc.Bwrite(b);
      bc.Brelse(b);
      ok := true;
    }

    /** write_log(): the cached contents of the transaction's blocks go to the log
        slots, one block write each. */
    method WriteLog() returns (ok: bool, ghost k: nat, ghost data: seq<Block>)
      requires Valid()
      modifies bc
      ensures Valid() && |bc.bufs| == old(|bc.bufs|) && bc.refs == old(bc.refs)
      ensures |Referenced(bc.refs)| < |bc.bufs| ==> ok
      ensures data == old(Contents(bc.view, Lh())) == Contents(bc.view, Lh())
      ensures LogTrace(g, old(bc.disk), old(bc.history), data, k, bc.history)
      ensures bc.disk == Logged(g, old(bc.disk), data, k) && (ok ==> k == n)
    {
      hide IsRing, Consistent, Distinct, Logged;
      ghost var d0, h0, bs := bc.disk, bc.history, Lh();
      data := Contents(bc.view, bs);
      var tail := 0;
      while tail < n
        invariant 0 <= tail <= n <= |block| == g.logSize && bs == block[..n] && |data| == n
        invariant bc.Valid() && TxnOk(g, bc.disk, bc.view, bc.refs, bs, 0)
        invariant |bc.bufs| == old(|bc.bufs|) && bc.refs == old(bc.refs)
        invariant Contents(bc.view, bs) == data
        invariant LogTrace(g, d0, h0, data, tail, bc.history)
        invariant bc.disk == Logged(g, d0, data, tail)
      {
        assert bs[tail] == block[tail];
        SlotWritten(g, bc.disk, bc.view, bc.refs, bs, tail, data[tail]);
        LogTraceGrows(g, d0, h0, data, tail, bc.history, bc.disk[g.Slot(tail) := data[tail]]);
        ok := CopyToSlot(bc, g.Slot(tail), block[tail]);
        if !ok {
          k := tail;
          return;
        }
        tail := tail + 1;
      }
      ok, k := true, n;
    }

    /** install_trans(): each log slot goes to its home block, one block write
        each; a commit unpins the buffers on the way. */
    method InstallTrans(recovering: bool) returns (ok: bool, ghost k: nat)
      requires ValidFrom(if recovering then n else 0)
      modifies bc
      ensures |bc.bufs| == old(|bc.bufs|)
      ensures |Referenced(old(bc.refs))| + Count(recovering) < |bc.bufs| ==> ok
      ensures ok ==> ValidFrom(n) && k == n
      ensures ok ==> Lower(bc.refs, old(bc.refs))
      ensures InstallTrace(g, old(bc.disk), old(bc.history), Lh(), k, bc.history)
      ensures bc.disk == Install(g, old(bc.disk), Lh(), k)
    {
      hide IsRing, Consistent, TxnOk, InstallTrace, Install, Referenced, Shape, Loggable, Distinct, Lower;
      ghost var d0, h0, bs, r0 := bc.disk, bc.history, Lh(), bc.refs;
      InstallStart(g, d0, bc.view, r0, bs, if recovering then n else 0, h0);
      var tail := 0;
      while tail < n
        invariant 0 <= tail <= n <= |block| == g.logSize && bs == block[..n]
        invariant bc.Valid() && TxnOk(g, bc.disk, bc.view, bc.refs, bs, if recovering then n else tail)
        invariant |bc.bufs| == old(|bc.bufs|) && Lower(bc.refs, r0)
        invariant InstallTrace(g, d0, h0, bs, tail, bc.history)
        invariant bc.disk == Install(g, d0, bs, tail)
      {
        assert bs[tail] == block[tail];
        HomeWritten(g, bc.disk, bc.view, bc.refs, bs, tail, bc.disk[g.Slot(tail)], recovering);
        InstallTraceGrows(g, d0, h0, bs, tail, bc.history, bc.disk[bs[tail] := bc.disk[g.Slot(tail)]]);
        ReferencedShrinks(r0, bc.refs);
        if !recovering {
          LowerStep(r0, bc.refs, bs[tail]);
        }
        ok := CopyHome(bc, g.Slot(tail), block[tail], recovering);
        if !ok {
          k := tail;
          return;
        }
        tail := tail + 1;
      }
      ok, k := true, n;
    }

    /** read_head(): the on-disk block list becomes the in-memory one. */
    method ReadHead() returns (ok: bool)
      requires Valid() && n == 0 && DiskOk(g, bc.disk)
      modifies this`n, this`block, bc
      ensures bc.disk == old(bc.disk) && bc.history == old(bc.history) && |bc.bufs| == old(|bc.bufs|)
      ensures |Referenced(old(bc.refs))| < |bc.bufs| ==> ok
      ensures ok ==> bc.Valid() && bc.view == old(bc.view) && bc.refs == old(bc.refs)
      ensures ok ==> |block| == g.logSize && n <= g.logSize && Lh() == Head(g, bc.disk)
    {
      hide IsRing, Consistent;
      var b := bc.Bread(g.start);
      if b < 0 {
        return false;
      }
      var lh := bc.bufs[b].data;
      assert lh == bc.disk[g.start];
      n := lh[0];
      var i := 0;
      while i < n
        modifies this`block
        invariant 0 <= i <= n && |block| == g.logSize
        invariant forall j :: 0 <= j < i ==> block[j] == lh[1 + j]
      {
        block := block[i := lh[1 + i]];
        i := i + 1;
      }
      assert Lh() == Head(g, bc.disk);
      bc.Brelse(b);
      ok := true;
    }

    /** recover_from_log(): whatever was committed is installed and the log is
        cleared; every intermediate disk recovers to the same home blocks. */
    method RecoverFromLog() returns (ok: bool)
      requires Valid() && n == 0 && DiskOk(g, bc.disk)
      modifies this`n, this`block, bc
      ensures RecoverTrace(g, old(bc.disk), old(bc.history), bc.history)
      ensures ok ==> Valid() && n == 0 && bc.disk == Recovered(g, old(bc.disk))
      ensures ok && maxOp > 0 && outstanding == 0 && !committing ==>
        var c := P.Config(g, maxOp, bc.disk); c.Valid() && Implements(c, P.Boot(c)) && P.BudgetReachable(c, P.Boot(c))
      ensures |Referenced(old(bc.refs))| + 1 < |old(bc.bufs)| ==> ok
    {
      hide IsRing, Consistent, Matches, P.BudgetReachable;
      ghost var d0, h0, k := bc.disk, bc.history, 0;
      assert bc.view == bc.disk;
      ok := ReadHead();
      if !ok {
        return;
      }
      ok, k := InstallTrans(true);
      RecoveryDone(g, d0, h0, bc.history, k);
      if !ok {
        return;
      }
      ReferencedShrinks(old(bc.refs), bc.refs);
      n := 0;
      ok := WriteHead();
      if ok && maxOp > 0 {
        BootMatches(g, maxOp, d0, bc.disk, bc.view, bc.refs);
      }
    }

    /** commit(): the disk passes through exactly the images of `CommitDisk`. */
    method Commit() returns (ok: bool)
      requires Valid() && DiskOk(g, bc.disk) && Head(g, bc.disk) == []
      modifies this`n, bc
      ensures CommitTrace(g, old(bc.disk), old(bc.history), old(Lh()), old(Contents(bc.view, Lh())), bc.history)
      ensures ok ==> Valid() && n == 0
      ensures ok ==> bc.disk == CommitDisk(g, old(bc.disk), old(Lh()), old(Contents(bc.view, Lh())), CommitSteps(old(Lh())))
      ensures |Referenced(old(bc.refs))| < |old(bc.bufs)| ==> ok
    {
      hide IsRing, Consistent, Install, Logged, HeaderBlock, Referenced;
      if n == 0 {
        return true;
      }
      ghost var d0, h0, bs, k, data := bc.disk, bc.history, Lh(), 0, [];
      ok, k, data := WriteLog();
      CommitLogged(g, d0, h0, bs, data, k, bc.history);
      if !ok {
        return;
      }
      ok := WriteHead();
      if !ok {
        return;
      }
      ghost var h1 := bc.history;
      ok, k := InstallTrans(false);
      CommitInstalled(g, d0, h0, bs, data, h1, k, bc.history);
      if !ok {
        return;
      }
      ReferencedShrinks(old(bc.refs), bc.refs);
      n := 0;
      ok := WriteHead();
    }

    /** s is the state of the protocol that this log is in. */
    ghost predicate Implements(c: P.Config, s: P.State)
      reads this, bc
    {
      n <= |block| && Matches(c, s, g, maxOp, bc.disk, bc.view, Lh(), outstanding, committing)
    }

    /** One pass of begin_op()'s loop; false means that it sleeps and tries again. */
    method BeginOp(ghost c: P.Config, ghost s: P.State) returns (admitted: bool, ghost t: P.State)
      requires Implements(c, s)
      modifies this`outstanding
      ensures c.Valid() && Implements(c, t)
      ensures admitted <==> P.Enabled(c, s, P.Begin)
      ensures admitted <==> !committing && n + (old(outstanding) + 1) * maxOp <= g.logSize
      ensures outstanding == old(outstanding) + if admitted then 1 else 0
      ensures if admitted then P.Step(c, s, P.Begin, t) else t == s
      ensures P.BudgetReachable(c, s) ==> P.BudgetReachable(c, t)
    {
      hide Matches, P.Step, P.BudgetReachable;
      t := s;
      BeginMatches(c, s, g, maxOp, bc.disk, bc.view, Lh(), outstanding, committing);
      if committing {
        admitted := false;
      } else if n + (outstanding + 1) * maxOp > g.logSize {
        admitted := false;
      } else {
        outstanding := outstanding + 1;
        admitted := true;
        t := s.(active := s.active + [P.Op(s.nextOp, 0)], nextOp := s.nextOp + 1);
      }
    }

    /** end_op(): the last operation commits the transaction. */
    method EndOp(ghost c: P.Config, ghost s: P.State, ghost which: nat) returns (ok: bool, ghost es: seq<P.Event>, ghost t: P.State)
      requires Valid() && Implements(c, s) && s.phase.Running? && which < |s.active|
      modifies this`outstanding, this`committing, this`n, bc
      ensures outstanding == old(outstanding) - 1 && (ok ==> !committing)
      ensures old(outstanding) > 1 ==> ok && es == [P.End(which)] && n == old(n) && bc.history == old(bc.history)
      ensures old(outstanding) == 1 ==>
        CommitTrace(g, old(bc.disk), old(bc.history), old(Lh()), old(Contents(bc.view, Lh())), bc.history)
      ensures old(outstanding) == 1 && ok ==>
        n == 0 && bc.disk == CommitDisk(g, old(bc.disk), old(Lh()), old(Contents(bc.view, Lh())), CommitSteps(old(Lh())))
      ensures old(outstanding) == 1 && |Referenced(old(bc.refs))| < |old(bc.bufs)| ==> ok
      ensures ok ==> Valid() && c.Valid() && Implements(c, t) && t.phase.Running? && P.Leads(c, s, es, t)
      ensures ok && P.BudgetReachable(c, s) ==> P.BudgetReachable(c, t)
    {
      hide IsRing, Consistent, TxnOk, Matches, P.BudgetReachable, P.Leads, P.Step, CommitDisk, CommitTrace;
      es, t := [], s;
      MatchesFacts(c, s, g, maxOp, bc.disk, bc.view, Lh(), outstanding, committing);
      ghost var disk0, view0, bs := bc.disk, bc.view, Lh();
      if outstanding == 1 {
        es, t := CommitMatches(c, s, which, g, maxOp, bc.disk, bc.view, Lh());
      } else {
        t := EndMatches(c, s, which, g, maxOp, bc.disk, bc.view, Lh(), outstanding);
        es := [P.End(which)];
      }
      outstanding := outstanding - 1;
      if outstanding == 0 {
        committing := true;
        ok := Commit();
        if ok {
          committing := false;
          CleanView(g, bc.disk, bc.view, bc.refs);
        }
      } else {
        ok := true;
      }
    }

    /** The holder of buffer i stores data in it and, for operation `which`, calls
        log_write(). */
    method Modify(i: nat, data: Block, ghost c: P.Config, ghost s: P.State, ghost which: nat) returns (ok: bool, ghost t: P.State)
      requires Valid() && Implements(c, s) && s.phase.Running? && which < |s.active|
      requires i < |bc.bufs| && bc.bufs[i].dev == ROOTDEV && bc.bufs[i].valid && bc.bufs[i].refcnt > 0
      requires g.IsHome(|bc.disk|, bc.bufs[i].blockno) && |data| == g.words
      modifies this`n, this`block, bc
      ensures c.Valid() && (ok <==> !P.Panics(c, s))
      ensures ok ==> Valid() && Implements(c, t) && P.Step(c, s, P.LogWrite(which, old(bc.bufs[i].blockno), data), t)
      ensures ok ==> bc.view == old(bc.view[bc.bufs[i].blockno := data]) && bc.disk == old(bc.disk)
      ensures P.BudgetReachable(c, s) && s.active[which].used < c.maxOp && g.nlog > g.logSize ==> ok && P.BudgetReachable(c, t)
    {
      hide IsRing, Consistent, TxnOk, Matches, P.BudgetReachable, P.Step;
      t := s;
      var b := bc.bufs[i].blockno;
      ghost var bs := Lh();
      MatchesFacts(c, s, g, maxOp, bc.disk, bc.view, Lh(), outstanding, committing);
      ghost var count := bc.bufs[i].refcnt + 1;
      if !P.Panics(c, s) {
        BlockLogged(g, bc.disk, bc.view, bc.refs, Lh(), b, data, count);
        t := WriteMatches(c, s, which, g, maxOp, bc.disk, bc.view, Lh(), outstanding, b, data);
      }
      BudgetSafe(c, s, which);
      bc.Store(i, data);
      ok := LogWrite(i);
    }

    /** log_write() of the held buffer i, whose block has just been modified: the
        block joins the transaction, once. */
    method LogWrite(i: nat) returns (ok: bool)
      requires |block| == g.logSize && n <= g.logSize
      requires bc.Valid() && i < |bc.bufs| && bc.bufs[i].dev == ROOTDEV && bc.bufs[i].refcnt > 0
      modifies this`n, this`block, bc`bufs, bc`refs
      ensures bc.Valid() && |block| == g.logSize && n <= g.logSize
      ensures ok <==> old(n) < g.logSize && old(n) < g.nlog - 1 && outstanding >= 1
      ensures !ok ==> Lh() == old(Lh()) && bc.refs == old(bc.refs)
      ensures ok && old(bc.bufs[i].blockno) in old(Lh()) ==> Lh() == old(Lh()) && bc.refs == old(bc.refs)
      ensures ok && old(bc.bufs[i].blockno) !in old(Lh()) ==>
        && Lh() == old(Lh()) + [old(bc.bufs[i].blockno)]
        && bc.refs == old(bc.refs[bc.bufs[i].blockno := bc.bufs[i].refcnt + 1])
    {
      hide IsRing, Consistent;
      if n >= g.logSize || n >= g.nlog - 1 {
        return false;
      }
      if outstanding < 1 {
        return false;
      }
      var b := bc.bufs[i].blockno;
      var k := 0;
      while k < n
        invariant 0 <= k <= n && b !in block[..k]
      {
        if block[k] == b {
          break;
        }
        k := k + 1;
      }
      assert k < n ==> Lh()[k] == b;
      block := block[k := b];
      if k == n {
        bc.Bpin(i);
        n := n + 1;
      }
      assert k < old(n) ==> Lh() == old(Lh());
      ok := true;
    }
  }

  /** A new block in the transaction: what log_write() leaves is again a proper
      transaction, in which only the blocks listed may differ from the disk. */
  lemma BlockLogged(g: Geometry, disk: Disk, view: seq<Block>, refs: seq<nat>, bs: seq<int>, b: int, data: Block, count: nat)
    requires TxnOk(g, disk, view, refs, bs, 0) && |bs| < g.Capacity()
    requires g.IsHome(|disk|, b) && |data| == g.words && count > 0
    ensures TxnOk(g, disk, view[b := data], if b in bs then refs else refs[b := count],
                  if b in bs then bs else bs + [b], 0)
  {
    assert bs[0..] == bs;
    assert (bs + [b])[0..] == bs + [b];
    assert forall x :: x !in bs + [b] ==> x !in bs && x != b;
  }
}
