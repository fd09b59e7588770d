/** The on-disk redo log of kernel/log.c, as pure functions on disk images.

    A disk is a sequence of blocks and a block is a sequence of 32-bit words.
    The log occupies `nlog` blocks from `start`: a header block (word 0 is the
    count n, words 1..n are home block numbers), then one slot per logged block.

    Every disk image that a commit or a recovery leaves behind after its i-th
    block write is given by `CommitDisk` and `RecoverDisk`; the lemmas here say
    what a later recovery makes of each of them. */
module DiskLog {
  import opened Basics

  type Block = seq<int>
  type Disk = seq<Block>

  /** The superblock's log fields, the number of words in a block and LOGSIZE. */
  datatype Geometry = Geometry(start: nat, nlog: nat, words: nat, logSize: nat) {
    /** initlog() panics unless the header fits in a block. */
    ghost predicate Valid() {
      && logSize + 1 < words
      && 1 <= nlog
    }

    predicate InLog(b: int) {
      start <= b < start + nlog
    }

    /** Home blocks are the blocks of a disk of `size` blocks outside the log. */
    predicate IsHome(size: nat, b: int) {
      0 <= b < size && !InLog(b)
    }

    /** The block that holds slot `tail` of the log. */
    function Slot(tail: nat): nat {
      start + tail + 1
    }

    /** How many blocks a transaction may hold: log_write() panics beyond it. */
    function Capacity(): int {
      if logSize < nlog - 1 then logSize else nlog - 1
    }
  }

  // ---------------------------------------------------------------- header

  function HeadCount(g: Geometry, d: Disk): int
    requires g.start < |d| && 0 < |d[g.start]|
  {
    d[g.start][0]
  }

  /** The home block numbers recorded in the on-disk header. */
  function Head(g: Geometry, d: Disk): seq<int>
    requires DiskOk(g, d)
  {
    d[g.start][1..1 + HeadCount(g, d)]
  }

  /** A header block after write_head(): words past the n-th stay stale. */
  function HeaderBlock(old_: Block, bs: seq<int>): Block
    requires |bs| < |old_|
  {
    [|bs|] + bs + old_[|bs| + 1..]
  }

  ghost predicate Shape(g: Geometry, d: Disk) {
    && g.Valid()
    && g.start + g.nlog <= |d|
    && forall b :: 0 <= b < |d| ==> |d[b]| == g.words
  }

  /** Home block numbers that fit in the log. */
  ghost predicate Loggable(g: Geometry, d: Disk, bs: seq<int>) {
    && |bs| <= g.Capacity()
    && forall i :: 0 <= i < |bs| ==> g.IsHome(|d|, bs[i])
  }

  /** The header on disk is one that this log could have written. */
  ghost predicate DiskOk(g: Geometry, d: Disk) {
    && Shape(g, d)
    && 0 <= HeadCount(g, d) <= g.Capacity()
    && forall i :: 1 <= i < 1 + HeadCount(g, d) ==> g.IsHome(|d|, d[g.start][i])
  }

  function WithHead(g: Geometry, d: Disk, bs: seq<int>): (r: Disk)
    requires Shape(g, d)
    requires |bs| <= g.Capacity()
  {
    d[g.start := HeaderBlock(d[g.start], bs)]
  }

  /** write_head() followed by read_head() gives back the block list. */
  lemma HeadRoundTrip(g: Geometry, d: Disk, bs: seq<int>)
    requires Shape(g, d) && Loggable(g, d, bs)
    ensures DiskOk(g, WithHead(g, d, bs))
    ensures Head(g, WithHead(g, d, bs)) == bs
  {
    var h := HeaderBlock(d[g.start], bs);
    assert forall i :: 1 <= i < 1 + |bs| ==> h[i] == bs[i - 1];
    assert h[1..1 + |bs|] == bs;
  }

  // --------------------------------------------------------------- install

  /** The first k iterations of install_trans(): slot i goes to home block bs[i]. */
  function Install(g: Geometry, d: Disk, bs: seq<int>, k: nat): (r: Disk)
    requires Shape(g, d) && Loggable(g, d, bs)
    requires k <= |bs|
    ensures Shape(g, r) && |r| == |d|
    ensures forall b :: 0 <= b < |d| && !g.IsHome(|d|, b) ==> r[b] == d[b]
  {
    if k == 0 then d
    else
      var r := Install(g, d, bs, k - 1);
      r[bs[k - 1] := r[g.Slot(k - 1)]]
  }

  /** The last position before k at which b occurs in bs, or -1. */
  function LastIndex(bs: seq<int>, k: nat, b: int): (i: int)
    requires k <= |bs|
    ensures -1 <= i < k
    ensures i >= 0 ==> bs[i] == b
    ensures forall j :: i < j < k ==> bs[j] != b
  {
    if k == 0 then -1
    else if bs[k - 1] == b then k - 1
    else LastIndex(bs, k - 1, b)
  }

  /** What installing puts in a home block: the last slot logged for it, if any. */
  lemma {:induction false} InstallAt(g: Geometry, d: Disk, bs: seq<int>, k: nat, b: int)
    requires Shape(g, d) && Loggable(g, d, bs)
    requires k <= |bs| && g.IsHome(|d|, b)
    ensures Install(g, d, bs, k)[b] ==
            var i := LastIndex(bs, k, b); if i >= 0 then d[g.Slot(i)] else d[b]
  {
    if k > 0 {
      InstallAt(g, d, bs, k - 1, b);
    }
  }

  /** Two disks agree on every block outside the log. */
  ghost predicate SameHome(g: Geometry, d: Disk, e: Disk) {
    && |d| == |e|
    && forall b :: g.IsHome(|d|, b) ==> d[b] == e[b]
  }

  /** The disk that recover_from_log() leaves when nothing interrupts it. */
  function Recovered(g: Geometry, d: Disk): Disk
    requires DiskOk(g, d)
  {
    WithHead(g, Install(g, d, Head(g, d), |Head(g, d)|), [])
  }

  lemma RecoveredAt(g: Geometry, d: Disk, b: int)
    requires DiskOk(g, d) && g.IsHome(|d|, b)
    ensures |Recovered(g, d)| == |d|
    ensures Recovered(g, d)[b] ==
            var i := LastIndex(Head(g, d), |Head(g, d)|, b); if i >= 0 then d[g.Slot(i)] else d[b]
  {
    InstallAt(g, d, Head(g, d), |Head(g, d)|, b);
  }

  /** Recovery ends with an empty log, so running it again changes no home block. */
  lemma RecoveredIsClean(g: Geometry, d: Disk)
    requires DiskOk(g, d)
    ensures DiskOk(g, Recovered(g, d)) && Head(g, Recovered(g, d)) == []
    ensures SameHome(g, Recovered(g, Recovered(g, d)), Recovered(g, d))
  {
    var e := Install(g, d, Head(g, d), |Head(g, d)|);
    HeadRoundTrip(g, e, []);
    forall b | g.IsHome(|d|, b)
      ensures Recovered(g, Recovered(g, d))[b] == Recovered(g, d)[b]
    {
      RecoveredAt(g, Recovered(g, d), b);
    }
  }

  // ------------------------------------------------------- recovery, step by step

  /** How many block writes recover_from_log() makes. */
  function RecoverSteps(g: Geometry, d: Disk): nat
    requires DiskOk(g, d)
  {
    |Head(g, d)| + 1
  }

  /** The disk after i block writes of recover_from_log() started on d. */
  function RecoverDisk(g: Geometry, d: Disk, i: nat): Disk
    requires DiskOk(g, d) && i <= RecoverSteps(g, d)
  {
    if i <= |Head(g, d)| then Install(g, d, Head(g, d), i) else Recovered(g, d)
  }

  /** A crash at any point of recovery loses nothing: recovering from there
      gives the same home blocks as recovering from the start. */
  lemma RecoverCrash(g: Geometry, d: Disk, i: nat)
    requires DiskOk(g, d) && i <= RecoverSteps(g, d)
    ensures DiskOk(g, RecoverDisk(g, d, i))
    ensures SameHome(g, Recovered(g, RecoverDisk(g, d, i)), Recovered(g, d))
  {
    var bs := Head(g, d);
    if i <= |bs| {
      var e := RecoverDisk(g, d, i);
      assert e[g.start] == d[g.start];
      assert Head(g, e) == bs;
      forall b | g.IsHome(|d|, b)
        ensures Recovered(g, e)[b] == Recovered(g, d)[b]
      {
        RecoveredAt(g, d, b);
        RecoveredAt(g, e, b);
        InstallAt(g, d, bs, i, b);
      }
    } else {
      RecoveredIsClean(g, d);
    }
  }

  // --------------------------------------------------------- commit, step by step

  /** The first k iterations of write_log(): slot i receives data[i]. */
  function Logged(g: Geometry, d: Disk, data: seq<Block>, k: nat): (r: Disk)
    requires Shape(g, d)
    requires k <= |data| <= g.Capacity()
    requires forall i :: 0 <= i < |data| ==> |data[i]| == g.words
    ensures Shape(g, r) && |r| == |d|
    ensures forall i :: 0 <= i < k ==> r[g.Slot(i)] == data[i]
    ensures forall b :: 0 <= b < |d| && !(g.start < b <= g.start + k) ==> r[b] == d[b]
  {
    if k == 0 then d
    else Logged(g, d, data, k - 1)[g.Slot(k - 1) := data[k - 1]]
  }

  /** A transaction that can be committed on d: the in-memory header and the
      cached contents of each block it lists. */
  ghost predicate Committable(g: Geometry, d: Disk, bs: seq<int>, data: seq<Block>) {
    && DiskOk(g, d) && Head(g, d) == []
    && Loggable(g, d, bs)
    && |data| == |bs|
    && forall i :: 0 <= i < |data| ==> |data[i]| == g.words
  }

  /** How many block writes commit() makes. */
  function CommitSteps(bs: seq<int>): nat {
    if bs == [] then 0 else 2 * |bs| + 2
  }

  /** The disk after i block writes of commit(): the log slots, the header
      (the commit point), the home blocks, and the cleared header. */
  function CommitDisk(g: Geometry, d: Disk, bs: seq<int>, data: seq<Block>, i: nat): Disk
    requires Committable(g, d, bs, data) && i <= CommitSteps(bs)
  {
    var n := |bs|;
    if i <= n then Logged(g, d, data, i)
    else
      var h := WithHead(g, Logged(g, d, data, n), bs);
      if i <= 2 * n + 1 then Install(g, h, bs, i - n - 1)
      else WithHead(g, Install(g, h, bs, n), [])
  }

  /** The home blocks once the whole transaction is in place. */
  function Applied(d: Disk, bs: seq<int>, data: seq<Block>): (r: Disk)
    requires |bs| == |data|
    requires forall i :: 0 <= i < |bs| ==> 0 <= bs[i] < |d|
    ensures |r| == |d|
  {
    if bs == [] then d
    else
      var k := |bs| - 1;
      Applied(d, bs[..k], data[..k])[bs[k] := data[k]]
  }

  lemma {:induction false} AppliedAt(d: Disk, bs: seq<int>, data: seq<Block>, b: int)
    requires |bs| == |data|
    requires forall i :: 0 <= i < |bs| ==> 0 <= bs[i] < |d|
    requires 0 <= b < |d|
    ensures Applied(d, bs, data)[b] ==
            var i := LastIndex(bs, |bs|, b); if i >= 0 then data[i] else d[b]
  {
    if bs != [] {
      var k := |bs| - 1;
      AppliedAt(d, bs[..k], data[..k], b);
      LastIndexPrefix(bs, k, b);
    }
  }

  lemma {:induction false} LastIndexPrefix(bs: seq<int>, k: nat, b: int)
    requires k <= |bs|
    ensures LastIndex(bs[..k], k, b) == LastIndex(bs, k, b)
  {
    assert forall m :: 0 <= m < k ==> bs[..k][m] == bs[m];
  }

  /** Crash atomicity of one commit: after any number of its block writes, a
      recovery yields either the old home blocks or all of the new ones, and the
      switch happens exactly at the header write. */
  lemma CommitCrash(g: Geometry, d: Disk, bs: seq<int>, data: seq<Block>, i: nat)
    requires Committable(g, d, bs, data) && i <= CommitSteps(bs)
    ensures DiskOk(g, CommitDisk(g, d, bs, data, i)) && |CommitDisk(g, d, bs, data, i)| == |d|
    ensures SameHome(g, Recovered(g, CommitDisk(g, d, bs, data, i)),
                     if i <= |bs| then d else Applied(d, bs, data))
  {
    if i <= |bs| {
      CommitBeforeHead(g, d, bs, data, i);
    } else {
      CommitAfterHead(g, d, bs, data, i);
    }
  }

  lemma CommitBeforeHead(g: Geometry, d: Disk, bs: seq<int>, data: seq<Block>, i: nat)
    requires Committable(g, d, bs, data) && i <= |bs|
    ensures DiskOk(g, CommitDisk(g, d, bs, data, i))
    ensures SameHome(g, Recovered(g, CommitDisk(g, d, bs, data, i)), d)
    ensures SameHome(g, CommitDisk(g, d, bs, data, i), d)
  {
    var e := CommitDisk(g, d, bs, data, i);
    assert e[g.start] == d[g.start];
    assert Head(g, e) == [];
    forall b | g.IsHome(|d|, b)
      ensures Recovered(g, e)[b] == d[b]
    {
      RecoveredAt(g, e, b);
    }
  }

  /** The header write: recovery from here installs the whole transaction. */
  lemma CommitPoint(g: Geometry, d: Disk, bs: seq<int>, data: seq<Block>)
    requires Committable(g, d, bs, data)
    ensures var h := WithHead(g, Logged(g, d, data, |bs|), bs);
            && DiskOk(g, h) && Head(g, h) == bs
            && SameHome(g, Recovered(g, h), Applied(d, bs, data))
  {
    var l := Logged(g, d, data, |bs|);
    var h := WithHead(g, l, bs);
    HeadRoundTrip(g, l, bs);
    forall b | g.IsHome(|d|, b)
      ensures Recovered(g, h)[b] == Applied(d, bs, data)[b]
    {
      RecoveredAt(g, h, b);
      AppliedAt(d, bs, data, b);
    }
  }

  lemma CommitAfterHead(g: Geometry, d: Disk, bs: seq<int>, data: seq<Block>, i: nat)
    requires Committable(g, d, bs, data) && |bs| < i <= CommitSteps(bs)
    ensures DiskOk(g, CommitDisk(g, d, bs, data, i))
    ensures SameHome(g, Recovered(g, CommitDisk(g, d, bs, data, i)), Applied(d, bs, data))
  {
    CommitPoint(g, d, bs, data);
    var h := WithHead(g, Logged(g, d, data, |bs|), bs);
    RecoverCrash(g, h, i - |bs| - 1);
  }

  /** A commit that is not interrupted leaves an empty log and the new home blocks. */
  lemma CommitFinal(g: Geometry, d: Disk, bs: seq<int>, data: seq<Block>)
    requires Committable(g, d, bs, data)
    ensures var e := CommitDisk(g, d, bs, data, CommitSteps(bs));
            && DiskOk(g, e) && Head(g, e) == []
            && SameHome(g, e, Applied(d, bs, data))
  {
    if bs != [] {
      CommitPoint(g, d, bs, data);
      RecoveredIsClean(g, WithHead(g, Logged(g, d, data, |bs|), bs));
    }
  }

  /** How many home blocks commit() has written after i of its block writes. */
  function Installed(n: nat, i: nat): nat {
    if i <= n + 1 then 0 else if i - n - 1 <= n then i - n - 1 else n
  }

  /** Home blocks change on disk only after the commit point, and then only to
      their new contents, one listed block at a time. */
  lemma CommitHomeAt(g: Geometry, d: Disk, bs: seq<int>, data: seq<Block>, i: nat, b: int)
    requires Committable(g, d, bs, data) && i <= CommitSteps(bs)
    requires g.IsHome(|d|, b)
    ensures |CommitDisk(g, d, bs, data, i)| == |d|
    ensures CommitDisk(g, d, bs, data, i)[b] ==
            var j := LastIndex(bs, Installed(|bs|, i), b); if j >= 0 then data[j] else d[b]
  {
    if i > |bs| {
      CommitPoint(g, d, bs, data);
      var h := WithHead(g, Logged(g, d, data, |bs|), bs);
      InstallAt(g, h, bs, Installed(|bs|, i), b);
    }
  }

  /** Write i + 1 of a commit leaves alone the home blocks not yet due, and all
      the others already have their final contents. */
  lemma CommitHomeStep(g: Geometry, d: Disk, bs: seq<int>, data: seq<Block>, i: nat, b: int)
    requires Committable(g, d, bs, data) && i < CommitSteps(bs)
    requires Distinct(bs) && g.IsHome(|d|, b)
    ensures |CommitDisk(g, d, bs, data, i)| == |CommitDisk(g, d, bs, data, i + 1)| == |d|
    ensures if exists j :: Installed(|bs|, i + 1) <= j < |bs| && bs[j] == b
            then CommitDisk(g, d, bs, data, i + 1)[b] == CommitDisk(g, d, bs, data, i)[b]
            else CommitDisk(g, d, bs, data, i + 1)[b] == Applied(d, bs, data)[b]
  {
    CommitHomeAt(g, d, bs, data, i, b);
    CommitHomeAt(g, d, bs, data, i + 1, b);
    var k := Installed(|bs|, i + 1);
    if j :| k <= j < |bs| && bs[j] == b {
      assert LastIndex(bs, k, b) == -1 && LastIndex(bs, Installed(|bs|, i), b) == -1;
    } else {
      AppliedAt(d, bs, data, b);
      assert LastIndex(bs, |bs|, b) == LastIndex(bs, k, b);
    }
  }
}
