/** One call of writei(), as values: what it leaves in the files and what it logs. */
module FsWrite {
  import opened FsCodec
  import opened FsOwnership
  import opened FsContent
  import opened Basics

  function Spliced(block: Block, at: nat, data: seq<byte>): (r: Block)
    requires at + |data| <= |block|
    ensures |r| == |block|
    ensures forall o :: 0 <= o < |block| ==> r[o] == if at <= o < at + |data| then data[o - at] else block[o]
  {
    block[..at] + data + block[at + |data|..]
  }

  /** File i has src[..tot] at offset off, and every other byte of every file is as
      in fs0. */
  ghost predicate Written(fs0: Fs, fs: Fs, i: nat, off: nat, src: seq<byte>, tot: nat)
    requires tot <= |src|
  {
    forall j: nat, o: nat ::
      ByteAt(fs, j, o) == if j == i && off <= o < off + tot then src[o - off] else ByteAt(fs0, j, o)
  }

  lemma WrittenSame(fs0: Fs, fs: Fs, fs': Fs, i: nat, off: nat, src: seq<byte>, tot: nat)
    requires tot <= |src| && Written(fs0, fs, i, off, src, tot) && SameBytes(fs, fs')
    ensures Written(fs0, fs', i, off, src, tot)
  {
    hide ByteAt;
  }

  /** How much of n bytes from offset `cur` on falls in the block of `cur`. */
  function Chunk(cur: nat, left: nat): nat {
    if left < BSIZE - cur % BSIZE then left else BSIZE - cur % BSIZE
  }

  /** How many blocks come before `cur` in a write from `off` on, and how many
      blocks n bytes from `off` on touch. */
  function Before(off: nat, cur: nat): int {
    cur / BSIZE - off / BSIZE
  }

  function Touched(off: nat, n: nat): int {
    if n == 0 then 0 else (off + n - 1) / BSIZE - off / BSIZE + 1
  }

  /** A chunk that does not finish the write ends at a block boundary. */
  lemma ChunkEnds(off: nat, tot: nat, n: nat)
    requires tot < n
    ensures var cur := off + tot;
      var m := Chunk(cur, n - tot);
      && 0 < m <= n - tot && m <= BSIZE - cur % BSIZE
      && (tot + m < n ==> Before(off, cur + m) == Before(off, cur) + 1)
      && 0 <= Before(off, cur) < Touched(off, n)
  {
  }

  lemma NoneTouched(off: nat, n: nat)
    ensures Before(off, off) == 0 <= Touched(off, n)
  {
  }

  lemma BlockBytes(fs: Fs, i: nat, o: nat)
    requires var a := Addr(fs, DataSlot(i, o / BSIZE)); 0 < a < |fs.disk| && |fs.disk[a]| == BSIZE
    ensures ByteAt(fs, i, o) == fs.disk[Addr(fs, DataSlot(i, o / BSIZE))][o % BSIZE]
  {
  }

  /** The body of writei()'s loop, after bmap(): m more bytes are in place. */
  lemma WriteStep(sb: Super, fs0: Fs, fs: Fs, own: map<nat, Slot>, i: nat, off: nat, src: seq<byte>, tot: nat, m: nat)
    requires Inv(sb, fs, own, {}, {}, i) && tot + m <= |src| && Written(fs0, fs, i, off, src, tot)
    requires 0 < m <= BSIZE - (off + tot) % BSIZE
    requires Addr(fs, DataSlot(i, (off + tot) / BSIZE)) != 0
    ensures var a := Addr(fs, DataSlot(i, (off + tot) / BSIZE));
      && a < |fs.disk| && |fs.disk[a]| == BSIZE
      && var fs' := fs.(disk := fs.disk[a := Spliced(fs.disk[a], (off + tot) % BSIZE, src[tot..tot + m])]);
      && Inv(sb, fs', own, {}, {}, i) && SameSlots(fs, fs') && Written(fs0, fs', i, off, src, tot + m)
  {
    hide Addr, OwnOk, BitsOk, Synced, ByteAt;
    var cur := off + tot;
    var bn, at := cur / BSIZE, cur % BSIZE;
    var a := Addr(fs, DataSlot(i, bn));
    DataOwned(sb, fs, own, {}, i, bn);
    var block := Spliced(fs.disk[a], at, src[tot..tot + m]);
    DataWritten(sb, fs, own, i, a, block);
    DataWriteBytes(sb, fs, own, i, bn, block);
    var fs' := fs.(disk := fs.disk[a := block]);
    forall j: nat, o: nat
      ensures ByteAt(fs', j, o) == if j == i && off <= o < off + (tot + m) then src[o - off] else ByteAt(fs0, j, o)
    {
      if j == i && o / BSIZE == bn {
        BlockBytes(fs, i, o);
        assert o == BSIZE * bn + o % BSIZE && cur == BSIZE * bn + at;
      }
    }
  }

  /** The inode grows to hold what was written. */
  function WithSize(fs: Fs, i: nat, size: nat): Fs
    requires i < |fs.inode|
  {
    fs.(inode := fs.inode[i := fs.inode[i].(size := size)])
  }

  lemma SizeSet(sb: Super, fs: Fs, own: map<nat, Slot>, i: nat, size: nat)
    requires Inv(sb, fs, own, {}, {}, i) && i < sb.ninodes && size < UINT
    ensures Inv(sb, WithSize(fs, i, size), own, {}, {}, i)
    ensures SameSlots(fs, WithSize(fs, i, size)) && SameBytes(fs, WithSize(fs, i, size))
  {
    SizeSlots(fs, i, size);
    hide Addr, OwnOk, BitsOk, DinodeAt;
    OwnFrame(sb, fs, WithSize(fs, i, size), own, {});
    SlotsGiveBytes(sb, fs, WithSize(fs, i, size), own);
  }

  lemma SizeSlots(fs: Fs, i: nat, size: nat)
    requires i < |fs.inode|
    ensures SameSlots(fs, WithSize(fs, i, size))
  {
    hide Word;
  }

  /** Writing the inode back changes no byte of any file. */
  lemma WrittenBackBytes(sb: Super, fs: Fs, own: map<nat, Slot>, dirty: int, i: nat)
    requires Inv(sb, fs, own, {}, {}, dirty) && i < sb.ninodes && (dirty == NONE || dirty == i)
    ensures SameBytes(fs, WithDinode(sb, fs, i))
  {
    hide Addr, OwnOk, BitsOk, Synced, PutDinode, SameBytes, SameSlots;
    WrittenBack(sb, fs, own, {}, dirty, i);
    OwnedRange(sb, fs, own, {});
    SlotsGiveBytes(sb, fs, WithDinode(sb, fs, i), own);
  }

  /** The contents after writing tot bytes at off. */
  function Overwrite(c: seq<byte>, off: nat, data: seq<byte>): (r: seq<byte>)
    requires off <= |c|
    ensures |r| == if off + |data| > |c| then off + |data| else |c|
  {
    c[..off] + data + (if off + |data| < |c| then c[off + |data|..] else [])
  }

  lemma ContentWritten(fs0: Fs, fs: Fs, i: nat, off: nat, src: seq<byte>, tot: nat)
    requires tot <= |src| && Written(fs0, fs, i, off, src, tot)
    requires i < |fs0.inode| == |fs.inode| && off <= fs0.inode[i].size
    requires fs.inode[i].size == if off + tot > fs0.inode[i].size then off + tot else fs0.inode[i].size
    ensures Content(fs, i) == Overwrite(Content(fs0, i), off, src[..tot])
  {
    hide ByteAt;
  }

  lemma OtherContent(fs0: Fs, fs: Fs, i: nat, off: nat, src: seq<byte>, tot: nat, j: nat)
    requires tot <= |src| && Written(fs0, fs, i, off, src, tot)
    requires j < |fs0.inode| == |fs.inode| && j != i && fs.inode[j].size == fs0.inode[j].size
    ensures Content(fs, j) == Content(fs0, j)
  {
    hide ByteAt;
  }

  /** One more block mapped: everything up to cur + m is there. */
  lemma MappedStep(fs: Fs, fs': Fs, i: nat, size: nat, cur: nat, m: nat)
    requires cur <= size && Mapped(fs, i, size)
    requires forall s :: Addr(fs, s) != 0 ==> Addr(fs', s) == Addr(fs, s)
    requires m <= BSIZE - cur % BSIZE && Addr(fs', DataSlot(i, cur / BSIZE)) != 0
    ensures Mapped(fs', i, if cur + m > size then cur + m else size)
  {
    hide Addr;
  }

  // ---------------------------------------------------------------- budget

  /** What a write has logged so far: `data` the file blocks, `maps` the blocks of
      the free map, `ind` the indirect block. `started` counts the file blocks
      begun and `fresh_` those among them that had to be allocated. */
  datatype Tally = Tally(started: nat, fresh_: nat, data: set<nat>, maps: set<nat>, ind: set<nat>)

  /** `t` accounts for log beyond log0. The indirect pointer was p0 before the
      write and is p now; `mapped` says that the first block was there before. */
  ghost predicate Accounts(p0: nat, p: nat, mapped: bool, log0: set<nat>, log: set<nat>, t: Tally) {
    && log <= log0 + t.data + t.maps + t.ind
    && |t.data| <= t.started
    && |t.maps| <= t.fresh_ + (if p0 == 0 && p != 0 then 1 else 0)
    && t.ind <= {p}
    && (p == 0 ==> t.ind == {})
    && t.fresh_ <= t.started
    && (t.started > 0 && mapped ==> t.fresh_ < t.started)
  }

  ghost predicate Spent(fs0: Fs, fs: Fs, i: nat, off: nat, log0: set<nat>, log: set<nat>, t: Tally) {
    Accounts(Addr(fs0, Slot(i, PTR)), Addr(fs, Slot(i, PTR)), Addr(fs0, DataSlot(i, off / BSIZE)) != 0, log0, log, t)
  }

  lemma NothingSpent(fs0: Fs, i: nat, off: nat, log0: set<nat>)
    ensures Spent(fs0, fs0, i, off, log0, log0, Tally(0, 0, {}, {}, {}))
  {
  }

  lemma AddOne(s: set<nat>, x: nat)
    ensures |s + {x}| <= |s| + 1
  {
    if x in s {
      assert s + {x} == s;
    }
  }

  /** The indirect block is allocated, or is there already. */
  lemma SpendPointer(p0: nat, p1: nat, p: nat, bm: nat, mapped: bool, log0: set<nat>, log: set<nat>, t: Tally)
    requires Accounts(p0, p1, mapped, log0, log, t) && (p0 != 0 ==> p1 == p0) && (p1 != 0 ==> p == p1)
    ensures Accounts(p0, p, mapped, log0, log + (if p1 != p then {p, bm} else {}),
                     if p1 != p then t.(maps := t.maps + {bm}, ind := {p}) else t)
  {
    AddOne(t.maps, bm);
  }

  /** A file block is begun: allocated if it was missing, then logged. */
  lemma SpendData(p0: nat, p: nat, a0: nat, a: nat, bm: nat, indirect: bool, mapped: bool,
                  log0: set<nat>, log: set<nat>, t: Tally)
    requires Accounts(p0, p, mapped, log0, log, t) && a != 0 && (indirect ==> p != 0)
    requires t.started == 0 && mapped ==> a0 == a
    ensures Accounts(p0, p, mapped, log0,
                     log + (if a0 != a then {a, bm} else {}) + (if a0 != a && indirect then {p} else {}) + {a},
                     Tally(t.started + 1, if a0 != a then t.fresh_ + 1 else t.fresh_, t.data + {a},
                           if a0 != a then t.maps + {bm} else t.maps, if a0 != a && indirect then {p} else t.ind))
  {
    AddOne(t.maps, bm);
    AddOne(t.data, a);
  }

  lemma AccountsLess(p0: nat, p: nat, mapped: bool, log0: set<nat>, log: set<nat>, log': set<nat>, t: Tally)
    requires Accounts(p0, p, mapped, log0, log, t) && log' <= log
    ensures Accounts(p0, p, mapped, log0, log', t)
  {
  }

  lemma SpendBoth(sb: Super, p0: nat, p1: nat, p: nat, a0: nat, a: nat, indirect: bool, mapped: bool,
                  log0: set<nat>, log: set<nat>, t: Tally) returns (t': Tally)
    requires Accounts(p0, p1, mapped, log0, log, t) && (p0 != 0 ==> p1 == p0) && (p1 != 0 ==> p == p1)
    requires (a0 != 0 ==> a == a0) && (a != 0 && indirect ==> p != 0)
    requires t.started == 0 && mapped ==> a0 == a
    ensures Accounts(p0, p, mapped, log0, log + FillLog(sb, a0, a, p1, p, indirect), t')
    ensures a == 0 ==> t'.started == t.started
    ensures a != 0 ==> t'.started == t.started + 1
    ensures a != 0 ==> Accounts(p0, p, mapped, log0, log + FillLog(sb, a0, a, p1, p, indirect) + {a}, t')
  {
    hide Accounts;
    var d := if a0 != a then {a, sb.BBlock(a)} else {};
    var r := if p1 != p then {p, sb.BBlock(p)} else {};
    var e := if a0 != a && indirect then {p} else {};
    assert FillLog(sb, a0, a, p1, p, indirect) == d + r + e;
    t' := if p1 != p then t.(maps := t.maps + {sb.BBlock(p)}, ind := {p}) else t;
    SpendPointer(p0, p1, p, sb.BBlock(p), mapped, log0, log, t);
    assert Accounts(p0, p, mapped, log0, log + r, t');
    if a == 0 {
      AccountsLess(p0, p, mapped, log0, log + r, log + (d + r + e), t');
    } else {
      SpendData(p0, p, a0, a, sb.BBlock(a), indirect, mapped, log0, log + r, t');
      t' := Tally(t'.started + 1, if a0 != a then t'.fresh_ + 1 else t'.fresh_, t'.data + {a},
                  if a0 != a then t'.maps + {sb.BBlock(a)} else t'.maps, if a0 != a && indirect then {p} else t'.ind);
      assert Accounts(p0, p, mapped, log0, log + r + d + e + {a}, t');
      Regroup(log, d, r, e, {a});
      AccountsLess(p0, p, mapped, log0, log + r + d + e + {a}, log + (d + r + e), t');
    }
  }

  lemma Regroup(log: set<nat>, d: set<nat>, r: set<nat>, e: set<nat>, a: set<nat>)
    ensures log + (d + r + e) + a == log + r + d + e + a
    ensures log + (d + r + e) <= log + r + d + e + a
  {
  }

  /** One call of bmap(), followed by the log_write() of the block it returns. */
  lemma SpendStep(sb: Super, fs0: Fs, fs: Fs, own: map<nat, Slot>, fs': Fs, own': map<nat, Slot>, i: nat, off: nat,
                  log0: set<nat>, log: set<nat>, t: Tally) returns (t': Tally)
    requires Spent(fs0, fs, i, off, log0, log, t) && Grow(fs, own, fs', own', i)
    requires forall s :: Addr(fs0, s) != 0 ==> Addr(fs, s) == Addr(fs0, s)
    ensures var bn := off / BSIZE + t.started;
      && Spent(fs0, fs', i, off, log0, log + BmapLog(sb, fs, fs', i, bn), t')
      && (Addr(fs', DataSlot(i, bn)) == 0 ==> t'.started == t.started)
      && (Addr(fs', DataSlot(i, bn)) != 0 ==>
            && t'.started == t.started + 1
            && Spent(fs0, fs', i, off, log0, log + BmapLog(sb, fs, fs', i, bn) + {Addr(fs', DataSlot(i, bn))}, t'))
  {
    hide Addr, SameBytes, OnlyAddrs, Accounts, FillLog;
    var bn := off / BSIZE + t.started;
    if Addr(fs', DataSlot(i, bn)) != 0 && bn >= NDIRECT {
      NoPointer(fs', i, bn);
    }
    t' := SpendBoth(sb, Addr(fs0, Slot(i, PTR)), Addr(fs, Slot(i, PTR)), Addr(fs', Slot(i, PTR)),
                    Addr(fs, DataSlot(i, bn)), Addr(fs', DataSlot(i, bn)), bn >= NDIRECT,
                    Addr(fs0, DataSlot(i, off / BSIZE)) != 0, log0, log, t);
  }

  // ------------------------------------------------------- writei()'s loop

  ghost predicate KeepsSlots(fs: Fs, fs': Fs) {
    forall s :: Addr(fs, s) != 0 ==> Addr(fs', s) == Addr(fs, s)
  }

  /** Where writei() is after tot bytes, from the state fs0 with log log0. */
  ghost predicate Writing(sb: Super, fs0: Fs, log0: set<nat>, fs: Fs, own: map<nat, Slot>, log: set<nat>,
                          i: nat, off: nat, src: seq<byte>, tot: nat, t: Tally) {
    && Inv(sb, fs, own, {}, {}, i) && tot <= |src|
    && OnlyAddrs(fs0, fs, i) && KeepsSlots(fs0, fs)
    && Written(fs0, fs, i, off, src, tot)
    && Spent(fs0, fs, i, off, log0, log, t)
  }

  lemma Sizes(sb: Super, fs: Fs, own: map<nat, Slot>, skip: set<Slot>, dirty: int)
    requires Inv(sb, fs, own, {}, skip, dirty)
    ensures Shaped(sb, fs) && |fs.inode| == sb.ninodes && |fs.disk| == sb.size
  {
  }

  lemma WritingStarts(sb: Super, fs: Fs, own: map<nat, Slot>, log: set<nat>, i: nat, off: nat, src: seq<byte>)
    requires Inv(sb, fs, own, {}, {}, i)
    ensures Writing(sb, fs, log, fs, own, log, i, off, src, 0, Tally(0, 0, {}, {}, {}))
  {
    hide Inv, Addr, ByteAt;
    NothingSpent(fs, i, off, log);
  }

  lemma WritingInv(sb: Super, fs0: Fs, log0: set<nat>, fs: Fs, own: map<nat, Slot>, log: set<nat>,
                   i: nat, off: nat, src: seq<byte>, tot: nat, t: Tally)
    requires Writing(sb, fs0, log0, fs, own, log, i, off, src, tot, t)
    ensures Inv(sb, fs, own, {}, {}, i) && Shaped(sb, fs) && Spent(fs0, fs, i, off, log0, log, t)
    ensures |fs.inode| == |fs0.inode| && (i < |fs.inode| ==> fs.inode[i].size == fs0.inode[i].size < UINT)
  {
    hide OwnOk, BitsOk, Synced, Accounts, Written, KeepsSlots;
  }

  /** bmap() in the loop. */
  lemma WritingGrows(sb: Super, fs0: Fs, log0: set<nat>, fs: Fs, own: map<nat, Slot>, log: set<nat>,
                     i: nat, off: nat, src: seq<byte>, tot: nat, t: Tally, fs': Fs, own': map<nat, Slot>)
    returns (t': Tally)
    requires Writing(sb, fs0, log0, fs, own, log, i, off, src, tot, t)
    requires Inv(sb, fs', own', {}, {}, i) && Grow(fs, own, fs', own', i)
    ensures KeepsSlots(fs, fs')
    ensures var bn := off / BSIZE + t.started;
      var a, log' := Addr(fs', DataSlot(i, bn)), log + BmapLog(sb, fs, fs', i, bn);
      && Writing(sb, fs0, log0, fs', own', log', i, off, src, tot, t')
      && t'.started == t.started + (if a == 0 then 0 else 1)
      && (a != 0 ==> Spent(fs0, fs', i, off, log0, log' + {a}, t'))
  {
    hide Inv, Addr, SameBytes, Spent, BmapLog, Written;
    WrittenSame(fs0, fs, fs', i, off, src, tot);
    t' := SpendStep(sb, fs0, fs, own, fs', own', i, off, log0, log, t);
  }

  /** The copy into the block and its log_write(). */
  lemma WritingStores(sb: Super, fs0: Fs, log0: set<nat>, fs: Fs, own: map<nat, Slot>, log: set<nat>,
                      i: nat, off: nat, src: seq<byte>, tot: nat, t: Tally, m: nat)
    requires Writing(sb, fs0, log0, fs, own, log, i, off, src, tot, t)
    requires 0 < m <= BSIZE - (off + tot) % BSIZE && tot + m <= |src|
    requires Addr(fs, DataSlot(i, (off + tot) / BSIZE)) != 0
    requires Spent(fs0, fs, i, off, log0, log + {Addr(fs, DataSlot(i, (off + tot) / BSIZE))}, t)
    ensures var a := Addr(fs, DataSlot(i, (off + tot) / BSIZE));
      && a < |fs.disk| && |fs.disk[a]| == BSIZE
      && var fs' := fs.(disk := fs.disk[a := Spliced(fs.disk[a], (off + tot) % BSIZE, src[tot..tot + m])]);
      && Writing(sb, fs0, log0, fs', own, log + {a}, i, off, src, tot + m, t) && KeepsSlots(fs, fs')
  {
    hide Inv, Addr, Accounts, Written;
    WriteStep(sb, fs0, fs, own, i, off, src, tot, m);
  }

  /** MAXOPBLOCKS, and the chunk size of filewrite(). */
  const MAXOP := 10
  const MAXCHUNK := (MAXOP - 1 - 1 - 2) / 2 * BSIZE

  lemma UnionSize(a: set<nat>, b: set<nat>)
    ensures |a + b| <= |a| + |b|
  {
    assert a + b == a + (b - a);
    assert b == (b - a) + (a * b);
  }

  /** A chunk of filewrite() logs at most MAXOPBLOCKS blocks. */
  lemma WithinBudget(fs0: Fs, fs: Fs, i: nat, off: nat, n: nat, log0: set<nat>, log: set<nat>, t: Tally, inodeBlock: nat)
    requires Spent(fs0, fs, i, off, log0, log, t)
    requires n <= MAXCHUNK && t.started <= Touched(off, n)
    requires off % BSIZE != 0 ==> Addr(fs0, DataSlot(i, off / BSIZE)) != 0
    ensures |log + {inodeBlock} - log0| <= MAXOP
  {
    hide Addr;
    var extra := t.data + t.maps + t.ind + {inodeBlock};
    UnionSize(t.data, t.maps);
    UnionSize(t.data + t.maps, t.ind);
    UnionSize(t.data + t.maps + t.ind, {inodeBlock});
    assert |t.ind| <= 1 by {
      SubsetSize(t.ind, {Addr(fs, Slot(i, PTR))});
    }
    SubsetSize(log + {inodeBlock} - log0, extra);
    StartedBound(off, n);
  }

  lemma StartedBound(off: nat, n: nat)
    requires n <= 3 * BSIZE
    ensures Touched(off, n) <= if off % BSIZE == 0 then 3 else 4
  {
  }

  function Max(a: nat, b: nat): nat {
    if a > b then a else b
  }

  /** writei() is done with its loop: the size is set and the inode written back. */
  function Finished(sb: Super, fs: Fs, i: nat, end: nat): Fs
    requires Shaped(sb, fs) && i < sb.ninodes && end < UINT
  {
    WithDinode(sb, WithSize(fs, i, Max(fs.inode[i].size, end)), i)
  }

  lemma WritingEnds(sb: Super, fs0: Fs, log0: set<nat>, fs: Fs, own: map<nat, Slot>, log: set<nat>,
                    i: nat, off: nat, src: seq<byte>, tot: nat, t: Tally)
    requires Writing(sb, fs0, log0, fs, own, log, i, off, src, tot, t) && Shaped(sb, fs)
    requires i < |fs0.inode| == sb.ninodes && off <= fs0.inode[i].size && off + tot < UINT
    ensures var fs' := Finished(sb, fs, i, off + tot);
      && Inv(sb, fs', own, {}, {}, NONE) && SameSlots(fs, fs')
      && Written(fs0, fs', i, off, src, tot)
      && fs'.inode[i].size == Max(fs0.inode[i].size, off + tot)
      && fs'.inode[i] == fs0.inode[i].(size := fs'.inode[i].size, addrs := fs'.inode[i].addrs)
      && (forall j :: 0 <= j < sb.ninodes && j != i ==> fs'.inode[j] == fs0.inode[j])
  {
    var size := Max(fs.inode[i].size, off + tot);
    var mid := WithSize(fs, i, size);
    assert fs.inode[i].size == fs0.inode[i].size;
    hide Inv, Addr, Spent, Written, SameBytes, SameSlots, KeepsSlots;
    SizeSet(sb, fs, own, i, size);
    WrittenBack(sb, mid, own, {}, i, i);
    WrittenBackBytes(sb, mid, own, i, i);
    SameSlotsTransitive(fs, mid, WithDinode(sb, mid, i));
    SameBytesTransitive(fs, mid, WithDinode(sb, mid, i));
    WrittenSame(fs0, fs, WithDinode(sb, mid, i), i, off, src, tot);
  }

  lemma MappedSame(fs: Fs, fs': Fs, i: nat, size: nat)
    requires SameSlots(fs, fs')
    ensures Mapped(fs, i, size) <==> Mapped(fs', i, size)
  {
    hide Addr;
  }

  lemma MappedGrows(fs: Fs, fs': Fs, i: nat, size: nat, cur: nat, m: nat)
    requires cur <= size && Mapped(fs, i, size) && KeepsSlots(fs, fs')
    requires m == 0 || (m <= BSIZE - cur % BSIZE && Addr(fs', DataSlot(i, cur / BSIZE)) != 0)
    ensures Mapped(fs', i, Max(size, cur + m))
  {
    hide Addr;
    if m > 0 {
      MappedStep(fs, fs', i, size, cur, m);
    }
  }

  /** What a call of writei() that returned r >= 0 has done. */
  ghost predicate WroteBytes(sb: Super, fs0: Fs, fs: Fs, i: nat, off: nat, src: seq<byte>, r: nat) {
    && |fs0.inode| == |fs.inode| == sb.ninodes && i < sb.ninodes
    && r <= |src| && off <= fs0.inode[i].size
    && Content(fs, i) == Overwrite(Content(fs0, i), off, src[..r])
    && fs.inode[i] == fs0.inode[i].(size := fs.inode[i].size, addrs := fs.inode[i].addrs)
    && forall j :: 0 <= j < sb.ninodes && j != i ==> fs.inode[j] == fs0.inode[j] && Content(fs, j) == Content(fs0, j)
  }

  lemma WriteDone(sb: Super, fs0: Fs, log0: set<nat>, fs: Fs, own: map<nat, Slot>, log: set<nat>,
                  i: nat, off: nat, src: seq<byte>, tot: nat, t: Tally)
    requires Writing(sb, fs0, log0, fs, own, log, i, off, src, tot, t) && Shaped(sb, fs)
    requires i < |fs0.inode| == sb.ninodes && off <= fs0.inode[i].size && off + tot < UINT
    ensures var fs' := Finished(sb, fs, i, off + tot);
      && Inv(sb, fs', own, {}, {}, NONE) && WroteBytes(sb, fs0, fs', i, off, src, tot)
      && (Mapped(fs, i, Max(fs0.inode[i].size, off + tot)) ==> HoleFree(fs', i))
  {
    hide Inv, Addr, Spent, Written, SameBytes, SameSlots, KeepsSlots, Mapped, ByteAt, OnlyAddrs, Shaped;
    WritingEnds(sb, fs0, log0, fs, own, log, i, off, src, tot, t);
    FinishedShape(sb, fs, i, off + tot);
    var fs' := Finished(sb, fs, i, off + tot);
    ContentWritten(fs0, fs', i, off, src, tot);
    forall j | 0 <= j < sb.ninodes && j != i
      ensures Content(fs', j) == Content(fs0, j)
    {
      OtherContent(fs0, fs', i, off, src, tot, j);
    }
    MappedSame(fs, fs', i, Max(fs0.inode[i].size, off + tot));
  }

  lemma FinishedShape(sb: Super, fs: Fs, i: nat, end: nat)
    requires Shaped(sb, fs) && i < sb.ninodes && end < UINT
    ensures |Finished(sb, fs, i, end).inode| == |fs.inode| == sb.ninodes
  {
  }

  /** A hole-free file whose write starts inside a block has that block. */
  lemma FirstBlock(fs: Fs, i: nat, off: nat)
    requires i < |fs.inode| && HoleFree(fs, i) && off <= fs.inode[i].size
    ensures off % BSIZE != 0 ==> Addr(fs, DataSlot(i, off / BSIZE)) != 0
  {
    hide Addr;
    assert off % BSIZE != 0 ==> off / BSIZE * BSIZE < off;
  }

  /** Writing a and then b right after it is writing a + b. */
  lemma OverwriteTwice(c: seq<byte>, off: nat, a: seq<byte>, b: seq<byte>)
    requires off <= |c|
    ensures Overwrite(Overwrite(c, off, a), off + |a|, b) == Overwrite(c, off, a + b)
  {
  }

  lemma WroteNothing(sb: Super, fs: Fs, i: nat, off: nat, src: seq<byte>)
    requires i < |fs.inode| == sb.ninodes && off <= fs.inode[i].size
    ensures WroteBytes(sb, fs, fs, i, off, src, 0)
  {
    hide ByteAt;
    assert Overwrite(Content(fs, i), off, src[..0]) == Content(fs, i);
  }

  lemma WroteTwice(sb: Super, a: Fs, b: Fs, c: Fs, i: nat, off: nat, src: seq<byte>, done: nat, r: nat)
    requires WroteBytes(sb, a, b, i, off, src, done)
    requires WroteBytes(sb, b, c, i, off + done, src[done..], r)
    ensures done + r <= |src| && WroteBytes(sb, a, c, i, off, src, done + r)
  {
    hide ByteAt;
    OverwriteTwice(Content(a, i), off, src[..done], src[done..][..r]);
    assert src[..done] + src[done..][..r] == src[..done + r];
  }

  lemma WroteSize(sb: Super, fs0: Fs, fs: Fs, own: map<nat, Slot>, i: nat, off: nat, src: seq<byte>, done: nat)
    requires WroteBytes(sb, fs0, fs, i, off, src, done) && Inv(sb, fs, own, {}, {}, NONE)
    ensures off + done <= fs.inode[i].size < UINT
  {
    hide OwnOk, BitsOk, Synced, ByteAt;
    assert |Content(fs, i)| == fs.inode[i].size;
  }
}
