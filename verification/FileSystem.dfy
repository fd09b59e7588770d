/** kernel/fs.c inside a transaction: the block allocator, bmap(), itrunc(),
    readi(), writei() and iput(), on the disk as bread() shows it.

    `logged` collects the blocks passed to log_write(). An inode pointer is an
    index into `inode`, the in-memory inodes; `dirty` names the inode that has
    changed in memory and has not been written back. */
module FileSystem {
  import opened FsCodec
  import opened FsOwnership
  import opened FsContent
  import opened FsTrunc
  import opened FsWrite

  /** Every block is in use. */
  ghost predicate Full(sb: Super, disk: Disk)
    requires sb.Valid() && |disk| == sb.size && Blocks(disk)
  {
    forall b: nat :: b < sb.size ==> InUse(sb, disk, b)
  }

  /** Every block that has changed since has been passed to log_write(). */
  ghost predicate Recorded(d0: Disk, log0: set<nat>, d: Disk, log: set<nat>) {
    && |d| == |d0| && log0 <= log
    && forall b :: 0 <= b < |d| && d[b] != d0[b] ==> b in log
  }

  lemma RecordedRefl(d: Disk, log: set<nat>)
    ensures Recorded(d, log, d, log)
  {
  }

  lemma RecordedTwice(d0: Disk, log0: set<nat>, d1: Disk, log1: set<nat>, d2: Disk, log2: set<nat>)
    requires Recorded(d0, log0, d1, log1) && Recorded(d1, log1, d2, log2)
    ensures Recorded(d0, log0, d2, log2)
  {
    forall b | 0 <= b < |d2| && d2[b] != d0[b]
      ensures b in log2
    {
      assert d2[b] != d1[b] || d1[b] != d0[b];
    }
  }

  lemma RecordedWrite(d0: Disk, log0: set<nat>, d: Disk, log: set<nat>, b: nat, data: Block)
    requires Recorded(d0, log0, d, log) && b < |d|
    ensures Recorded(d0, log0, d[b := data], log + {b})
  {
  }

  /** Every block that has changed was logged by one of the transactions. */
  ghost predicate RecordedIn(d0: Disk, d: Disk, txns: seq<set<nat>>) {
    && |d| == |d0|
    && forall b :: 0 <= b < |d| && d[b] != d0[b] ==> exists k :: 0 <= k < |txns| && b in txns[k]
  }

  lemma RecordedNext(d0: Disk, d1: Disk, txns: seq<set<nat>>, d2: Disk, log: set<nat>)
    requires RecordedIn(d0, d1, txns) && Recorded(d1, {}, d2, log)
    ensures RecordedIn(d0, d2, txns + [log])
  {
    forall b | 0 <= b < |d2| && d2[b] != d0[b]
      ensures exists k :: 0 <= k < |txns + [log]| && b in (txns + [log])[k]
    {
      if d2[b] != d1[b] {
        assert b in (txns + [log])[|txns|];
      } else {
        var k :| 0 <= k < |txns| && b in txns[k];
        assert b in (txns + [log])[k];
      }
    }
  }

  class FileSystem {
    const sb: Super
    var disk: Disk
    var inode: seq<Inode>
    var ref: seq<int>
    var valid: seq<bool>
    ghost var own: map<nat, Slot>
    ghost var logged: set<nat>

    function State(): Fs
      reads this
    {
      Fs(disk, inode)
    }

    ghost predicate Ok(dirty: int)
      reads this
    {
      Inv(sb, State(), own, {}, {}, dirty)
    }

    constructor (sb: Super, disk: Disk, inode: seq<Inode>, ghost own: map<nat, Slot>)
      requires Stable(sb, Fs(disk, inode), own)
      ensures this.sb == sb && State() == Fs(disk, inode) && this.own == own && Ok(NONE) && logged == {}
      ensures ref == seq(|inode|, i => 0) && valid == seq(|inode|, i => false)
    {
      this.sb, this.disk, this.inode, this.own := sb, disk, inode, own;
      ref, valid := seq(|inode|, i => 0), seq(|inode|, i => false);
      logged := {};
    }

    /** balloc()'s inner loop: the first clear bit of one block of the free map. */
    method FindClear(b: nat) returns (bi: nat, found: bool)
      requires sb.Valid() && |disk| == sb.size && Blocks(disk)
      requires b < sb.size && b % BPB == 0
      ensures bi <= BPB
      ensures found ==> bi < BPB && b + bi < sb.size && !InUse(sb, disk, b + bi)
      ensures forall c: nat :: b <= c < b + bi && c < sb.size ==> InUse(sb, disk, c)
      ensures !found ==> bi == BPB || sb.size <= b + bi
    {
      hide Bit;
      var m := sb.BBlock(b);
      bi, found := 0, false;
      while bi < BPB && b + bi < sb.size
        invariant bi <= BPB
        invariant forall c: nat :: b <= c < b + bi && c < sb.size ==> InUse(sb, disk, c)
      {
        assert sb.BBlock(b + bi) == m && (b + bi) % BPB == bi;
        if !Bit(disk[m], bi) {
          found := true;
          return;
        }
        bi := bi + 1;
      }
    }

    /** balloc(): the first free block, marked in use and zeroed; 0 when the disk
        is full. */
    method Balloc(ghost dirty: int) returns (r: nat)
      requires Ok(dirty)
      modifies this`disk, this`logged
      ensures r == 0 ==> disk == old(disk) && logged == old(logged) && Full(sb, disk)
      ensures r != 0 ==>
        && r < sb.size && State() == WithBlock(sb, old(State()), r)
        && !InUse(sb, old(disk), r) && (forall c: nat :: c < r ==> InUse(sb, old(disk), c))
        && logged == old(logged) + {sb.BBlock(r), r}
      ensures Recorded(old(disk), old(logged), disk, logged)
    {
      hide OwnOk, Synced, InUse, SetBit, Recorded;
      RecordedRefl(disk, logged);
      assert InUse(sb, disk, 0);
      var b := 0;
      while b < sb.size
        invariant b % BPB == 0 && disk == old(disk) && logged == old(logged)
        invariant forall c: nat :: c < b && c < sb.size ==> InUse(sb, disk, c)
      {
        var bi, found := FindClear(b);
        if found {
          r := b + bi;
          Mark(r);
          return;
        }
        b := b + BPB;
      }
      r := 0;
    }

    /** The rest of balloc(): mark block r in use, then bzero() it. */
    method Mark(r: nat)
      requires Shaped(sb, State()) && r < sb.size
      modifies this`disk, this`logged
      ensures State() == WithBlock(sb, old(State()), r) && logged == old(logged) + {sb.BBlock(r), r}
      ensures Recorded(old(disk), old(logged), disk, logged)
    {
      var m := sb.BBlock(r);
      disk := disk[m := SetBit(disk[m], r % BPB)];
      logged := logged + {m};
      disk := disk[r := Zeros()];
      logged := logged + {r};
    }

    /** bfree() of the block in slot s. The panic "freeing free block" would be
        reached exactly if the bit were clear, and it is not. */
    method Bfree(b: nat, ghost s: Slot, ghost skip: set<Slot>, ghost dirty: int)
      requires Inv(sb, State(), own, {}, skip, dirty)
      requires Addr(State(), s) == b != 0 && s !in skip
      modifies this`disk, this`own, this`logged
      ensures b < sb.size && InUse(sb, old(disk), b)
      ensures State() == WithoutBlock(sb, old(State()), b)
      ensures own == old(own) - {b} && logged == old(logged) + {sb.BBlock(b)}
      ensures Inv(sb, State(), own, {}, skip + {s}, dirty)
      ensures SameSlots(old(State()), State())
      ensures Recorded(old(disk), old(logged), disk, logged)
    {
      hide Addr, OwnOk, BitsOk, Synced, ClearBit, SameSlots, Recorded;
      RecordedRefl(disk, logged);
      Freed(sb, State(), own, skip, dirty, s);
      var m := sb.BBlock(b);
      if !Bit(disk[m], b % BPB) {
        assert false;
      }
      RecordedWrite(disk, logged, disk, logged, m, ClearBit(disk[m], b % BPB));
      disk := disk[m := ClearBit(disk[m], b % BPB)];
      logged := logged + {m};
      own := own - {b};
    }

    /** bmap(): the block for position bn of file i, allocated if need be; 0 when
        the disk is full. No byte of any file changes. */
    method Bmap(i: nat, bn: nat, ghost dirty: int) returns (addr: nat)
      requires Ok(dirty) && (dirty == NONE || dirty == i) && i < sb.ninodes && bn < MAXFILE
      modifies this`disk, this`inode, this`own, this`logged
      ensures Ok(i) && Grow(old(State()), old(own), State(), own, i)
      ensures addr == Addr(State(), DataSlot(i, bn))
      ensures addr == 0 ==> Full(sb, disk)
      ensures old(Addr(State(), DataSlot(i, bn))) != 0 ==>
        State() == old(State()) && own == old(own) && logged == old(logged)
      ensures logged == old(logged) + BmapLog(sb, old(State()), State(), i, bn)
      ensures Recorded(old(disk), old(logged), disk, logged)
    {
      hide Inv, Grow, Filled, Full, BmapLog, Addr, Recorded;
      ghost var fs, o, log := State(), own, logged;
      if bn < NDIRECT {
        addr := BmapAddr(i, bn, dirty);
        BmapDirect(sb, fs, o, log, State(), own, logged, i, bn);
        FilledKeeps(sb, fs, o, log, State(), own, logged, DataSlot(i, bn), {});
      } else {
        if Addr(fs, DataSlot(i, bn)) != 0 {
          NoPointer(fs, i, bn);
        }
        var ptr := BmapAddr(i, PTR, dirty);
        ghost var fs1, o1, log1 := State(), own, logged;
        if ptr == 0 {
          BmapNone(sb, fs, o, log, State(), own, logged, i, bn);
          return 0;
        }
        addr := BmapEntry(i, bn - NDIRECT, i);
        GrowTransitive(fs, o, fs1, o1, State(), own, i);
        RecordedTwice(fs.disk, log, fs1.disk, log1, disk, logged);
        BmapIndirect(sb, fs, o, log, fs1, o1, log1, State(), own, logged, i, bn);
      }
    }

    /** A direct address or the indirect pointer, filled if it is empty. */
    method BmapAddr(i: nat, k: nat, ghost dirty: int) returns (addr: nat)
      requires Ok(dirty) && (dirty == NONE || dirty == i) && i < sb.ninodes && k <= PTR
      modifies this`disk, this`inode, this`own, this`logged
      ensures Ok(i) && Grow(old(State()), old(own), State(), own, i)
      ensures addr == Addr(State(), Slot(i, k)) == inode[i].addrs[k] && (addr == 0 ==> Full(sb, disk))
      ensures Filled(sb, old(State()), old(own), old(logged), State(), own, logged, Slot(i, k), {})
      ensures Recorded(old(disk), old(logged), disk, logged)
    {
      hide OwnOk, BitsOk, Synced, SameBytes, SlotFilled, InUse, Word, Grow, Recorded;
      RecordedRefl(disk, logged);
      addr := inode[i].addrs[k];
      assert addr == Addr(State(), Slot(i, k));
      Dirtied(sb, State(), own, dirty, i);
      GrowRefl(State(), own, i);
      if addr == 0 {
        ghost var fs, o := State(), own;
        addr := Balloc(dirty);
        if addr == 0 {
          return;
        }
        GrowAddr(sb, fs, o, dirty, i, k, addr);
        inode := inode[i := inode[i].(addrs := inode[i].addrs[k := addr])];
        own := own[addr := Slot(i, k)];
      }
    }

    /** An entry of the indirect block, filled if it is empty. */
    method BmapEntry(i: nat, j: nat, ghost dirty: int) returns (addr: nat)
      requires Ok(dirty) && i < sb.ninodes && j < NINDIRECT && inode[i].addrs[PTR] != 0
      modifies this`disk, this`own, this`logged
      ensures Ok(dirty) && Grow(old(State()), old(own), State(), own, i)
      ensures addr == Addr(State(), Slot(i, PTR + 1 + j)) && (addr == 0 ==> Full(sb, disk))
      ensures Filled(sb, old(State()), old(own), old(logged), State(), own, logged, Slot(i, PTR + 1 + j),
                     {inode[i].addrs[PTR]})
      ensures Recorded(old(disk), old(logged), disk, logged)
    {
      EntryFacts(sb, State(), own, dirty, i, j);
      RecordedRefl(disk, logged);
      hide Inv, Addr, SlotFilled, InUse, Word, PutWord, Grow, Full, WithBlock, Recorded;
      var p := inode[i].addrs[PTR];
      addr := Word(disk[p], j);
      GrowRefl(State(), own, i);
      if addr == 0 {
        ghost var fs, o := State(), own;
        addr := Balloc(dirty);
        if addr == 0 {
          return;
        }
        GrowEntry(sb, fs, o, dirty, i, j, addr);
        RecordedWrite(old(disk), old(logged), disk, logged, p, PutWord(disk[p], j, addr));
        disk := disk[p := PutWord(disk[p], j, addr)];
        logged := logged + {p};
        own := own[addr := Slot(i, PTR + 1 + j)];
      }
    }

    /** iupdate(): the inode in memory goes to disk. */
    method Iupdate(i: nat, ghost skip: set<Slot>, ghost dirty: int)
      requires Inv(sb, State(), own, {}, skip, dirty) && i < sb.ninodes && (dirty == NONE || dirty == i)
      modifies this`disk, this`logged
      ensures Inv(sb, State(), own, {}, skip, NONE) && State() == WithDinode(sb, old(State()), i)
      ensures SameSlots(old(State()), State()) && logged == old(logged) + {sb.IBlock(i)}
      ensures Recorded(old(disk), old(logged), disk, logged)
    {
      hide OwnOk, BitsOk, Synced, SameSlots, PutDinode;
      WrittenBack(sb, State(), own, skip, dirty, i);
      var m := sb.IBlock(i);
      disk := disk[m := PutDinode(disk[m], i % IPB, inode[i])];
      logged := logged + {m};
    }

    /** One iteration of writei()'s loop: m bytes more, or 0 if it breaks off. */
    method WriteBlock(i: nat, ghost off: nat, cur: nat, src: seq<byte>, tot: nat, n: nat,
                      ghost fs0: Fs, ghost log0: set<nat>, ghost t: Tally) returns (m: nat, ghost t': Tally)
      requires i < sb.ninodes && cur == off + tot && tot < n && off + n <= MAXFILE * BSIZE
      requires Writing(sb, fs0, log0, State(), own, logged, i, off, src, tot, t)
      requires t.started == Before(off, cur)
      modifies this`disk, this`inode, this`own, this`logged
      ensures tot + m <= |src| && Writing(sb, fs0, log0, State(), own, logged, i, off, src, tot + m, t')
      ensures m == 0 || m == Chunk(cur, n - tot)
      ensures m == 0 ==> tot + Chunk(cur, n - tot) > |src| || (Ok(i) && Full(sb, disk))
      ensures t.started <= t'.started <= t.started + 1 && (m > 0 ==> t'.started == t.started + 1)
      ensures m > 0 ==> Addr(State(), DataSlot(i, cur / BSIZE)) != 0
      ensures KeepsSlots(old(State()), State())
      ensures Recorded(old(disk), old(logged), disk, logged)
    {
      hide Inv, Addr, Grow, Written, Spent, Full, BmapLog, OnlyAddrs, Spliced, Recorded;
      ghost var fs, o, log := State(), own, logged;
      var addr := Bmap(i, cur / BSIZE, i);
      t' := WritingGrows(sb, fs0, log0, fs, o, log, i, off, src, tot, t, State(), own);
      if addr == 0 {
        return 0, t';
      }
      m := Chunk(cur, n - tot);
      if tot + m > |src| {
        return 0, t';
      }
      WritingStores(sb, fs0, log0, State(), own, logged, i, off, src, tot, t', m);
      RecordedWrite(fs.disk, log, disk, logged, addr, Spliced(disk[addr], cur % BSIZE, src[tot..tot + m]));
      disk := disk[addr := Spliced(disk[addr], cur % BSIZE, src[tot..tot + m])];
      logged := logged + {addr};
    }

    /** writei()'s loop. */
    method WriteLoop(i: nat, src: seq<byte>, off: nat, n: nat) returns (tot: nat, ghost t: Tally)
      requires Ok(i) && i < sb.ninodes && off <= inode[i].size && off + n <= MAXFILE * BSIZE
      modifies this`disk, this`inode, this`own, this`logged
      ensures tot <= n && tot <= |src|
      ensures Writing(sb, old(State()), old(logged), State(), own, logged, i, off, src, tot, t)
      ensures t.started <= Touched(off, n)
      ensures old(HoleFree(State(), i)) ==> Mapped(State(), i, Max(old(inode[i].size), off + tot))
      ensures tot < n ==> |src| < n || (Ok(i) && Full(sb, disk))
      ensures Recorded(old(disk), old(logged), disk, logged)
    {
      hide Inv, Shaped, Addr, Writing, Mapped, Full, Before, Touched, Chunk, KeepsSlots, Recorded;
      RecordedRefl(disk, logged);
      Sizes(sb, State(), own, {}, i);
      NoneTouched(off, n);
      ghost var fs0, log0, size0 := State(), logged, inode[i].size;
      ghost var holeFree := HoleFree(State(), i);
      WritingStarts(sb, State(), own, logged, i, off, src);
      tot, t := 0, Tally(0, 0, {}, {}, {});
      while tot < n
        invariant tot <= n && tot <= |src|
        invariant Writing(sb, fs0, log0, State(), own, logged, i, off, src, tot, t)
        invariant tot < n ==> t.started == Before(off, off + tot)
        invariant t.started <= Touched(off, n)
        invariant holeFree ==> Mapped(State(), i, Max(size0, off + tot))
        invariant Recorded(fs0.disk, log0, disk, logged)
      {
        ghost var fs, log := State(), logged;
        ChunkEnds(off, tot, n);
        var m;
        m, t := WriteBlock(i, off, off + tot, src, tot, n, fs0, log0, t);
        RecordedTwice(fs0.disk, log0, fs.disk, log, disk, logged);
        if holeFree {
          MappedGrows(fs, State(), i, Max(size0, off + tot), off + tot, m);
        }
        if m == 0 {
          return;
        }
        tot := tot + m;
      }
    }

    /** writei(): overwrites exactly r bytes at off, or none if the request is out
        of range; the file grows to at most off + r. Each chunk of filewrite()
        logs at most MAXOPBLOCKS blocks. */
    method Writei(i: nat, src: seq<byte>, off: nat, n: nat) returns (r: int)
      requires Ok(NONE) && i < sb.ninodes && off < UINT && n < UINT
      modifies this`disk, this`inode, this`own, this`logged
      ensures Ok(NONE) && -1 <= r <= n
      ensures r == -1 <==> off > old(inode[i].size) || off + n >= UINT || off + n > MAXFILE * BSIZE
      ensures r == -1 ==> State() == old(State()) && own == old(own) && logged == old(logged)
      ensures r >= 0 ==> WroteBytes(sb, old(State()), State(), i, off, src, r)
      ensures 0 <= r < n ==> |src| < n || Full(sb, disk)
      ensures old(HoleFree(State(), i)) ==> HoleFree(State(), i)
      ensures old(HoleFree(State(), i)) && n <= MAXCHUNK ==> |logged - old(logged)| <= MAXOP
      ensures Recorded(old(disk), old(logged), disk, logged)
    {
      hide Inv, Shaped, Addr, Writing, Mapped, Full, Touched, WroteBytes, Spent, Finished, Recorded;
      RecordedRefl(disk, logged);
      Sizes(sb, State(), own, {}, NONE);
      if off > inode[i].size || off + n >= UINT || off + n > MAXFILE * BSIZE {
        assert logged - old(logged) == {};
        return -1;
      }
      ghost var fs0, log0, t := State(), logged, Tally(0, 0, {}, {}, {});
      Dirtied(sb, State(), own, NONE, i);
      r, t := WriteLoop(i, src, off, n);
      WritingInv(sb, fs0, log0, State(), own, logged, i, off, src, r, t);
      ghost var d1, log1 := disk, logged;
      r := Finish(i, off, src, r, n, fs0, log0, t);
      RecordedTwice(fs0.disk, log0, d1, log1, disk, logged);
    }

    /** The end of writei(): set the size and write the inode back. */
    method Finish(i: nat, off: nat, ghost src: seq<byte>, tot: nat, ghost n: nat,
                  ghost fs0: Fs, ghost log0: set<nat>, ghost t: Tally) returns (r: nat)
      requires i < |fs0.inode| == sb.ninodes && off <= fs0.inode[i].size && off + tot < UINT
      requires Writing(sb, fs0, log0, State(), own, logged, i, off, src, tot, t)
      requires Ok(i) && t.started <= Touched(off, n)
      requires HoleFree(fs0, i) ==> Mapped(State(), i, Max(fs0.inode[i].size, off + tot))
      modifies this`disk, this`inode, this`logged
      ensures r == tot && Ok(NONE) && WroteBytes(sb, fs0, State(), i, off, src, tot)
      ensures old(Full(sb, disk)) ==> Full(sb, disk)
      ensures HoleFree(fs0, i) ==> HoleFree(State(), i)
      ensures HoleFree(fs0, i) && n <= MAXCHUNK ==> |logged - log0| <= MAXOP
      ensures Recorded(old(disk), old(logged), disk, logged)
    {
      hide Inv, Shaped, Addr, Writing, Mapped, Touched, WroteBytes, Spent, SameSlots, Full, WithDinode, Recorded;
      WritingInv(sb, fs0, log0, State(), own, logged, i, off, src, tot, t);
      WriteDone(sb, fs0, log0, State(), own, logged, i, off, src, tot, t);
      SizeSet(sb, State(), own, i, Max(inode[i].size, off + tot));
      if HoleFree(fs0, i) && n <= MAXCHUNK {
        FirstBlock(fs0, i, off);
        WithinBudget(fs0, State(), i, off, n, log0, logged, t, sb.IBlock(i));
      }
      ghost var fs := State();
      if off + tot > inode[i].size {
        inode := inode[i := inode[i].(size := off + tot)];
      }
      assert State() == WithSize(fs, i, Max(fs.inode[i].size, off + tot));
      Sizes(sb, State(), own, {}, i);
      FullKept(sb, State(), i);
      Iupdate(i, {}, i);
      r := tot;
    }

    /** itrunc()'s first loop: the direct blocks. */
    method TruncDirect(i: nat)
      requires Ok(NONE) && i < sb.ninodes
      modifies this`disk, this`inode, this`own, this`logged
      ensures Ok(i) && Truncated(sb, old(State()), State(), i, PTR)
      ensures Recorded(old(disk), old(logged), disk, logged)
    {
      hide Inv, Addr, Truncated, Shaped, WithoutBlock, Recorded;
      ghost var fs0, log0, dirty := State(), logged, NONE;
      RecordedRefl(disk, logged);
      Sizes(sb, State(), own, {}, NONE);
      TruncStarts(sb, State(), i);
      var k := 0;
      while k < NDIRECT
        invariant 0 <= k <= PTR && (dirty == NONE || dirty == i)
        invariant Ok(dirty) && Truncated(sb, fs0, State(), i, k)
        invariant Recorded(fs0.disk, log0, disk, logged)
      {
        ghost var d, log := disk, logged;
        AddrIs(sb, State(), own, {}, dirty, i, k);
        if inode[i].addrs[k] != 0 {
          TruncFrees(sb, fs0, State(), own, i, k, dirty);
          assert Slot(i, k) !in {};
          Bfree(inode[i].addrs[k], Slot(i, k), {}, dirty);
          RecordedTwice(fs0.disk, log0, d, log, disk, logged);
          inode := inode[i := inode[i].(addrs := inode[i].addrs[k := 0])];
          dirty := i;
        } else {
          TruncSkips(sb, fs0, State(), i, k);
        }
        k := k + 1;
      }
      Dirtied(sb, State(), own, dirty, i);
    }

    /** itrunc()'s second half: the blocks of the indirect block, then itself. */
    method TruncIndirect(i: nat, ghost fs0: Fs)
      requires Ok(i) && i < sb.ninodes && Truncated(sb, fs0, State(), i, PTR)
      modifies this`disk, this`inode, this`own, this`logged
      ensures Ok(i) && Truncated(sb, fs0, State(), i, NSLOT)
      ensures Recorded(old(disk), old(logged), disk, logged)
    {
      hide Inv, Addr, Truncated, Emptying, Shaped, WithoutBlock, Word, SameSlots, Recorded;
      RecordedRefl(disk, logged);
      AddrIs(sb, State(), own, {}, i, i, PTR);
      if inode[i].addrs[PTR] == 0 {
        TruncNoPointer(sb, fs0, State(), i);
        return;
      }
      var p := inode[i].addrs[PTR];
      ghost var fs1, log1, skip: set<Slot> := State(), logged, {};
      Sizes(sb, State(), own, {}, i);
      EmptyingStarts(sb, State(), i);
      var j := 0;
      while j < NINDIRECT
        invariant 0 <= j <= NINDIRECT && inode == fs1.inode
        invariant Inv(sb, State(), own, {}, skip, i) && Emptying(sb, fs1, State(), i, j, skip)
        invariant Recorded(fs1.disk, log1, disk, logged)
      {
        ghost var d, log := disk, logged;
        EntryIs(sb, State(), own, skip, i, i, j);
        var b := Word(disk[p], j);
        if b != 0 {
          FreeEntry(i, j, b, fs1, skip);
          RecordedTwice(fs1.disk, log1, d, log, disk, logged);
          skip := skip + {Slot(i, PTR + 1 + j)};
        } else {
          EmptyingSkips(sb, fs1, State(), i, j, skip);
        }
        j := j + 1;
      }
      ghost var d, log := disk, logged;
      FreePointer(i, p, fs0, fs1, skip);
      RecordedTwice(fs1.disk, log1, d, log, disk, logged);
    }

    method FreeEntry(i: nat, j: nat, b: nat, ghost fs1: Fs, ghost skip: set<Slot>)
      requires Inv(sb, State(), own, {}, skip, i) && i < sb.ninodes && j < NINDIRECT
      requires Emptying(sb, fs1, State(), i, j, skip) && b == Addr(State(), Slot(i, PTR + 1 + j)) != 0
      modifies this`disk, this`own, this`logged
      ensures Inv(sb, State(), own, {}, skip + {Slot(i, PTR + 1 + j)}, i)
      ensures Emptying(sb, fs1, State(), i, j + 1, skip + {Slot(i, PTR + 1 + j)})
      ensures Recorded(old(disk), old(logged), disk, logged)
    {
      hide Inv, Addr, Shaped, WithoutBlock, SameSlots, Recorded;
      ghost var fs := State();
      Sizes(sb, fs, own, skip, i);
      Bfree(b, Slot(i, PTR + 1 + j), skip, i);
      FreeKeeps(sb, fs, b);
      EmptyingFrees(sb, fs1, fs, State(), i, j, skip);
    }

    method FreePointer(i: nat, p: nat, ghost fs0: Fs, ghost fs1: Fs, ghost skip: set<Slot>)
      requires Inv(sb, State(), own, {}, skip, i) && i < sb.ninodes
      requires Truncated(sb, fs0, fs1, i, PTR) && Emptying(sb, fs1, State(), i, NINDIRECT, skip)
      requires |inode| == sb.ninodes && |inode[i].addrs| == NDIRECT + 1 && p == inode[i].addrs[PTR] != 0
      modifies this`disk, this`inode, this`own, this`logged
      ensures Ok(i) && Truncated(sb, fs0, State(), i, NSLOT)
      ensures Recorded(old(disk), old(logged), disk, logged)
    {
      hide Inv, Addr, Shaped, WithoutBlock, SameSlots, Truncated, Recorded;
      ghost var fs := State();
      Sizes(sb, fs, own, skip, i);
      AddrIs(sb, fs, own, skip, i, i, PTR);
      Bfree(p, Slot(i, PTR), skip, i);
      FreeKeeps(sb, fs, p);
      TruncPointer(sb, fs0, fs1, fs, State(), own, i, skip, i);
      inode := inode[i := inode[i].(addrs := inode[i].addrs[PTR := 0])];
    }

    /** itrunc(): the file is emptied and every block it owned is free again; no
        other file is touched and no free block is freed. */
    method Itrunc(i: nat)
      requires Ok(NONE) && i < sb.ninodes
      modifies this`disk, this`inode, this`own, this`logged
      ensures Ok(NONE) && EmptyFile(sb, old(State()), old(own), State(), own, i)
      ensures Recorded(old(disk), old(logged), disk, logged)
    {
      hide Inv, Addr, Shaped, Truncated, EmptyFile, SameSlots, WithDinode, Recorded;
      ghost var fs0, own0, log0 := State(), own, logged;
      TruncDirect(i);
      ghost var d1, log1 := disk, logged;
      TruncIndirect(i, fs0);
      ghost var d2, log2 := disk, logged;
      RecordedTwice(fs0.disk, log0, d1, log1, d2, log2);
      TruncFinishes(sb, fs0, own0, State(), own, i);
      Sizes(sb, State(), own, {}, i);
      inode := inode[i := inode[i].(size := 0)];
      Iupdate(i, {}, i);
      RecordedTwice(fs0.disk, log0, d2, log2, disk, logged);
    }

    /** iput(): the last reference to an unlinked inode empties and frees it. */
    method Iput(i: nat)
      requires Ok(NONE) && i < sb.ninodes && |ref| == |valid| == sb.ninodes && ref[i] >= 1
      modifies this`disk, this`inode, this`own, this`logged, this`ref, this`valid
      ensures Ok(NONE) && ref == old(ref)[i := old(ref)[i] - 1]
      ensures var frees := old(ref)[i] == 1 && old(valid)[i] && old(inode[i].nlink) == 0;
        if frees then
          && valid == old(valid)[i := false]
          && EmptyFile(sb, Kinded(old(State()), i), old(own), State(), own, i)
          && Unallocated(sb, old(State()), State(), i)
        else State() == old(State()) && own == old(own) && valid == old(valid)
      ensures Recorded(old(disk), old(logged), disk, logged)
    {
      hide Inv, Addr, Shaped, SameSlots, WithDinode, EmptyFile, Recorded, Unallocated;
      RecordedRefl(disk, logged);
      Sizes(sb, State(), own, {}, NONE);
      if ref[i] == 1 && valid[i] && inode[i].nlink == 0 {
        FreeInode(i);
        valid := valid[i := false];
      }
      ref := ref[i := ref[i] - 1];
    }

    method FreeInode(i: nat)
      requires Ok(NONE) && i < |inode| == sb.ninodes
      modifies this`disk, this`inode, this`own, this`logged
      ensures Ok(NONE) && EmptyFile(sb, Kinded(old(State()), i), old(own), State(), own, i)
      ensures Unallocated(sb, old(State()), State(), i)
      ensures Recorded(old(disk), old(logged), disk, logged)
    {
      hide Inv, Addr, Shaped, SameSlots, WithDinode, EmptyFile, Recorded, Unallocated;
      ghost var fs0, own0, log0 := State(), own, logged;
      Itrunc(i);
      ghost var d1, log1 := disk, logged;
      KindCleared(sb, fs0, own0, State(), own, i);
      inode := inode[i := inode[i].(kind := 0)];
      Iupdate(i, {}, i);
      NowUnallocated(sb, fs0, own0, State(), own, i);
      RecordedTwice(fs0.disk, log0, d1, log1, disk, logged);
    }

    /** readi(): the bytes from off on, cut short at the end of the file; -1 if the
        destination has room for fewer. On a hole-free file nothing changes, so no
        block is ever allocated outside a transaction. */
    method Readi(i: nat, off: nat, n: nat, room: nat) returns (r: int, data: seq<byte>)
      requires Ok(NONE) && i < |inode| == sb.ninodes && off < UINT && n < UINT && inode[i].size <= MAXFILE * BSIZE
      modifies this`disk, this`inode, this`own, this`logged
      ensures Ok(i) && -1 <= r && (r >= 0 ==> |data| == r)
      ensures old(HoleFree(State(), i)) ==> State() == old(State()) && own == old(own) && logged == old(logged)
      ensures off > old(inode[i].size) || off + n >= UINT ==> r == 0
      ensures r > 0 ==> off + r <= old(inode[i].size) && data == old(Content(State(), i))[off..off + r]
      ensures old(HoleFree(State(), i)) && off <= old(inode[i].size) && off + n < UINT ==>
        r == (var k := if off + n > old(inode[i].size) then old(inode[i].size) - off else n; if k <= room then k else -1)
    {
      hide Inv, Addr, Grow, ReadsAs, BmapLog, Shaped, Mapped, Content;
      Dirtied(sb, State(), own, NONE, i);
      data, r := [], 0;
      if off > inode[i].size || off + n >= UINT {
        return;
      }
      var k := if off + n > inode[i].size then inode[i].size - off else n;
      ghost var fs0, own0, log0, holeFree := State(), own, logged, HoleFree(State(), i);
      GrowRefl(fs0, own0, i);
      ReadsEmpty(fs0, i, off);
      while |data| < k
        invariant |data| <= k && |data| <= room && Ok(i)
        invariant Grow(fs0, own0, State(), own, i) && ReadsAs(fs0, i, off, data)
        invariant holeFree ==> State() == fs0 && own == own0 && logged == log0
        decreases k - |data|
      {
        var cur := off + |data|;
        var m := Chunk(cur, k - |data|);
        ChunkEnds(off, |data|, k);
        if holeFree {
          HasBlock(fs0, i, cur);
        }
        var found, chunk := ReadBlock(i, cur, m, fs0, own0, off, data);
        if !found {
          break;
        }
        if |data| + m > room {
          r := -1;
          return;
        }
        data := data + chunk;
      }
      r := |data|;
      ReadIsSlice(fs0, i, off, data);
    }

    /** The body of readi()'s loop: find the block and copy m bytes out of it. */
    method ReadBlock(i: nat, cur: nat, m: nat, ghost fs0: Fs, ghost own0: map<nat, Slot>, ghost off: nat,
                     ghost data: seq<byte>) returns (found: bool, chunk: seq<byte>)
      requires Ok(i) && i < sb.ninodes && cur == off + |data| && m <= BSIZE - cur % BSIZE && cur < MAXFILE * BSIZE
      requires Grow(fs0, own0, State(), own, i) && ReadsAs(fs0, i, off, data)
      modifies this`disk, this`inode, this`own, this`logged
      ensures Ok(i) && Grow(fs0, own0, State(), own, i)
      ensures found ==> |chunk| == m && ReadsAs(fs0, i, off, data + chunk)
      ensures old(Addr(State(), DataSlot(i, cur / BSIZE))) != 0 ==>
        found && State() == old(State()) && own == old(own) && logged == old(logged)
    {
      hide Inv, Addr, Grow, ReadsAs, BmapLog;
      ghost var fs1, own1 := State(), own;
      var addr := Bmap(i, cur / BSIZE, i);
      GrowTransitive(fs0, own0, fs1, own1, State(), own, i);
      if addr == 0 {
        return false, [];
      }
      BlockThere(sb, State(), own, i, i, cur / BSIZE);
      ReadStep(fs0, own0, State(), own, i, off, data, m);
      found, chunk := true, disk[addr][cur % BSIZE..cur % BSIZE + m];
    }

    /** filewrite() on an inode: chunk by chunk, each an operation of its own, which
        begin_op() and end_op() delimit. `txns` collects what each of them logs. */
    method Filewrite(i: nat, off: nat, src: seq<byte>, n: int) returns (ret: int, off': nat, ghost txns: seq<set<nat>>)
      requires Ok(NONE) && i < |inode| == sb.ninodes && off < UINT && n < UINT
      modifies this`disk, this`inode, this`own, this`logged
      ensures Ok(NONE) && |inode| == sb.ninodes && off <= off'
      ensures if off <= old(inode[i].size) then WroteBytes(sb, old(State()), State(), i, off, src, off' - off)
              else State() == old(State()) && off' == off
      ensures ret == if off' - off == n then n else -1
      ensures 0 <= off' - off < n ==>
        off > old(inode[i].size) || off + n > MAXFILE * BSIZE || |src| < n || Full(sb, disk)
      ensures RecordedIn(old(disk), disk, txns)
      ensures old(HoleFree(State(), i)) ==> HoleFree(State(), i) && forall k :: 0 <= k < |txns| ==> |txns[k]| <= MAXOP
    {
      hide Inv, Addr, Mapped, WroteBytes, Full, Shaped, Recorded, RecordedIn;
      NothingRecorded(disk);
      ghost var fs0, holeFree := State(), HoleFree(State(), i);
      if off <= inode[i].size {
        WroteNothing(sb, fs0, i, off, src);
      }
      off', txns := off, [];
      var done := 0;
      while done < n
        invariant 0 <= done && (n >= 0 ==> done <= n) && (n < 0 ==> done == 0) && done <= |src|
        invariant off' == off + done && off' < UINT
        invariant Ok(NONE) && |inode| == sb.ninodes && (holeFree ==> HoleFree(State(), i))
        invariant if off <= fs0.inode[i].size then WroteBytes(sb, fs0, State(), i, off, src, done)
                  else State() == fs0 && done == 0
        invariant holeFree ==> forall k :: 0 <= k < |txns| ==> |txns[k]| <= MAXOP
        invariant RecordedIn(fs0.disk, disk, txns)
        decreases n - done
      {
        var n1 := if n - done > MAXCHUNK then MAXCHUNK else n - done;
        ghost var fs, before := State(), txns;
        logged := {};
        if off <= fs0.inode[i].size {
          WroteSize(sb, fs0, State(), own, i, off, src, done);
        }
        var r := Writei(i, src[done..], off', n1);
        Sizes(sb, State(), own, {}, NONE);
        assert logged - {} == logged;
        RecordedNext(fs0.disk, fs.disk, before, disk, logged);
        txns := txns + [logged];
        if r > 0 {
          off' := off' + r;
        }
        if r >= 0 {
          WroteTwice(sb, fs0, fs, State(), i, off, src, done, r);
        }
        if r != n1 {
          ret := -1;
          return;
        }
        done := done + r;
      }
      ret := if done == n then n else -1;
    }
  }

  lemma NothingRecorded(d: Disk)
    ensures RecordedIn(d, d, [])
  {
  }

  /** The inode with its type cleared, as iput() leaves a freed one. */
  function Kinded(fs: Fs, i: nat): Fs
    requires i < |fs.inode|
  {
    fs.(inode := fs.inode[i := fs.inode[i].(kind := 0)])
  }

  /** What ialloc() looks for: inode i has type 0, in memory and in its two bytes on
      disk, and neither size nor blocks; the rest of it is as it was, and so are all
      other inodes. */
  ghost predicate Unallocated(sb: Super, fs0: Fs, fs: Fs, i: nat) {
    && |fs.inode| == |fs0.inode| && i < |fs.inode|
    && fs.inode[i] == fs0.inode[i].(kind := 0, size := 0, addrs := fs.inode[i].addrs)
    && |fs.inode[i].addrs| == NDIRECT + 1 && (forall k :: 0 <= k <= NDIRECT ==> fs.inode[i].addrs[k] == 0)
    && (forall j :: 0 <= j < |fs.inode| && j != i ==> fs.inode[j] == fs0.inode[j])
    && sb.IBlock(i) < |fs.disk| && |fs.disk[sb.IBlock(i)]| == BSIZE
    && var o := 64 * (i % IPB); fs.disk[sb.IBlock(i)][o] == 0 && fs.disk[sb.IBlock(i)][o + 1] == 0
  }

  lemma NowUnallocated(sb: Super, fs0: Fs, own0: map<nat, Slot>, fs: Fs, own: map<nat, Slot>, i: nat)
    requires i < |fs0.inode| && EmptyFile(sb, Kinded(fs0, i), own0, fs, own, i) && Inv(sb, fs, own, {}, {}, NONE)
    ensures Unallocated(sb, fs0, fs, i)
  {
    hide OwnOk, BitsOk, Addr, DinodeAt, Content;
    DinodeLayout(fs.disk[sb.IBlock(i)], i % IPB);
    assert DinodeAt(fs.disk[sb.IBlock(i)], i % IPB) == fs.inode[i];
  }

  lemma KindSlots(fs: Fs, i: nat)
    requires i < |fs.inode|
    ensures SameSlots(fs, Kinded(fs, i))
  {
    hide Word;
  }

  lemma KindInv(sb: Super, fs: Fs, own: map<nat, Slot>, i: nat)
    requires Inv(sb, fs, own, {}, {}, NONE) && i < sb.ninodes
    ensures Inv(sb, Kinded(fs, i), own, {}, {}, i)
  {
    hide Addr, OwnOk, BitsOk, DinodeAt, SameSlots;
    KindSlots(fs, i);
    OwnFrame(sb, fs, Kinded(fs, i), own, {});
  }

  lemma KindCleared(sb: Super, fs0: Fs, own0: map<nat, Slot>, fs: Fs, own: map<nat, Slot>, i: nat)
    requires Inv(sb, fs, own, {}, {}, NONE) && i < |fs0.inode| && EmptyFile(sb, fs0, own0, fs, own, i)
    ensures |fs.inode| == sb.ninodes && Inv(sb, Kinded(fs, i), own, {}, {}, i) && Shaped(sb, Kinded(fs, i))
    ensures EmptyFile(sb, Kinded(fs0, i), own0, WithDinode(sb, Kinded(fs, i), i), own, i)
  {
    hide Addr, OwnOk, BitsOk, Synced, SameSlots, SameBytes, PutDinode;
    KindInv(sb, fs, own, i);
    var mid := Kinded(fs, i);
    KindSlots(fs, i);
    WrittenBack(sb, mid, own, {}, i, i);
    WrittenBackBytes(sb, mid, own, i, i);
    SlotsGiveBytes(sb, fs, mid, own);
    SameBytesTransitive(fs, mid, WithDinode(sb, mid, i));
    KindSlots(fs0, i);
    var fs' := WithDinode(sb, mid, i);
    forall j | 0 <= j < sb.ninodes && j != i
      ensures fs'.inode[j] == Kinded(fs0, i).inode[j] && Content(fs', j) == Content(Kinded(fs0, i), j)
    {
      BytesGiveContent(fs, fs', j);
      SlotsGiveContent(fs0, Kinded(fs0, i), j);
    }
  }

  lemma BytesGiveContent(fs: Fs, fs': Fs, j: nat)
    requires SameBytes(fs, fs') && j < |fs.inode| == |fs'.inode| && fs'.inode[j] == fs.inode[j]
    ensures Content(fs', j) == Content(fs, j)
  {
    hide ByteAt;
  }

  lemma SlotsGiveContent(fs: Fs, fs': Fs, j: nat)
    requires SameSlots(fs, fs') && fs'.disk == fs.disk && j < |fs.inode| == |fs'.inode| && fs'.inode[j] == fs.inode[j]
    ensures Content(fs', j) == Content(fs, j)
  {
    hide Addr;
    assert forall o: nat :: ByteAt(fs', j, o) == ByteAt(fs, j, o);
  }

  /** The k-th address of inode i is slot k. */
  lemma AddrIs(sb: Super, fs: Fs, own: map<nat, Slot>, skip: set<Slot>, dirty: int, i: nat, k: nat)
    requires Inv(sb, fs, own, {}, skip, dirty) && i < sb.ninodes && k <= PTR
    ensures |fs.inode| == sb.ninodes && |fs.inode[i].addrs| == NDIRECT + 1 && Addr(fs, Slot(i, k)) == fs.inode[i].addrs[k]
  {
    hide OwnOk, BitsOk, Synced;
  }

  lemma FullKept(sb: Super, fs: Fs, i: nat)
    requires Shaped(sb, fs) && i < sb.ninodes
    ensures Shaped(sb, WithDinode(sb, fs, i))
    ensures Full(sb, fs.disk) ==> Full(sb, WithDinode(sb, fs, i).disk)
  {
    hide PutDinode, Bit;
    var fs' := WithDinode(sb, fs, i);
    forall b: nat | b < sb.size
      ensures InUse(sb, fs'.disk, b) <==> InUse(sb, fs.disk, b)
    {
    }
  }
}
