/** Which inode slot owns which disk block, and how each elementary update of
    kernel/fs.c changes that.

    A slot is a place that can hold a block number: a direct address of an inode,
    its indirect pointer, or an entry of its indirect block. The ghost map `own`
    records the one slot that refers to each allocated block. */
module FsOwnership {
  import opened FsCodec

  type Disk = seq<Block>

  /** The parts of the superblock that matter here; `datastart` is the first block
      after the free map. */
  datatype Super = Super(size: nat, ninodes: nat, inodestart: nat, bmapstart: nat, datastart: nat) {
    ghost predicate Valid() {
      && 0 < inodestart
      && (forall i: nat :: i < ninodes ==> IBlock(i) < bmapstart)
      && (forall b: nat :: b < size ==> BBlock(b) < datastart)
      && inodestart <= bmapstart <= datastart <= size < UINT
    }

    function IBlock(i: nat): (r: nat)
      ensures r >= inodestart
    {
      i / IPB + inodestart
    }

    function BBlock(b: nat): (r: nat)
      ensures r >= bmapstart
    {
      b / BPB + bmapstart
    }
  }

  /** Slot k of inode inum: 0..11 direct, 12 the indirect pointer, 13.. the
      entries of the indirect block. */
  datatype Slot = Slot(inum: nat, k: nat)

  const PTR := NDIRECT
  const NSLOT := NDIRECT + 1 + NINDIRECT

  /** The disk as the transaction sees it, and the in-memory inodes. */
  datatype Fs = Fs(disk: Disk, inode: seq<Inode>)

  ghost predicate Shaped(sb: Super, fs: Fs) {
    && sb.Valid()
    && |fs.disk| == sb.size && |fs.inode| == sb.ninodes
    && (forall b :: 0 <= b < |fs.disk| ==> |fs.disk[b]| == BSIZE)
    && (forall i :: 0 <= i < |fs.inode| ==> fs.inode[i].Valid())
  }

  /** The block number in slot s, 0 if there is none. */
  function Addr(fs: Fs, s: Slot): nat {
    if s.inum < |fs.inode| && s.k < NSLOT && |fs.inode[s.inum].addrs| == NDIRECT + 1 then
      var addrs := fs.inode[s.inum].addrs;
      if s.k <= PTR then addrs[s.k]
      else if 0 < addrs[PTR] < |fs.disk| && |fs.disk[addrs[PTR]]| == BSIZE
      then Word(fs.disk[addrs[PTR]], s.k - PTR - 1)
      else 0
    else 0
  }

  /** Every block number outside `skip` is owned by the slot that holds it, and by
      no other; every owned block is a data block held by its slot. */
  ghost predicate OwnOk(sb: Super, fs: Fs, own: map<nat, Slot>, skip: set<Slot>) {
    && (forall s :: Addr(fs, s) != 0 && s !in skip ==> Addr(fs, s) in own && own[Addr(fs, s)] == s)
    && (forall s :: Addr(fs, s) != 0 ==> sb.datastart <= Addr(fs, s) < sb.size)
    && (forall b :: b in own ==> sb.datastart <= b < sb.size && Addr(fs, own[b]) == b && own[b] !in skip)
  }

  /** Block b is marked in the free map. */
  predicate InUse(sb: Super, disk: Disk, b: nat)
    requires sb.BBlock(b) < |disk| && |disk[sb.BBlock(b)]| == BSIZE
  {
    Bit(disk[sb.BBlock(b)], b % BPB)
  }

  /** The free map marks exactly the metadata blocks and the blocks in `used`. */
  ghost predicate BitsOk(sb: Super, disk: Disk, used: set<nat>)
    requires sb.Valid() && |disk| == sb.size
    requires forall b :: 0 <= b < |disk| ==> |disk[b]| == BSIZE
  {
    forall b: nat :: b < sb.size ==> (InUse(sb, disk, b) <==> b < sb.datastart || b in used)
  }

  /** The inodes on disk are the ones in memory, except possibly one. */
  ghost predicate Synced(sb: Super, fs: Fs, dirty: int)
    requires Shaped(sb, fs)
  {
    forall i: nat :: i < sb.ninodes && i != dirty ==> DinodeAt(fs.disk[sb.IBlock(i)], i % IPB) == fs.inode[i]
  }

  /** The invariant: `pending` is a block that has been allocated but not yet put
      in a slot, `skip` the slots whose blocks have been freed but which have not
      been cleared yet, `dirty` the inode still to be written back. Between
      operations all three are empty. */
  ghost predicate Inv(sb: Super, fs: Fs, own: map<nat, Slot>, pending: set<nat>, skip: set<Slot>, dirty: int) {
    && Shaped(sb, fs)
    && OwnOk(sb, fs, own, skip)
    && BitsOk(sb, fs.disk, own.Keys + pending)
    && Synced(sb, fs, dirty)
    && (forall b :: b in pending ==> b !in own && sb.datastart <= b < sb.size && fs.disk[b] == Zeros())
  }

  const NONE := -1

  ghost predicate Stable(sb: Super, fs: Fs, own: map<nat, Slot>) {
    Inv(sb, fs, own, {}, {}, NONE)
  }

  /** In a stable state a bit is set exactly for metadata blocks and for blocks
      that some slot holds, and no block is held by two slots. */
  lemma OwnershipTheorem(sb: Super, fs: Fs, own: map<nat, Slot>, b: nat)
    requires Stable(sb, fs, own) && b < sb.size
    ensures InUse(sb, fs.disk, b) <==> b < sb.datastart || exists s :: b != 0 && Addr(fs, s) == b
    ensures forall s, t :: Addr(fs, s) == Addr(fs, t) != 0 ==> s == t
  {
    hide Addr;
    if b in own {
      assert Addr(fs, own[b]) == b;
    }
  }

  // ------------------------------------------------------- elementary updates

  /** No slot's contents change. */
  ghost predicate SameSlots(fs: Fs, fs': Fs) {
    forall s :: Addr(fs', s) == Addr(fs, s)
  }

  /** Blocks that are not indirect blocks can change without changing any slot. */
  lemma BlockFrame(sb: Super, fs: Fs, b: nat, block: Block)
    requires Shaped(sb, fs) && b < |fs.disk| && |block| == BSIZE
    requires forall i :: 0 <= i < |fs.inode| ==> fs.inode[i].addrs[PTR] == 0 || fs.inode[i].addrs[PTR] != b
    ensures Shaped(sb, fs.(disk := fs.disk[b := block]))
    ensures SameSlots(fs, fs.(disk := fs.disk[b := block]))
  {
    hide Word;
  }

  lemma OwnFrame(sb: Super, fs: Fs, fs': Fs, own: map<nat, Slot>, skip: set<Slot>)
    requires OwnOk(sb, fs, own, skip) && SameSlots(fs, fs')
    ensures OwnOk(sb, fs', own, skip)
  {
    hide Addr;
  }

  /** An indirect pointer holds a data block, and only the one it owns. */
  lemma PointerTarget(sb: Super, fs: Fs, own: map<nat, Slot>, skip: set<Slot>, i: nat)
    requires Shaped(sb, fs) && OwnOk(sb, fs, own, skip) && i < |fs.inode| && fs.inode[i].addrs[PTR] != 0
    ensures var p := fs.inode[i].addrs[PTR];
      && sb.datastart <= p < sb.size
      && (Slot(i, PTR) !in skip ==> p in own && own[p] == Slot(i, PTR))
  {
    assert Addr(fs, Slot(i, PTR)) == fs.inode[i].addrs[PTR];
  }

  /** Metadata blocks, free blocks and blocks of file data hold no addresses. */
  lemma PlainWrite(sb: Super, fs: Fs, own: map<nat, Slot>, skip: set<Slot>, b: nat, block: Block)
    requires Shaped(sb, fs) && OwnOk(sb, fs, own, skip)
    requires b < sb.size && |block| == BSIZE
    requires b < sb.datastart || (skip == {} && (b !in own || own[b].k != PTR))
    ensures var fs' := fs.(disk := fs.disk[b := block]);
      Shaped(sb, fs') && SameSlots(fs, fs') && OwnOk(sb, fs', own, skip)
  {
    forall i | 0 <= i < |fs.inode|
      ensures fs.inode[i].addrs[PTR] == 0 || fs.inode[i].addrs[PTR] != b
    {
      if fs.inode[i].addrs[PTR] != 0 {
        PointerTarget(sb, fs, own, skip, i);
      }
    }
    BlockFrame(sb, fs, b, block);
    OwnFrame(sb, fs, fs.(disk := fs.disk[b := block]), own, skip);
  }

  ghost predicate Blocks(disk: Disk) {
    forall b :: 0 <= b < |disk| ==> |disk[b]| == BSIZE
  }

  /** Setting the bit of block b in the free map marks b and nothing else. */
  lemma BitSet(sb: Super, disk: Disk, used: set<nat>, b: nat)
    requires sb.Valid() && |disk| == sb.size && Blocks(disk) && BitsOk(sb, disk, used) && b < sb.size
    ensures var m := sb.BBlock(b);
      BitsOk(sb, disk[m := SetBit(disk[m], b % BPB)], used + {b})
  {
    var m := sb.BBlock(b);
    hide Bit, SetBit;
    var disk' := disk[m := SetBit(disk[m], b % BPB)];
    forall c: nat | c < sb.size
      ensures InUse(sb, disk', c) <==> c == b || InUse(sb, disk, c)
    {
      if sb.BBlock(c) == m {
        BitFlipped(disk[m], b % BPB, c % BPB);
        assert c % BPB == b % BPB <==> c == b;
      }
    }
  }

  lemma BitCleared(sb: Super, disk: Disk, used: set<nat>, b: nat)
    requires sb.Valid() && |disk| == sb.size && Blocks(disk) && BitsOk(sb, disk, used) && sb.datastart <= b < sb.size
    ensures var m := sb.BBlock(b);
      BitsOk(sb, disk[m := ClearBit(disk[m], b % BPB)], used - {b})
  {
    var m := sb.BBlock(b);
    hide Bit, ClearBit;
    var disk' := disk[m := ClearBit(disk[m], b % BPB)];
    forall c: nat | c < sb.size
      ensures InUse(sb, disk', c) <==> c != b && InUse(sb, disk, c)
    {
      if sb.BBlock(c) == m {
        BitFlipped(disk[m], b % BPB, c % BPB);
        assert c % BPB == b % BPB <==> c == b;
      }
    }
  }

  lemma DataWriteKeepsBits(sb: Super, disk: Disk, used: set<nat>, b: nat, block: Block)
    requires sb.Valid() && |disk| == sb.size && Blocks(disk) && BitsOk(sb, disk, used)
    requires b < sb.size && |block| == BSIZE
    requires b < sb.bmapstart || sb.datastart <= b
    ensures BitsOk(sb, disk[b := block], used)
  {
    hide Bit;
    var disk' := disk[b := block];
    forall c: nat | c < sb.size
      ensures InUse(sb, disk', c) <==> InUse(sb, disk, c)
    {
    }
  }

  lemma SyncFrame(sb: Super, fs: Fs, dirty: int, b: nat, block: Block)
    requires Shaped(sb, fs) && Synced(sb, fs, dirty)
    requires sb.bmapstart <= b < sb.size && |block| == BSIZE
    ensures var fs' := fs.(disk := fs.disk[b := block]); Shaped(sb, fs') && Synced(sb, fs', dirty)
  {
    hide DinodeAt;
  }

  // ------------------------------------------------------ what operations do

  /** balloc() of block b: its bit is set and it is zeroed. */
  function WithBlock(sb: Super, fs: Fs, b: nat): Fs
    requires Shaped(sb, fs) && b < sb.size
  {
    var m := sb.BBlock(b);
    fs.(disk := fs.disk[m := SetBit(fs.disk[m], b % BPB)][b := Zeros()])
  }

  lemma Allocated(sb: Super, fs: Fs, own: map<nat, Slot>, dirty: int, b: nat)
    requires Inv(sb, fs, own, {}, {}, dirty) && b < sb.size && !InUse(sb, fs.disk, b)
    ensures sb.datastart <= b && b !in own
    ensures Inv(sb, WithBlock(sb, fs, b), own, {b}, {}, dirty)
    ensures SameSlots(fs, WithBlock(sb, fs, b))
    ensures forall c :: c in own ==> WithBlock(sb, fs, b).disk[c] == fs.disk[c]
  {
    hide Addr, InUse, SetBit, DinodeAt, OwnOk, SameSlots, Zeros;
    var m := sb.BBlock(b);
    var map_ := SetBit(fs.disk[m], b % BPB);
    var mid := fs.(disk := fs.disk[m := map_]);
    PlainWrite(sb, fs, own, {}, m, map_);
    BitSet(sb, fs.disk, own.Keys, b);
    SyncFrame(sb, fs, dirty, m, map_);
    assert own.Keys + {} == own.Keys;
    PlainWrite(sb, mid, own, {}, b, Zeros());
    DataWriteKeepsBits(sb, mid.disk, own.Keys + {b}, b, Zeros());
    SyncFrame(sb, mid, dirty, b, Zeros());
    SameSlotsTransitive(fs, mid, WithBlock(sb, fs, b));
    OwnedRange(sb, fs, own, {});
  }

  lemma SameSlotsTransitive(a: Fs, b: Fs, c: Fs)
    requires SameSlots(a, b) && SameSlots(b, c)
    ensures SameSlots(a, c)
  {
    hide Addr;
  }

  lemma OwnedRange(sb: Super, fs: Fs, own: map<nat, Slot>, skip: set<Slot>)
    requires OwnOk(sb, fs, own, skip)
    ensures forall b :: b in own ==> sb.datastart <= b < sb.size
  {
    hide Addr;
  }

  /** Exactly one slot changes, from empty to b. */
  ghost predicate SlotFilled(fs: Fs, fs': Fs, slot: Slot, b: nat) {
    Addr(fs, slot) == 0 && forall s :: Addr(fs', s) == if s == slot then b else Addr(fs, s)
  }

  lemma OwnGrows(sb: Super, fs: Fs, fs': Fs, own: map<nat, Slot>, slot: Slot, b: nat)
    requires sb.Valid() && OwnOk(sb, fs, own, {}) && SlotFilled(fs, fs', slot, b)
    requires b !in own && sb.datastart <= b < sb.size
    ensures OwnOk(sb, fs', own[b := slot], {})
  {
    hide Addr;
  }

  /** bmap() puts a fresh block in a direct address or in the indirect pointer; a
      fresh indirect block has no entries. */
  function WithAddr(fs: Fs, i: nat, k: nat, b: nat): Fs
    requires i < |fs.inode| && k < |fs.inode[i].addrs|
  {
    fs.(inode := fs.inode[i := fs.inode[i].(addrs := fs.inode[i].addrs[k := b])])
  }

  lemma AddrFills(sb: Super, fs: Fs, i: nat, k: nat, b: nat)
    requires Shaped(sb, fs) && i < sb.ninodes && k <= PTR && fs.inode[i].addrs[k] == 0
    requires 0 < b < sb.size && fs.disk[b] == Zeros()
    ensures SlotFilled(fs, WithAddr(fs, i, k, b), Slot(i, k), b)
  {
    hide Word;
    var fs' := WithAddr(fs, i, k, b);
    forall s | s != Slot(i, k)
      ensures Addr(fs', s) == Addr(fs, s)
    {
      if s.inum == i && PTR < s.k < NSLOT && k == PTR {
        ZeroWord(s.k - PTR - 1);
      }
    }
  }

  lemma AddrAssigned(sb: Super, fs: Fs, own: map<nat, Slot>, dirty: int, i: nat, k: nat, b: nat)
    requires Inv(sb, fs, own, {b}, {}, dirty) && (dirty == NONE || dirty == i)
    requires i < sb.ninodes && k <= PTR && fs.inode[i].addrs[k] == 0
    ensures 0 < b
    ensures Inv(sb, WithAddr(fs, i, k, b), own[b := Slot(i, k)], {}, {}, i)
    ensures SlotFilled(fs, WithAddr(fs, i, k, b), Slot(i, k), b)
  {
    hide Addr, InUse, DinodeAt, OwnOk, SlotFilled, Zeros;
    assert b in {b};
    AddrFills(sb, fs, i, k, b);
    OwnGrows(sb, fs, WithAddr(fs, i, k, b), own, Slot(i, k), b);
    assert own[b := Slot(i, k)].Keys + {} == own.Keys + {b};
  }

  /** bmap() puts a fresh block in an entry of the indirect block. */
  function WithEntry(fs: Fs, i: nat, j: nat, b: nat): Fs
    requires i < |fs.inode| && |fs.inode[i].addrs| == NDIRECT + 1
    requires fs.inode[i].addrs[PTR] < |fs.disk| && |fs.disk[fs.inode[i].addrs[PTR]]| == BSIZE
    requires j < NINDIRECT && b < UINT
  {
    var p := fs.inode[i].addrs[PTR];
    fs.(disk := fs.disk[p := PutWord(fs.disk[p], j, b)])
  }

  lemma EntryFills(sb: Super, fs: Fs, own: map<nat, Slot>, i: nat, j: nat, b: nat)
    requires Shaped(sb, fs) && OwnOk(sb, fs, own, {}) && i < sb.ninodes && j < NINDIRECT
    requires fs.inode[i].addrs[PTR] != 0 && Addr(fs, Slot(i, PTR + 1 + j)) == 0
    requires b < UINT
    ensures fs.inode[i].addrs[PTR] < sb.size
    ensures SlotFilled(fs, WithEntry(fs, i, j, b), Slot(i, PTR + 1 + j), b)
    ensures Shaped(sb, WithEntry(fs, i, j, b))
  {
    hide Word, PutWord;
    PointerTarget(sb, fs, own, {}, i);
    var p, fs' := fs.inode[i].addrs[PTR], WithEntry(fs, i, j, b);
    forall s
      ensures Addr(fs', s) == if s == Slot(i, PTR + 1 + j) then b else Addr(fs, s)
    {
      if s.inum < sb.ninodes && PTR < s.k < NSLOT && fs.inode[s.inum].addrs[PTR] != 0 {
        PointerTarget(sb, fs, own, {}, s.inum);
        if s.inum == i {
          WordPut(fs.disk[p], j, b, s.k - PTR - 1);
        }
      }
    }
  }

  lemma EntryAssigned(sb: Super, fs: Fs, own: map<nat, Slot>, dirty: int, i: nat, j: nat, b: nat)
    requires Inv(sb, fs, own, {b}, {}, dirty) && i < sb.ninodes && j < NINDIRECT
    requires fs.inode[i].addrs[PTR] != 0 && Addr(fs, Slot(i, PTR + 1 + j)) == 0
    ensures 0 < b < UINT && sb.datastart <= fs.inode[i].addrs[PTR] < sb.size
    ensures Inv(sb, WithEntry(fs, i, j, b), own[b := Slot(i, PTR + 1 + j)], {}, {}, dirty)
    ensures SlotFilled(fs, WithEntry(fs, i, j, b), Slot(i, PTR + 1 + j), b)
  {
    hide Addr, InUse, DinodeAt, OwnOk, SlotFilled, Zeros;
    assert b in {b};
    EntryFills(sb, fs, own, i, j, b);
    PointerTarget(sb, fs, own, {}, i);
    var p := fs.inode[i].addrs[PTR];
    OwnGrows(sb, fs, WithEntry(fs, i, j, b), own, Slot(i, PTR + 1 + j), b);
    DataWriteKeepsBits(sb, fs.disk, own.Keys + {b}, p, PutWord(fs.disk[p], j, b));
    SyncFrame(sb, fs, dirty, p, PutWord(fs.disk[p], j, b));
    assert own[b := Slot(i, PTR + 1 + j)].Keys + {} == own.Keys + {b};
  }

  /** Writing file data moves no block. */
  lemma DataWritten(sb: Super, fs: Fs, own: map<nat, Slot>, dirty: int, b: nat, block: Block)
    requires Inv(sb, fs, own, {}, {}, dirty) && b in own && own[b].k != PTR && |block| == BSIZE
    ensures b < sb.size
    ensures Inv(sb, fs.(disk := fs.disk[b := block]), own, {}, {}, dirty)
    ensures SameSlots(fs, fs.(disk := fs.disk[b := block]))
  {
    hide Addr, Bit, DinodeAt, OwnOk, SameSlots;
    OwnedRange(sb, fs, own, {});
    PlainWrite(sb, fs, own, {}, b, block);
    DataWriteKeepsBits(sb, fs.disk, own.Keys + {}, b, block);
    SyncFrame(sb, fs, dirty, b, block);
  }

  /** iupdate(): the inode in memory goes to its place in its inode block. */
  function WithDinode(sb: Super, fs: Fs, i: nat): Fs
    requires Shaped(sb, fs) && i < sb.ninodes
  {
    var m := sb.IBlock(i);
    fs.(disk := fs.disk[m := PutDinode(fs.disk[m], i % IPB, fs.inode[i])])
  }

  lemma WrittenBack(sb: Super, fs: Fs, own: map<nat, Slot>, skip: set<Slot>, dirty: int, i: nat)
    requires Inv(sb, fs, own, {}, skip, dirty) && i < sb.ninodes && (dirty == NONE || dirty == i)
    ensures Inv(sb, WithDinode(sb, fs, i), own, {}, skip, NONE)
    ensures SameSlots(fs, WithDinode(sb, fs, i))
  {
    hide Addr, Bit, DinodeAt, PutDinode, OwnOk, SameSlots;
    var m := sb.IBlock(i);
    var block := PutDinode(fs.disk[m], i % IPB, fs.inode[i]);
    PlainWrite(sb, fs, own, skip, m, block);
    DataWriteKeepsBits(sb, fs.disk, own.Keys + {}, m, block);
    forall j: nat | j < sb.ninodes
      ensures DinodeAt(WithDinode(sb, fs, i).disk[sb.IBlock(j)], j % IPB) == fs.inode[j]
    {
      if sb.IBlock(j) == m {
        DinodePut(fs.disk[m], i % IPB, fs.inode[i], j % IPB);
      }
    }
  }

  /** bfree() of the block in slot s, which is to be cleared later. */
  function WithoutBlock(sb: Super, fs: Fs, b: nat): Fs
    requires Shaped(sb, fs) && b < sb.size
  {
    var m := sb.BBlock(b);
    fs.(disk := fs.disk[m := ClearBit(fs.disk[m], b % BPB)])
  }

  lemma Freed(sb: Super, fs: Fs, own: map<nat, Slot>, skip: set<Slot>, dirty: int, s: Slot)
    requires Inv(sb, fs, own, {}, skip, dirty) && Addr(fs, s) != 0 && s !in skip
    ensures Addr(fs, s) in own && sb.datastart <= Addr(fs, s) < sb.size
    ensures InUse(sb, fs.disk, Addr(fs, s))
    ensures Inv(sb, WithoutBlock(sb, fs, Addr(fs, s)), own - {Addr(fs, s)}, {}, skip + {s}, dirty)
    ensures SameSlots(fs, WithoutBlock(sb, fs, Addr(fs, s)))
  {
    hide Addr, InUse, ClearBit, DinodeAt, OwnOk, SameSlots;
    var b := Addr(fs, s);
    SlotOwned(sb, fs, own, skip, s);
    var m := sb.BBlock(b);
    var block := ClearBit(fs.disk[m], b % BPB);
    PlainWrite(sb, fs, own, skip, m, block);
    BitCleared(sb, fs.disk, own.Keys + {}, b);
    SyncFrame(sb, fs, dirty, m, block);
    OwnShrinks(sb, WithoutBlock(sb, fs, b), own, skip, s, b);
    assert (own - {b}).Keys + {} == own.Keys + {} - {b};
  }

  lemma SlotOwned(sb: Super, fs: Fs, own: map<nat, Slot>, skip: set<Slot>, s: Slot)
    requires OwnOk(sb, fs, own, skip) && Addr(fs, s) != 0 && s !in skip
    ensures Addr(fs, s) in own && own[Addr(fs, s)] == s && sb.datastart <= Addr(fs, s) < sb.size
  {
  }

  lemma OwnShrinks(sb: Super, fs: Fs, own: map<nat, Slot>, skip: set<Slot>, s: Slot, b: nat)
    requires OwnOk(sb, fs, own, skip) && b in own && own[b] == s
    ensures OwnOk(sb, fs, own - {b}, skip + {s})
  {
    hide Addr;
  }

  /** Once the skipped slots are empty nothing needs to be skipped. */
  lemma OwnUnskip(sb: Super, fs: Fs, fs': Fs, own: map<nat, Slot>, skip: set<Slot>)
    requires OwnOk(sb, fs, own, skip)
    requires forall s :: Addr(fs', s) == Addr(fs, s) || (Addr(fs', s) == 0 && s in skip)
    requires forall s :: s in skip ==> Addr(fs', s) == 0
    ensures OwnOk(sb, fs', own, {})
  {
    hide Addr;
  }

  lemma AddrSlots(fs: Fs, i: nat, k: nat)
    requires i < |fs.inode| && |fs.inode[i].addrs| == NDIRECT + 1 && k <= PTR
    ensures forall s :: Addr(WithAddr(fs, i, k, 0), s) ==
              if s == Slot(i, k) || (k == PTR && s.inum == i && s.k > PTR) then 0 else Addr(fs, s)
  {
    hide Word;
  }

  lemma ClearedInv(sb: Super, fs: Fs, own: map<nat, Slot>, skip: set<Slot>, dirty: int, i: nat, k: nat)
    requires Inv(sb, fs, own, {}, skip, dirty) && (dirty == NONE || dirty == i)
    requires i < sb.ninodes && k <= PTR && OwnOk(sb, WithAddr(fs, i, k, 0), own, {})
    ensures Inv(sb, WithAddr(fs, i, k, 0), own, {}, {}, i)
  {
    hide Bit, DinodeAt, OwnOk;
  }

  /** itrunc() clears a direct address whose block has just been freed. */
  lemma AddrCleared(sb: Super, fs: Fs, own: map<nat, Slot>, dirty: int, i: nat, k: nat)
    requires Inv(sb, fs, own, {}, {Slot(i, k)}, dirty) && (dirty == NONE || dirty == i)
    requires i < sb.ninodes && k < PTR
    ensures Inv(sb, WithAddr(fs, i, k, 0), own, {}, {}, i)
    ensures forall s :: Addr(WithAddr(fs, i, k, 0), s) == if s == Slot(i, k) then 0 else Addr(fs, s)
  {
    AddrSlots(fs, i, k);
    hide Addr, BitsOk, Synced, Shaped, OwnOk;
    OwnUnskip(sb, fs, WithAddr(fs, i, k, 0), own, {Slot(i, k)});
    ClearedInv(sb, fs, own, {Slot(i, k)}, dirty, i, k);
  }

  /** Every entry of inode i that still holds a block is in `skip`, and `skip`
      holds only slots of inode i from the indirect pointer on. */
  ghost predicate IndirectFreed(fs: Fs, i: nat, skip: set<Slot>) {
    && Slot(i, PTR) in skip
    && (forall s :: s in skip ==> s.inum == i && s.k >= PTR)
    && (forall s: Slot :: s.inum == i && s.k > PTR && Addr(fs, s) != 0 ==> s in skip)
  }

  /** itrunc() clears the indirect pointer after freeing all it led to. */
  lemma PointerCleared(sb: Super, fs: Fs, own: map<nat, Slot>, skip: set<Slot>, dirty: int, i: nat)
    requires Inv(sb, fs, own, {}, skip, dirty) && (dirty == NONE || dirty == i)
    requires i < sb.ninodes && IndirectFreed(fs, i, skip)
    ensures Inv(sb, WithAddr(fs, i, PTR, 0), own, {}, {}, i)
    ensures forall s :: Addr(WithAddr(fs, i, PTR, 0), s) == if s.inum == i && s.k >= PTR then 0 else Addr(fs, s)
  {
    AddrSlots(fs, i, PTR);
    hide Addr, BitsOk, Synced, OwnOk;
    OwnUnskip(sb, fs, WithAddr(fs, i, PTR, 0), own, skip);
    ClearedInv(sb, fs, own, skip, dirty, i, PTR);
  }
}
