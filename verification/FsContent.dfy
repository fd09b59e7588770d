/** What the files contain, as bytes, and how the elementary updates change it. */
module FsContent {
  import opened FsCodec
  import opened FsOwnership

  /** The slot for the bn-th block of a file. */
  function DataSlot(i: nat, bn: nat): Slot {
    Slot(i, if bn < NDIRECT then bn else bn + 1)
  }

  /** Byte o of file i; a block that is not there reads as zeros. */
  function ByteAt(fs: Fs, i: nat, o: nat): byte {
    var a := Addr(fs, DataSlot(i, o / BSIZE));
    if 0 < a < |fs.disk| && |fs.disk[a]| == BSIZE then fs.disk[a][o % BSIZE] else 0
  }

  /** The contents of file i. */
  function Content(fs: Fs, i: nat): (c: seq<byte>)
    requires i < |fs.inode|
    ensures |c| == fs.inode[i].size && forall o :: 0 <= o < |c| ==> c[o] == ByteAt(fs, i, o)
  {
    seq(fs.inode[i].size, o requires 0 <= o => ByteAt(fs, i, o))
  }

  /** Every block below the given size is there. */
  ghost predicate Mapped(fs: Fs, i: nat, size: nat) {
    forall bn: nat :: bn * BSIZE < size ==> Addr(fs, DataSlot(i, bn)) != 0
  }

  ghost predicate HoleFree(fs: Fs, i: nat)
    requires i < |fs.inode|
  {
    Mapped(fs, i, fs.inode[i].size)
  }

  ghost predicate SameBytes(fs: Fs, fs': Fs) {
    forall i: nat, o: nat :: ByteAt(fs', i, o) == ByteAt(fs, i, o)
  }

  /** Blocks that hold file data are the same. */
  ghost predicate SameData(fs: Fs, fs': Fs, own: map<nat, Slot>) {
    && |fs.disk| == |fs'.disk|
    && forall b :: b in own && b < |fs.disk| && own[b].k != PTR ==> fs'.disk[b] == fs.disk[b]
  }

  /** The block in a data slot is owned by it. */
  lemma DataOwned(sb: Super, fs: Fs, own: map<nat, Slot>, skip: set<Slot>, i: nat, bn: nat)
    requires OwnOk(sb, fs, own, skip) && Addr(fs, DataSlot(i, bn)) != 0 && DataSlot(i, bn) !in skip
    ensures var a := Addr(fs, DataSlot(i, bn));
      a in own && own[a] == DataSlot(i, bn) && own[a].k != PTR && sb.datastart <= a < sb.size
  {
    SlotOwned(sb, fs, own, skip, DataSlot(i, bn));
  }

  lemma SlotsGiveBytes(sb: Super, fs: Fs, fs': Fs, own: map<nat, Slot>)
    requires OwnOk(sb, fs, own, {}) && SameSlots(fs, fs') && SameData(fs, fs', own)
    ensures SameBytes(fs, fs')
  {
    hide Addr, OwnOk;
    forall i: nat, o: nat
      ensures ByteAt(fs', i, o) == ByteAt(fs, i, o)
    {
      if Addr(fs, DataSlot(i, o / BSIZE)) != 0 {
        DataOwned(sb, fs, own, {}, i, o / BSIZE);
      }
    }
  }

  /** Filling a slot with a zeroed block changes no byte: where the block was
      missing the file read as zeros already. */
  lemma FillGivesBytes(sb: Super, fs: Fs, fs': Fs, own: map<nat, Slot>, slot: Slot, b: nat)
    requires OwnOk(sb, fs, own, {}) && SlotFilled(fs, fs', slot, b) && SameData(fs, fs', own)
    requires b < |fs'.disk| && fs'.disk[b] == Zeros()
    ensures SameBytes(fs, fs')
  {
    hide Addr, OwnOk;
    forall i: nat, o: nat
      ensures ByteAt(fs', i, o) == ByteAt(fs, i, o)
    {
      if Addr(fs, DataSlot(i, o / BSIZE)) != 0 {
        DataOwned(sb, fs, own, {}, i, o / BSIZE);
      }
    }
  }

  lemma SameBytesTransitive(a: Fs, b: Fs, c: Fs)
    requires SameBytes(a, b) && SameBytes(b, c)
    ensures SameBytes(a, c)
  {
    hide ByteAt;
  }

  /** Writing block bn of file i changes the bytes of that block only. */
  lemma DataWriteBytes(sb: Super, fs: Fs, own: map<nat, Slot>, i: nat, bn: nat, block: Block)
    requires Shaped(sb, fs) && OwnOk(sb, fs, own, {}) && |block| == BSIZE
    requires Addr(fs, DataSlot(i, bn)) != 0
    requires Addr(fs, DataSlot(i, bn)) < sb.size
    requires SameSlots(fs, fs.(disk := fs.disk[Addr(fs, DataSlot(i, bn)) := block]))
    ensures forall j: nat, o: nat ::
      ByteAt(fs.(disk := fs.disk[Addr(fs, DataSlot(i, bn)) := block]), j, o) ==
        if j == i && o / BSIZE == bn then block[o % BSIZE] else ByteAt(fs, j, o)
  {
    hide Addr, OwnOk;
    var a := Addr(fs, DataSlot(i, bn));
    var fs' := fs.(disk := fs.disk[a := block]);
    DataOwned(sb, fs, own, {}, i, bn);
    forall j: nat, o: nat
      ensures ByteAt(fs', j, o) == if j == i && o / BSIZE == bn then block[o % BSIZE] else ByteAt(fs, j, o)
    {
      if Addr(fs, DataSlot(j, o / BSIZE)) != 0 {
        DataOwned(sb, fs, own, {}, j, o / BSIZE);
      }
    }
  }

  // ---------------------------------------------------------------- growth

  /** Inode i may gain blocks; nothing else changes, and no byte of any file does. */
  ghost predicate Grow(fs: Fs, own: map<nat, Slot>, fs': Fs, own': map<nat, Slot>, i: nat) {
    && OnlyAddrs(fs, fs', i)
    && (forall b :: b in own ==> b in own' && own'[b] == own[b])
    && (forall s :: Addr(fs, s) != 0 ==> Addr(fs', s) == Addr(fs, s))
    && SameBytes(fs, fs')
  }

  /** Of the inodes only the addresses of inode i differ. */
  ghost predicate OnlyAddrs(fs: Fs, fs': Fs, i: nat) {
    && |fs'.inode| == |fs.inode|
    && forall j :: 0 <= j < |fs.inode| ==>
         if j == i then fs'.inode[i].(addrs := fs.inode[i].addrs) == fs.inode[i] else fs'.inode[j] == fs.inode[j]
  }

  lemma GrowRefl(fs: Fs, own: map<nat, Slot>, i: nat)
    ensures Grow(fs, own, fs, own, i)
  {
    hide Addr, ByteAt;
  }

  lemma GrowTransitive(a: Fs, oa: map<nat, Slot>, b: Fs, ob: map<nat, Slot>, c: Fs, oc: map<nat, Slot>, i: nat)
    requires Grow(a, oa, b, ob, i) && Grow(b, ob, c, oc, i)
    ensures Grow(a, oa, c, oc, i)
  {
    hide Addr, ByteAt;
  }

  /** An inode that is not written back yet may be considered dirty. */
  lemma Dirtied(sb: Super, fs: Fs, own: map<nat, Slot>, dirty: int, i: nat)
    requires Inv(sb, fs, own, {}, {}, dirty) && (dirty == NONE || dirty == i)
    ensures Inv(sb, fs, own, {}, {}, i)
  {
    hide Addr, OwnOk, BitsOk, DinodeAt;
  }

  lemma SlotFilledGrows(fs: Fs, fs': Fs, slot: Slot, b: nat)
    requires SlotFilled(fs, fs', slot, b)
    ensures Addr(fs', slot) == b && forall s :: Addr(fs, s) != 0 ==> Addr(fs', s) == Addr(fs, s)
  {
    hide Addr;
  }

  /** balloc() and then a direct address or the indirect pointer. */
  lemma GrowAddr(sb: Super, fs: Fs, own: map<nat, Slot>, dirty: int, i: nat, k: nat, b: nat)
    requires Inv(sb, fs, own, {}, {}, dirty) && (dirty == NONE || dirty == i)
    requires i < sb.ninodes && k <= PTR && fs.inode[i].addrs[k] == 0
    requires b < sb.size && !InUse(sb, fs.disk, b)
    ensures b != 0 && b !in own
    ensures var fs' := WithAddr(WithBlock(sb, fs, b), i, k, b);
      && Inv(sb, fs', own[b := Slot(i, k)], {}, {}, i)
      && Grow(fs, own, fs', own[b := Slot(i, k)], i)
      && SlotFilled(fs, fs', Slot(i, k), b) && Addr(fs', Slot(i, k)) == b
  {
    hide Addr, OwnOk, BitsOk, Synced, Zeros, InUse, SetBit, SlotFilled, SameBytes;
    var mid, slot := WithBlock(sb, fs, b), Slot(i, k);
    var fs' := WithAddr(mid, i, k, b);
    Allocated(sb, fs, own, dirty, b);
    AddrAssigned(sb, mid, own, dirty, i, k, b);
    assert b in {b};
    FilledAfterSame(fs, mid, fs', slot, b);
    SlotFilledGrows(fs, fs', slot, b);
    FillGivesBytes(sb, fs, fs', own, slot, b);
  }

  lemma FilledAfterSame(fs: Fs, mid: Fs, fs': Fs, slot: Slot, b: nat)
    requires SameSlots(fs, mid) && SlotFilled(mid, fs', slot, b)
    ensures SlotFilled(fs, fs', slot, b)
  {
    hide Addr;
  }

  lemma EntryFacts(sb: Super, fs: Fs, own: map<nat, Slot>, dirty: int, i: nat, j: nat)
    requires Inv(sb, fs, own, {}, {}, dirty) && i < sb.ninodes && j < NINDIRECT && fs.inode[i].addrs[PTR] != 0
    ensures |fs.inode[i].addrs| == NDIRECT + 1
    ensures var p := fs.inode[i].addrs[PTR];
      && p < |fs.disk| == sb.size && |fs.disk[p]| == BSIZE
      && Addr(fs, Slot(i, PTR + 1 + j)) == Word(fs.disk[p], j)
  {
    PointerTarget(sb, fs, own, {}, i);
    hide Word, OwnOk, BitsOk, Synced;
  }

  lemma EntryData(fs: Fs, mid: Fs, own: map<nat, Slot>, i: nat, j: nat, b: nat)
    requires i < |mid.inode| && |mid.inode[i].addrs| == NDIRECT + 1 && j < NINDIRECT && b < UINT
    requires mid.inode[i].addrs[PTR] in own && own[mid.inode[i].addrs[PTR]].k == PTR && b !in own
    requires mid.inode[i].addrs[PTR] < |mid.disk| == |fs.disk| && |mid.disk[mid.inode[i].addrs[PTR]]| == BSIZE
    requires b < |mid.disk| && mid.disk[b] == Zeros()
    requires forall c :: c in own && c < |fs.disk| ==> mid.disk[c] == fs.disk[c]
    ensures SameData(fs, WithEntry(mid, i, j, b), own)
    ensures WithEntry(mid, i, j, b).disk[b] == Zeros()
  {
    hide PutWord, Zeros;
  }

  /** balloc() and then an entry of the indirect block. */
  lemma GrowEntry(sb: Super, fs: Fs, own: map<nat, Slot>, dirty: int, i: nat, j: nat, b: nat)
    requires Inv(sb, fs, own, {}, {}, dirty)
    requires i < sb.ninodes && j < NINDIRECT && fs.inode[i].addrs[PTR] != 0 && Addr(fs, Slot(i, PTR + 1 + j)) == 0
    requires b < sb.size && !InUse(sb, fs.disk, b)
    ensures b != 0 && b !in own && b < UINT
    ensures var p, mid := fs.inode[i].addrs[PTR], WithBlock(sb, fs, b);
      p < sb.size == |mid.disk| && |mid.disk[p]| == BSIZE && mid.inode == fs.inode
    ensures var fs' := WithEntry(WithBlock(sb, fs, b), i, j, b);
      && Inv(sb, fs', own[b := Slot(i, PTR + 1 + j)], {}, {}, dirty)
      && Grow(fs, own, fs', own[b := Slot(i, PTR + 1 + j)], i)
      && SlotFilled(fs, fs', Slot(i, PTR + 1 + j), b) && Addr(fs', Slot(i, PTR + 1 + j)) == b
  {
    hide Addr, OwnOk, BitsOk, Synced, Zeros, InUse, SetBit, PutWord, SlotFilled, SameData, SameBytes;
    var mid, slot := WithBlock(sb, fs, b), Slot(i, PTR + 1 + j);
    Allocated(sb, fs, own, dirty, b);
    PointerTarget(sb, fs, own, {}, i);
    EntryAssigned(sb, mid, own, dirty, i, j, b);
    var fs' := WithEntry(mid, i, j, b);
    assert b in {b};
    EntryData(fs, mid, own, i, j, b);
    FilledAfterSame(fs, mid, fs', slot, b);
    SlotFilledGrows(fs, fs', slot, b);
    FillGivesBytes(sb, fs, fs', own, slot, b);
  }

  // ------------------------------------------------- what bmap() does and logs

  /** Slot `slot` gets a block unless it has one or none is left; `extra` is what
      that logs besides the block and its bit. */
  ghost predicate Filled(sb: Super, fs: Fs, own: map<nat, Slot>, log: set<nat>,
                         fs': Fs, own': map<nat, Slot>, log': set<nat>, slot: Slot, extra: set<nat>) {
    var addr := Addr(fs', slot);
    if addr == 0 || Addr(fs, slot) != 0 then fs' == fs && own' == own && log' == log
    else SlotFilled(fs, fs', slot, addr) && log' == log + {sb.BBlock(addr), addr} + extra
  }

  /** The blocks that bmap() logs when the file block goes from a0 to a and the
      indirect pointer from p0 to p. */
  function FillLog(sb: Super, a0: nat, a: nat, p0: nat, p: nat, indirect: bool): set<nat> {
    (if a0 != a then {a, sb.BBlock(a)} else {}) + (if p0 != p then {p, sb.BBlock(p)} else {}) +
    (if a0 != a && indirect then {p} else {})
  }

  function BmapLog(sb: Super, fs: Fs, fs': Fs, i: nat, bn: nat): set<nat> {
    FillLog(sb, Addr(fs, DataSlot(i, bn)), Addr(fs', DataSlot(i, bn)),
            Addr(fs, Slot(i, PTR)), Addr(fs', Slot(i, PTR)), bn >= NDIRECT)
  }

  lemma BmapDirect(sb: Super, fs: Fs, own: map<nat, Slot>, log: set<nat>, fs': Fs, own': map<nat, Slot>, log': set<nat>,
                   i: nat, bn: nat)
    requires bn < NDIRECT && Filled(sb, fs, own, log, fs', own', log', DataSlot(i, bn), {})
    ensures log' == log + BmapLog(sb, fs, fs', i, bn)
  {
    hide Addr;
  }

  lemma BmapIndirect(sb: Super, a: Fs, oa: map<nat, Slot>, la: set<nat>, b: Fs, ob: map<nat, Slot>, lb: set<nat>,
                     c: Fs, oc: map<nat, Slot>, lc: set<nat>, i: nat, bn: nat)
    requires bn >= NDIRECT && Filled(sb, a, oa, la, b, ob, lb, Slot(i, PTR), {})
    requires Addr(b, Slot(i, PTR)) != 0 && Filled(sb, b, ob, lb, c, oc, lc, DataSlot(i, bn), {Addr(b, Slot(i, PTR))})
    ensures lc == la + BmapLog(sb, a, c, i, bn)
    ensures Addr(a, Slot(i, PTR)) != 0 && Addr(a, DataSlot(i, bn)) != 0 ==> c == a && oc == oa && lc == la
  {
    hide Addr;
  }

  /** An inode without an indirect block has no blocks beyond the direct ones. */
  lemma NoPointer(fs: Fs, i: nat, bn: nat)
    requires bn >= NDIRECT && Addr(fs, DataSlot(i, bn)) != 0
    ensures Addr(fs, Slot(i, PTR)) != 0
  {
  }

  lemma FilledKeeps(sb: Super, fs: Fs, own: map<nat, Slot>, log: set<nat>, fs': Fs, own': map<nat, Slot>, log': set<nat>,
                    slot: Slot, extra: set<nat>)
    requires Filled(sb, fs, own, log, fs', own', log', slot, extra)
    ensures Addr(fs, slot) != 0 ==> fs' == fs && own' == own && log' == log
  {
    hide Addr;
  }

  /** No indirect block and none to be had: nothing happens. */
  lemma BmapNone(sb: Super, fs: Fs, own: map<nat, Slot>, log: set<nat>, fs': Fs, own': map<nat, Slot>, log': set<nat>,
                 i: nat, bn: nat)
    requires bn >= NDIRECT && Filled(sb, fs, own, log, fs', own', log', Slot(i, PTR), {}) && Addr(fs', Slot(i, PTR)) == 0
    ensures fs' == fs && own' == own && log' == log
    ensures Addr(fs', DataSlot(i, bn)) == 0 && log' == log + BmapLog(sb, fs, fs', i, bn)
  {
    if Addr(fs', DataSlot(i, bn)) != 0 {
      NoPointer(fs', i, bn);
    }
  }

  // ------------------------------------------------------------------ reads

  /** data is what file i holds from offset off on. */
  ghost predicate ReadsAs(fs: Fs, i: nat, off: nat, data: seq<byte>) {
    forall x :: 0 <= x < |data| ==> data[x] == ByteAt(fs, i, off + x)
  }

  lemma ReadsEmpty(fs: Fs, i: nat, off: nat)
    ensures ReadsAs(fs, i, off, [])
  {
  }

  lemma ReadStep(fs0: Fs, own0: map<nat, Slot>, fs: Fs, own: map<nat, Slot>, i: nat, off: nat, data: seq<byte>, m: nat)
    requires Grow(fs0, own0, fs, own, i) && ReadsAs(fs0, i, off, data)
    requires m <= BSIZE - (off + |data|) % BSIZE
    requires var a := Addr(fs, DataSlot(i, (off + |data|) / BSIZE)); 0 < a < |fs.disk| && |fs.disk[a]| == BSIZE
    ensures var cur := off + |data|;
      var block := fs.disk[Addr(fs, DataSlot(i, cur / BSIZE))];
      ReadsAs(fs0, i, off, data + block[cur % BSIZE..cur % BSIZE + m])
  {
    hide Addr;
    var cur := off + |data|;
    var a := Addr(fs, DataSlot(i, cur / BSIZE));
    forall y: nat | cur <= y < cur + m
      ensures ByteAt(fs0, i, y) == fs.disk[a][cur % BSIZE + (y - cur)]
    {
      assert y / BSIZE == cur / BSIZE && y % BSIZE == cur % BSIZE + (y - cur);
      assert ByteAt(fs, i, y) == ByteAt(fs0, i, y);
    }
  }

  lemma ReadIsSlice(fs: Fs, i: nat, off: nat, data: seq<byte>)
    requires i < |fs.inode| && ReadsAs(fs, i, off, data) && off + |data| <= fs.inode[i].size
    ensures data == Content(fs, i)[off..off + |data|]
  {
    hide ByteAt;
  }

  lemma HasBlock(fs: Fs, i: nat, o: nat)
    requires i < |fs.inode| && HoleFree(fs, i) && o < fs.inode[i].size
    ensures Addr(fs, DataSlot(i, o / BSIZE)) != 0
  {
    hide Addr;
    assert o / BSIZE * BSIZE <= o;
  }

  lemma BlockThere(sb: Super, fs: Fs, own: map<nat, Slot>, dirty: int, i: nat, bn: nat)
    requires Inv(sb, fs, own, {}, {}, dirty) && Addr(fs, DataSlot(i, bn)) != 0
    ensures 0 < Addr(fs, DataSlot(i, bn)) < |fs.disk| && |fs.disk[Addr(fs, DataSlot(i, bn))]| == BSIZE
  {
    hide Addr, OwnOk, BitsOk, Synced;
    DataOwned(sb, fs, own, {}, i, bn);
  }
}
