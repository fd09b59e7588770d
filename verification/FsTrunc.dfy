/** itrunc(), as values: how far it has got and what it leaves alone. */
module FsTrunc {
  import opened FsCodec
  import opened FsOwnership
  import opened FsContent
  import opened FsWrite

  /** Only inode i and metadata blocks differ. */
  ghost predicate OthersKept(sb: Super, fs0: Fs, fs: Fs, i: nat) {
    && |fs.disk| == |fs0.disk| == sb.size && |fs.inode| == |fs0.inode| == sb.ninodes
    && (forall j :: 0 <= j < |fs0.inode| && j != i ==> fs.inode[j] == fs0.inode[j])
    && (forall s: Slot :: s.inum != i ==> Addr(fs, s) == Addr(fs0, s))
    && (forall b :: sb.datastart <= b < sb.size ==> fs.disk[b] == fs0.disk[b])
  }

  /** The slots of inode i below k are empty, the others as they were. */
  ghost predicate Truncated(sb: Super, fs0: Fs, fs: Fs, i: nat, k: nat) {
    && OthersKept(sb, fs0, fs, i)
    && (i < |fs0.inode| ==> fs.inode[i].(addrs := fs0.inode[i].addrs) == fs0.inode[i])
    && (forall s: Slot :: s.inum == i ==> Addr(fs, s) == if s.k < k then 0 else Addr(fs0, s))
  }

  lemma TruncStarts(sb: Super, fs: Fs, i: nat)
    requires |fs.disk| == sb.size && |fs.inode| == sb.ninodes
    ensures Truncated(sb, fs, fs, i, 0)
  {
    hide Addr;
  }

  /** A slot that is empty already is passed over. */
  lemma TruncSkips(sb: Super, fs0: Fs, fs: Fs, i: nat, k: nat)
    requires Truncated(sb, fs0, fs, i, k) && Addr(fs, Slot(i, k)) == 0
    ensures Truncated(sb, fs0, fs, i, k + 1)
  {
    hide Addr;
  }

  /** The block of a direct slot is freed and the address cleared. */
  lemma TruncFrees(sb: Super, fs0: Fs, fs: Fs, own: map<nat, Slot>, i: nat, k: nat, dirty: int)
    requires Truncated(sb, fs0, fs, i, k) && Inv(sb, fs, own, {}, {}, dirty) && (dirty == NONE || dirty == i)
    requires i < sb.ninodes && k < PTR && Addr(fs, Slot(i, k)) != 0
    ensures Addr(fs, Slot(i, k)) < sb.size
    ensures var b := Addr(fs, Slot(i, k));
      var fs' := WithAddr(WithoutBlock(sb, fs, b), i, k, 0);
      Inv(sb, fs', own - {b}, {}, {}, i) && Truncated(sb, fs0, fs', i, k + 1)
  {
    hide Addr, OwnOk, BitsOk, Synced, ClearBit, SameSlots;
    var b := Addr(fs, Slot(i, k));
    Freed(sb, fs, own, {}, dirty, Slot(i, k));
    var mid := WithoutBlock(sb, fs, b);
    assert {} + {Slot(i, k)} == {Slot(i, k)};
    AddrCleared(sb, mid, own - {b}, dirty, i, k);
    DirectCleared(sb, fs0, fs, mid, i, k);
  }

  lemma DirectCleared(sb: Super, fs0: Fs, fs: Fs, mid: Fs, i: nat, k: nat)
    requires Truncated(sb, fs0, fs, i, k) && SameSlots(fs, mid) && mid.inode == fs.inode && |mid.disk| == |fs.disk|
    requires forall b :: sb.datastart <= b < sb.size ==> mid.disk[b] == fs.disk[b]
    requires i < sb.ninodes && k < PTR && |mid.inode[i].addrs| == NDIRECT + 1
    requires forall s :: Addr(WithAddr(mid, i, k, 0), s) == if s == Slot(i, k) then 0 else Addr(mid, s)
    ensures Truncated(sb, fs0, WithAddr(mid, i, k, 0), i, k + 1)
  {
    hide Addr;
  }

  // ------------------------------------------------------- the indirect block

  /** The entries below j have had their blocks freed; nothing is cleared yet. */
  ghost predicate Emptying(sb: Super, fs1: Fs, fs: Fs, i: nat, j: nat, skip: set<Slot>) {
    && SameSlots(fs1, fs) && fs.inode == fs1.inode && |fs.disk| == |fs1.disk| == sb.size
    && (forall b :: sb.datastart <= b < sb.size ==> fs.disk[b] == fs1.disk[b])
    && (forall s :: s in skip ==> s.inum == i && s.k > PTR)
    && (forall s: Slot :: s.inum == i && PTR < s.k < PTR + 1 + j && Addr(fs1, s) != 0 ==> s in skip)
    && (forall s :: s in skip ==> s.k < PTR + 1 + j)
  }

  lemma EmptyingStarts(sb: Super, fs: Fs, i: nat)
    requires |fs.disk| == sb.size
    ensures Emptying(sb, fs, fs, i, 0, {})
  {
    hide Addr;
  }

  lemma EmptyingSkips(sb: Super, fs1: Fs, fs: Fs, i: nat, j: nat, skip: set<Slot>)
    requires Emptying(sb, fs1, fs, i, j, skip) && Addr(fs, Slot(i, PTR + 1 + j)) == 0
    ensures Emptying(sb, fs1, fs, i, j + 1, skip)
  {
    hide Addr;
  }

  lemma EmptyingFrees(sb: Super, fs1: Fs, fs: Fs, fs': Fs, i: nat, j: nat, skip: set<Slot>)
    requires Emptying(sb, fs1, fs, i, j, skip) && SameSlots(fs, fs') && fs'.inode == fs.inode && |fs'.disk| == |fs.disk|
    requires forall b :: sb.datastart <= b < sb.size ==> fs'.disk[b] == fs.disk[b]
    ensures Emptying(sb, fs1, fs', i, j + 1, skip + {Slot(i, PTR + 1 + j)})
  {
    hide Addr;
  }

  /** Entry j, read from the indirect block, is slot PTR + 1 + j. */
  lemma EntryIs(sb: Super, fs: Fs, own: map<nat, Slot>, skip: set<Slot>, dirty: int, i: nat, j: nat)
    requires Inv(sb, fs, own, {}, skip, dirty) && i < sb.ninodes && j < NINDIRECT && fs.inode[i].addrs[PTR] != 0
    ensures var p := fs.inode[i].addrs[PTR];
      p < |fs.disk| && |fs.disk[p]| == BSIZE && Addr(fs, Slot(i, PTR + 1 + j)) == Word(fs.disk[p], j)
  {
    PointerTarget(sb, fs, own, skip, i);
    hide Word, OwnOk, BitsOk, Synced;
  }

  /** All entries freed, the indirect block itself freed and its pointer cleared. */
  lemma TruncPointer(sb: Super, fs0: Fs, fs1: Fs, fs: Fs, fs2: Fs, own: map<nat, Slot>, i: nat, skip: set<Slot>, dirty: int)
    requires Truncated(sb, fs0, fs1, i, PTR) && Emptying(sb, fs1, fs, i, NINDIRECT, skip)
    requires i < sb.ninodes && (dirty == NONE || dirty == i)
    requires Inv(sb, fs2, own, {}, skip + {Slot(i, PTR)}, dirty) && SameSlots(fs, fs2)
    requires fs2.inode == fs.inode && |fs2.disk| == |fs.disk|
    requires forall b :: sb.datastart <= b < sb.size ==> fs2.disk[b] == fs.disk[b]
    ensures var fs' := WithAddr(fs2, i, PTR, 0);
      Inv(sb, fs', own, {}, {}, i) && Truncated(sb, fs0, fs', i, NSLOT)
  {
    hide Addr, OwnOk, BitsOk, Synced;
    forall s: Slot | s.inum == i && s.k > PTR && Addr(fs2, s) != 0
      ensures s in skip + {Slot(i, PTR)}
    {
      NoSlotBeyond(fs2, s);
    }
    PointerCleared(sb, fs2, own, skip + {Slot(i, PTR)}, dirty, i);
  }

  lemma NoSlotBeyond(fs: Fs, s: Slot)
    requires Addr(fs, s) != 0
    ensures s.k < NSLOT
  {
  }

  /** Without an indirect block there is nothing beyond the direct addresses. */
  lemma TruncNoPointer(sb: Super, fs0: Fs, fs: Fs, i: nat)
    requires Truncated(sb, fs0, fs, i, PTR) && i < sb.ninodes && |fs.inode[i].addrs| == NDIRECT + 1 && fs.inode[i].addrs[PTR] == 0
    ensures Truncated(sb, fs0, fs, i, NSLOT)
  {
    hide Word;
    forall s: Slot | s.inum == i && s.k >= PTR
      ensures Addr(fs, s) == 0
    {
    }
  }

  // ------------------------------------------------------------ what remains

  /** Inode i owns nothing any more, and every other block has its old owner. */
  lemma AllReleased(sb: Super, fs0: Fs, own0: map<nat, Slot>, fs: Fs, own: map<nat, Slot>, i: nat, b: nat)
    requires sb.Valid() && OwnOk(sb, fs0, own0, {}) && OwnOk(sb, fs, own, {}) && Truncated(sb, fs0, fs, i, NSLOT)
    ensures b in own <==> b in own0 && own0[b].inum != i
    ensures b in own ==> own[b] == own0[b]
  {
    if b in own {
      assert Addr(fs, own[b]) == b;
      NoSlotBeyond(fs, own[b]);
      assert own[b].inum != i;
      assert Addr(fs0, own[b]) == b;
    }
    if b in own0 && own0[b].inum != i {
      assert Addr(fs0, own0[b]) == b;
      assert Addr(fs, own0[b]) == b;
    }
  }

  /** The other files keep their contents. */
  lemma OthersContent(sb: Super, fs0: Fs, fs: Fs, own0: map<nat, Slot>, i: nat, j: nat)
    requires OwnOk(sb, fs0, own0, {}) && OthersKept(sb, fs0, fs, i) && j < sb.ninodes && j != i
    ensures Content(fs, j) == Content(fs0, j)
  {
    hide Addr, OwnOk;
    forall o: nat
      ensures ByteAt(fs, j, o) == ByteAt(fs0, j, o)
    {
      if Addr(fs0, DataSlot(j, o / BSIZE)) != 0 {
        DataOwned(sb, fs0, own0, {}, j, o / BSIZE);
      }
    }
  }

  lemma FreeKeeps(sb: Super, fs: Fs, b: nat)
    requires Shaped(sb, fs) && b < sb.size
    ensures var fs' := WithoutBlock(sb, fs, b);
      && fs'.inode == fs.inode && |fs'.disk| == |fs.disk|
      && forall c :: sb.datastart <= c < sb.size ==> fs'.disk[c] == fs.disk[c]
  {
    hide ClearBit;
  }

  /** The inode that itrunc() leaves, with no blocks and no bytes. */
  lemma TruncFinishes(sb: Super, fs0: Fs, own0: map<nat, Slot>, fs: Fs, own: map<nat, Slot>, i: nat)
    requires Inv(sb, fs0, own0, {}, {}, NONE) && Inv(sb, fs, own, {}, {}, i) && i < sb.ninodes
    requires Truncated(sb, fs0, fs, i, NSLOT)
    ensures var fs' := WithDinode(sb, WithSize(fs, i, 0), i);
      && Shaped(sb, WithSize(fs, i, 0)) && Inv(sb, WithSize(fs, i, 0), own, {}, {}, i)
      && Inv(sb, fs', own, {}, {}, NONE)
      && EmptyFile(sb, fs0, own0, fs', own, i)
  {
    hide Addr, OwnOk, BitsOk, Synced, SameSlots, SameBytes, PutDinode;
    var mid := WithSize(fs, i, 0);
    SizeSet(sb, fs, own, i, 0);
    WrittenBack(sb, mid, own, {}, i, i);
    SameSlotsTransitive(fs, mid, WithDinode(sb, mid, i));
    var fs' := WithDinode(sb, mid, i);
    TruncSettled(sb, fs0, fs, fs', i);
    forall b: nat
      ensures b in own <==> b in own0 && own0[b].inum != i
      ensures b in own ==> own[b] == own0[b]
    {
      AllReleased(sb, fs0, own0, fs, own, i, b);
    }
    forall j | 0 <= j < sb.ninodes && j != i
      ensures Content(fs', j) == Content(fs0, j)
    {
      OthersContent(sb, fs0, fs', own0, i, j);
    }
  }

  lemma TruncSettled(sb: Super, fs0: Fs, fs: Fs, fs': Fs, i: nat)
    requires Truncated(sb, fs0, fs, i, NSLOT) && SameSlots(fs, fs') && i < sb.ninodes && Shaped(sb, fs)
    requires |fs'.disk| == |fs.disk| && fs'.inode == fs.inode[i := fs.inode[i].(size := 0)]
    requires forall b :: sb.datastart <= b < sb.size ==> fs'.disk[b] == fs.disk[b]
    ensures OthersKept(sb, fs0, fs', i)
    ensures fs'.inode[i] == fs0.inode[i].(size := 0, addrs := seq(NDIRECT + 1, k => 0))
  {
    hide Word;
    assert forall k :: 0 <= k <= NDIRECT ==> Addr(fs, Slot(i, k)) == fs.inode[i].addrs[k];
  }

  /** File i is empty and owns nothing; every other file has its contents, its
      inode and its blocks. */
  ghost predicate EmptyFile(sb: Super, fs0: Fs, own0: map<nat, Slot>, fs: Fs, own: map<nat, Slot>, i: nat) {
    && |fs.inode| == |fs0.inode| == sb.ninodes && i < sb.ninodes
    && fs.inode[i] == fs0.inode[i].(size := 0, addrs := seq(NDIRECT + 1, k => 0))
    && (forall j :: 0 <= j < sb.ninodes && j != i ==> fs.inode[j] == fs0.inode[j] && Content(fs, j) == Content(fs0, j))
    && (forall b: nat :: b in own <==> b in own0 && own0[b].inum != i)
    && (forall b: nat :: b in own ==> own[b] == own0[b])
  }
}
