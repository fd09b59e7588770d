/** The memory that exec() builds, page by page: what the program headers ask for,
    and how the steps of exec() bring it about. */
module ExecImage {
  import opened VmState
  import opened VmTree
  import opened VmSpace

  /** A program header and what readi() makes of it: whether it could be read, the
      pages of the file, and the page at which the file ends too early, if any. */
  datatype Segment = Segment(readable: bool, load: bool, vaddr: nat, memsz: nat, filesz: nat, flags: nat,
                             image: seq<Page>, short: nat)
  {
    /** loadseg() takes the file size as a 32-bit number. */
    function LoadSize(): nat {
      filesz % 0x1_0000_0000
    }

    predicate Fits() {
      |image| == PageCount(LoadSize()) && forall i :: 0 <= i < |image| ==> |image[i]| == NPTE
    }

    predicate Covers(v: nat) {
      vaddr / PGSIZE <= v < vaddr / PGSIZE + |image|
    }

    /** The header and the file pass exec()'s own tests. */
    predicate Sane() {
      && readable
      && (load ==> filesz <= memsz && vaddr + memsz < 0x1_0000_0000_0000_0000 && vaddr % PGSIZE == 0
                   && PageCount(LoadSize()) <= short)
    }

    /** What exec() turns down, given the size so far: a segment that ends at 0 too,
        since uvmalloc() then returns 0, which exec() takes for a failure. */
    predicate Bad(sz: nat) {
      !Sane() || (load && vaddr + memsz == 0 && sz == 0)
    }
  }

  /** flags2perm() */
  function FlagsToPerm(flags: nat): nat {
    (if flags % 2 == 1 then PTE_X else 0) + (if flags / 2 % 2 == 1 then PTE_W else 0)
  }

  /** The size of the program after its first n headers. */
  function SizeAfter(segs: seq<Segment>, n: nat): nat
    requires n <= |segs|
  {
    if n == 0 then 0 else
    var sz := SizeAfter(segs, n - 1);
    var end := segs[n - 1].vaddr + segs[n - 1].memsz;
    if segs[n - 1].load && end > sz then end else sz
  }

  /** A mapped page: its permissions and its contents. */
  datatype View = View(flags: nat, page: Page)

  /** Page v of the program after its first n headers: the last segment that covers
      it gives its contents, the first one that reaches it gives its permissions. */
  function Image(segs: seq<Segment>, n: nat, v: nat): View
    requires n <= |segs|
  {
    if n == 0 then View(0, []) else
    var s := segs[n - 1];
    if !s.load then Image(segs, n - 1, v) else
    var was := if v < PageCount(SizeAfter(segs, n - 1)) then Image(segs, n - 1, v)
               else View(PTE_V + PTE_R + PTE_U + FlagsToPerm(s.flags), Filled(0));
    if s.Covers(v) then View(was.flags, s.image[v - s.vaddr / PGSIZE]) else was
  }

  ghost function ViewAt(m: Mem, g: Ledger, sid: nat, v: nat): View {
    var pte := Leaf(m, g, sid, v);
    View(PteFlags(pte), if PtePage(pte) in m.pages then m.pages[PtePage(pte)] else [])
  }

  /** The first k pages of the space are those of the program. */
  ghost predicate Shows(m: Mem, g: Ledger, sid: nat, k: nat, segs: seq<Segment>, n: nat)
    requires n <= |segs|
  {
    forall v: nat :: v < k ==> ViewAt(m, g, sid, v) == Image(segs, n, v)
  }

  ghost predicate SameViews(m: Mem, g: Ledger, m': Mem, g': Ledger, sid: nat, k: nat) {
    forall v: nat :: v < k ==> ViewAt(m', g', sid, v) == ViewAt(m, g, sid, v)
  }

  /** The pages first.. hold those of image, n of them; all others are the same. */
  ghost predicate LoadedOver(m: Mem, g: Ledger, m': Mem, g': Ledger, sid: nat, first: nat, n: nat, image: seq<Page>) {
    && n <= |image|
    && forall v: nat :: v < TRAPFRAME && Leaf(m, g, sid, v) != 0 ==>
         ViewAt(m', g', sid, v) ==
         if first <= v < first + n then View(ViewAt(m, g, sid, v).flags, image[v - first]) else ViewAt(m, g, sid, v)
  }

  /** A sane header is refused exactly if it ends at address 0, and so does every one
      before it that is to be loaded. */
  lemma RefusedIff(segs: seq<Segment>, n: nat)
    requires n < |segs| && segs[n].Sane()
    ensures segs[n].Bad(SizeAfter(segs, n)) <==>
      && segs[n].load && segs[n].vaddr + segs[n].memsz == 0
      && forall i :: 0 <= i < n && segs[i].load ==> segs[i].vaddr + segs[i].memsz == 0
  {
    SizeZero(segs, n);
  }

  /** Such a header: an empty segment at address 0. */
  lemma EmptySegmentRefused()
    ensures var s := Segment(true, true, 0, 0, 0, 0, [], 0); s.Fits() && s.Sane() && s.Bad(0) && !s.Bad(1)
  {
  }

  lemma {:induction false} SizeZero(segs: seq<Segment>, n: nat)
    requires n <= |segs|
    ensures SizeAfter(segs, n) == 0 <==> forall i :: 0 <= i < n && segs[i].load ==> segs[i].vaddr + segs[i].memsz == 0
  {
    if n > 0 {
      SizeZero(segs, n - 1);
    }
  }

  /** The size is where the last segment ends. */
  lemma {:induction false} SizeIs(segs: seq<Segment>, n: nat)
    requires n <= |segs|
    ensures forall i :: 0 <= i < n && segs[i].load ==> segs[i].vaddr + segs[i].memsz <= SizeAfter(segs, n)
    ensures SizeAfter(segs, n) == 0 || exists i :: 0 <= i < n && segs[i].load && segs[i].vaddr + segs[i].memsz == SizeAfter(segs, n)
  {
    if n > 0 {
      SizeIs(segs, n - 1);
    }
  }

  /** i is the first segment that reaches page v. */
  ghost predicate FirstReaching(segs: seq<Segment>, n: nat, i: nat, v: nat)
    requires n <= |segs|
  {
    && i < n && segs[i].load && v * PGSIZE < segs[i].vaddr + segs[i].memsz
    && forall j :: 0 <= j < i && segs[j].load ==> segs[j].vaddr + segs[j].memsz <= v * PGSIZE
  }

  /** i is the last segment whose file covers page v. */
  ghost predicate LastCovering(segs: seq<Segment>, n: nat, i: nat, v: nat)
    requires n <= |segs|
  {
    && i < n && segs[i].load && segs[i].Covers(v)
    && forall j :: i < j < n && segs[j].load ==> !segs[j].Covers(v)
  }

  lemma CountAt(sz: nat, v: nat)
    ensures v < PageCount(sz) <==> v * PGSIZE < sz
  {
  }

  /** The size reaches page v exactly if some segment does. */
  lemma Reached(segs: seq<Segment>, n: nat, v: nat)
    requires n <= |segs|
    ensures v < PageCount(SizeAfter(segs, n)) <==> exists j :: 0 <= j < n && segs[j].load && v * PGSIZE < segs[j].vaddr + segs[j].memsz
  {
    hide PageCount, SizeAfter;
    CountAt(SizeAfter(segs, n), v);
    SizeIs(segs, n);
  }

  /** The permissions of a page are those of the first segment that reaches it. */
  lemma {:induction false} ImageFlags(segs: seq<Segment>, n: nat, i: nat, v: nat)
    requires n <= |segs| && FirstReaching(segs, n, i, v)
    ensures Image(segs, n, v).flags == PTE_V + PTE_R + PTE_U + (if segs[i].flags % 2 == 1 then PTE_X else 0) + (if segs[i].flags / 2 % 2 == 1 then PTE_W else 0)
  {
    hide PageCount, SizeAfter;
    Reached(segs, n - 1, v);
    if i < n - 1 {
      ImageFlags(segs, n - 1, i, v);
    }
  }

  /** The contents of a page are those of the last segment that covers it, or zero. */
  lemma {:induction false} ImagePage(segs: seq<Segment>, n: nat, v: nat)
    requires n <= |segs| && v < PageCount(SizeAfter(segs, n)) && forall j :: 0 <= j < n ==> segs[j].Fits() && segs[j].Sane()
    ensures forall i: nat :: LastCovering(segs, n, i, v) ==> Image(segs, n, v).page == segs[i].image[v - segs[i].vaddr / PGSIZE]
    ensures (forall j :: 0 <= j < n && segs[j].load ==> !segs[j].Covers(v)) ==> Image(segs, n, v).page == Filled(0)
  {
    hide PageCount, Filled;
    CountZero();
    if v < PageCount(SizeAfter(segs, n - 1)) {
      ImagePage(segs, n - 1, v);
    }
    forall i: nat | LastCovering(segs, n, i, v)
      ensures Image(segs, n, v).page == segs[i].image[v - segs[i].vaddr / PGSIZE]
    {
      if i < n - 1 {
        assert LastCovering(segs, n - 1, i, v);
        CoveredReached(segs, n - 1, i, v);
      }
    }
  }

  lemma CountZero()
    ensures PageCount(0) == 0
  {
  }

  /** Some segment is the first to reach a page of the program. */
  lemma {:induction false} SomeFirst(segs: seq<Segment>, n: nat, v: nat)
    requires n <= |segs| && v < PageCount(SizeAfter(segs, n))
    ensures exists i: nat :: FirstReaching(segs, n, i, v)
  {
    hide PageCount, SizeAfter;
    Reached(segs, n, v);
    var k :| 0 <= k < n && segs[k].load && v * PGSIZE < segs[k].vaddr + segs[k].memsz;
    Reached(segs, k, v);
    if v < PageCount(SizeAfter(segs, k)) {
      SomeFirst(segs, k, v);
      var i: nat :| FirstReaching(segs, k, i, v);
      assert FirstReaching(segs, n, i, v);
    } else {
      assert FirstReaching(segs, n, k, v);
    }
  }

  /** The page of a program has contents. */
  lemma {:induction false} PageThere(segs: seq<Segment>, n: nat, v: nat)
    requires n <= |segs| && v < PageCount(SizeAfter(segs, n)) && forall j :: 0 <= j < n ==> segs[j].Fits()
    ensures |Image(segs, n, v).page| == NPTE
  {
    hide PageCount;
    CountZero();
    if v < PageCount(SizeAfter(segs, n - 1)) {
      PageThere(segs, n - 1, v);
    }
  }

  lemma CoveredReached(segs: seq<Segment>, n: nat, i: nat, v: nat)
    requires n <= |segs| && i < n && segs[i].load && segs[i].Covers(v) && segs[i].Fits() && segs[i].Sane()
    ensures v < PageCount(SizeAfter(segs, n))
  {
    hide PageCount, SizeAfter;
    var s := segs[i];
    CountAt(s.LoadSize(), v - s.vaddr / PGSIZE);
    assert v * PGSIZE < s.vaddr + s.memsz;
    Reached(segs, n, v);
  }

  /** What exec() loads into memory of less than 4 GB is never cut to 32 bits. */
  lemma NotCut(segs: seq<Segment>, i: nat, pages: nat)
    requires i < |segs| && segs[i].load && !segs[i].Bad(SizeAfter(segs, i))
    requires PageCount(SizeAfter(segs, |segs|)) < pages <= 0x10_0000
    ensures segs[i].LoadSize() == segs[i].filesz
  {
    hide PageCount, SizeAfter;
    EndsInside(segs, i);
    SizeGrows(segs, i + 1, |segs|);
    SmallFile(segs[i].filesz, SizeAfter(segs, |segs|), pages);
  }

  lemma EndsInside(segs: seq<Segment>, i: nat)
    requires i < |segs| && segs[i].load
    ensures segs[i].vaddr + segs[i].memsz <= SizeAfter(segs, i + 1)
  {
  }

  lemma SmallFile(filesz: nat, size: nat, pages: nat)
    requires filesz <= size && PageCount(size) < pages <= 0x10_0000
    ensures filesz % 0x1_0000_0000 == filesz
  {
    assert size <= PageCount(size) * PGSIZE;
  }

  lemma {:induction false} SizeGrows(segs: seq<Segment>, i: nat, n: nat)
    requires i <= n <= |segs|
    ensures SizeAfter(segs, i) <= SizeAfter(segs, n)
  {
    if i < n {
      SizeGrows(segs, i, n - 1);
    }
  }

  lemma ShowsStill(m: Mem, g: Ledger, m': Mem, g': Ledger, sid: nat, k: nat, k': nat, segs: seq<Segment>, n: nat)
    requires n <= |segs| && Shows(m, g, sid, k, segs, n) && SameViews(m, g, m', g', sid, k') && k <= k'
    ensures Shows(m', g', sid, k, segs, n)
  {
    hide ViewAt, Image;
  }

  lemma MappedPageOwned(m: Mem, g: Ledger, sid: nat, v: nat)
    requires Inv(m, g, {}) && v < TRAPFRAME && Leaf(m, g, sid, v) != 0
    ensures var p := PtePage(Leaf(m, g, sid, v)); p in g.own && g.own[p] == User(sid, v) && p in m.pages
  {
    hide Leaf, FreeOk, TreeOk, TablesOk, PtePage;
    UnmapOwner(m, g, sid, v);
  }

  /** Filling in further pages leaves those below as they are. */
  lemma ViewsFilled(m: Mem, g: Ledger, m': Mem, g': Ledger, sid: nat, k0: nat, k: nat)
    requires Inv(m, g, {}) && UserMapped(m, g, sid, k0) && Filling(m, g, m', g', sid, k0, k)
    ensures SameViews(m, g, m', g', sid, k0)
  {
    hide Inv, Leaf, PtePage, PteFlags;
    forall v: nat | v < k0
      ensures ViewAt(m', g', sid, v) == ViewAt(m, g, sid, v)
    {
      MappedPageOwned(m, g, sid, v);
    }
  }

  lemma ViewZero(m: Mem, g: Ledger, sid: nat, k0: nat, k: nat, flags: nat, v: nat)
    requires ZeroPages(m, g, sid, k0, k, flags) && k0 <= v < k
    ensures ViewAt(m, g, sid, v) == View(flags, Filled(0))
  {
    hide Leaf, PtePage, PteFlags, Filled;
    assert ZeroPage(m, Leaf(m, g, sid, v), flags);
  }

  lemma NothingLoaded(m: Mem, g: Ledger, sid: nat, first: nat, image: seq<Page>)
    ensures LoadedOver(m, g, m, g, sid, first, 0, image)
  {
    hide ViewAt;
  }

  /** loadseg() writes the next page. */
  lemma LoadedNext(m0: Mem, m: Mem, g: Ledger, sid: nat, first: nat, i: nat, image: seq<Page>, p: nat)
    requires LoadedOver(m0, g, m, g, sid, first, i, image) && i < |image| && Inv(m, g, {}) && SameLeaves(m0, g, m, g)
    requires first + i < TRAPFRAME && Leaf(m, g, sid, first + i) != 0 && p == PtePage(Leaf(m, g, sid, first + i))
    requires p in m.pages && SameLeaves(m, g, Mem(m.pages[p := image[i]], m.head), g)
    ensures LoadedOver(m0, g, Mem(m.pages[p := image[i]], m.head), g, sid, first, i + 1, image)
  {
    hide Inv, Leaf, PtePage, PteFlags;
    var m' := Mem(m.pages[p := image[i]], m.head);
    MappedPageOwned(m, g, sid, first + i);
    forall v: nat | v < TRAPFRAME && Leaf(m0, g, sid, v) != 0
      ensures ViewAt(m', g, sid, v) ==
              if first <= v < first + i + 1 then View(ViewAt(m0, g, sid, v).flags, image[v - first]) else ViewAt(m0, g, sid, v)
    {
      MappedPageOwned(m, g, sid, v);
    }
  }

  /** One turn of exec()'s loop: memory for the segment, then its pages. */
  lemma SegmentShown(m0: Mem, g0: Ledger, m1: Mem, g1: Ledger, m2: Mem, g2: Ledger, sid: nat, segs: seq<Segment>, n: nat, k0: nat, k1: nat)
    requires n < |segs| && segs[n].load && k0 == PageCount(SizeAfter(segs, n)) && k0 <= k1
    requires Shows(m0, g0, sid, k0, segs, n) && SameViews(m0, g0, m1, g1, sid, k0) && UserMapped(m1, g1, sid, k1)
    requires ZeroPages(m1, g1, sid, k0, k1, PTE_V + PTE_R + PTE_U + FlagsToPerm(segs[n].flags))
    requires LoadedOver(m1, g1, m2, g2, sid, segs[n].vaddr / PGSIZE, |segs[n].image|, segs[n].image)
    ensures Shows(m2, g2, sid, k1, segs, n + 1)
  {
    hide ViewAt, Leaf, FlagsToPerm, ZeroPages, Filled, PageCount;
    forall v: nat | v < k1
      ensures ViewAt(m2, g2, sid, v) == Image(segs, n + 1, v)
    {
      assert Leaf(m1, g1, sid, v) != 0;
      if v < k0 {
        assert ViewAt(m1, g1, sid, v) == Image(segs, n, v);
      } else {
        ViewZero(m1, g1, sid, k0, k1, PTE_V + PTE_R + PTE_U + FlagsToPerm(segs[n].flags), v);
      }
    }
  }

  /** uvmclear() of the guard page. */
  lemma ViewsCleared(m: Mem, m': Mem, g: Ledger, sid: nat, k: nat, top: nat, pte: nat)
    requires Inv(m, g, {}) && Inv(m', g, {}) && UserMapped(m, g, sid, top) && k <= top && OneLeaf(m, g, m', g, sid, k, pte)
    requires forall q :: q in m'.pages && q in g.own && !OwnTable(g.own[q], sid) ==> q in m.pages && m'.pages[q] == m.pages[q]
    ensures SameViews(m, g, m', g, sid, k)
  {
    hide Leaf, PtePage, PteFlags, FreeOk, TreeOk, LeavesOk, TablesOk;
    forall v: nat | v < k
      ensures ViewAt(m', g, sid, v) == ViewAt(m, g, sid, v)
    {
      MappedPageOwned(m, g, sid, v);
    }
  }

  /** An operation on another space. */
  lemma ViewsElsewhere(m: Mem, g: Ledger, m': Mem, g': Ledger, sid: nat, s: nat, k: nat)
    requires Local(m, g, m', g', sid) && Inv(m, g, {}) && Inv(m', g', {}) && s != sid && UserMapped(m, g, s, k)
    ensures SameViews(m, g, m', g', s, k)
  {
    hide Leaf, PtePage, PteFlags, FreeOk, TreeOk, LeavesOk;
    forall v: nat | v < k
      ensures ViewAt(m', g', s, v) == ViewAt(m, g, s, v)
    {
      LocalLeaves(m, g, m', g', sid, s, v);
      MappedPageOwned(m, g, s, v);
    }
  }
}
