/** The memory of processes: allocproc(), fork(), growproc(), exec() and
    freeproc(), with kalloc() failing whenever the free list is empty. */
module ProcMemory {
  import opened Basics
  import opened VmState
  import opened VmTree
  import opened VmSpace
  import opened VmFree
  import opened PageTables
  import opened ProcSpaces
  import opened ExecImage

  class Procs {
    const vm: Vm
    /** The page with the trampoline code, which is not a managed page. */
    const trampoline: nat
    var procs: map<nat, Proc>
    ghost var space: map<nat, nat>
    ghost var next: nat

    ghost predicate Valid()
      reads this, vm
    {
      space.Keys == procs.Keys && Ok(vm.State(), vm.g, procs, space, next)
    }

    /** Nothing changes but the free list. */
    twostate predicate Unchanged()
      reads this, vm
    {
      && procs == old(procs) && vm.g.own == old(vm.g.own)
      && Intact(old(vm.State()), old(vm.g), vm.State())
    }

    constructor (vm: Vm, trampoline: nat)
      requires vm.Valid() && vm.g.at == map[] && forall p :: p in vm.g.own ==> vm.g.own[p] == Free
      ensures Valid() && procs == map[] && this.vm == vm
    {
      this.vm := vm;
      this.trampoline := trampoline;
      procs, space, next := map[], map[], 0;
    }

    /** proc_pagetable(): a space with the two special pages, or nothing. */
    method ProcPagetable(tf: nat, ghost sid: nat) returns (pt: nat)
      requires vm.Valid() && NoneHeld(vm.g) && Unused(vm.g, sid)
      modifies vm
      ensures vm.Valid() && NoneHeld(vm.g) && Local(old(vm.State()), old(vm.g), vm.State(), vm.g, sid)
      ensures pt == 0 ==> Unused(vm.g, sid) && |old(vm.g.free)| <= 5
      ensures pt != 0 ==> SpaceOk(vm.State(), vm.g, Proc(pt, 0, tf), sid) && |vm.g.free| + 5 >= |old(vm.g.free)|
      ensures pt != 0 ==> PtePage(Leaf(vm.State(), vm.g, sid, TRAMPOLINE)) == trampoline
    {
      hide Inv, Leaf, Scarce, Grown, SameLeaves, NoLeaves, Mapped, NoneHeld, Unused, Local, SpaceOk, Gone, PageCount, IsLeaf, WithValid;
      ghost var m0, g0 := vm.State(), vm.g;
      LocalRefl(m0, g0, sid);
      UnusedTables(g0, sid);
      pt := vm.Uvmcreate(sid);
      if pt == 0 {
        return;
      }
      ghost var m1, g1 := vm.State(), vm.g;
      GrownHeld(m0, g0, m1, g1, sid);
      EmptyLeaves(m1, g1, sid);
      SpecialPerms();
      var ok := vm.MapPage(pt, TRAMPOLINE, trampoline, PTE_R + PTE_X, sid);
      ghost var m2, g2 := vm.State(), vm.g;
      MappedSpecial(m1, g1, m2, g2, sid, TRAMPOLINE, if ok then 1 else 0, trampoline, WithValid(PTE_R + PTE_X));
      LocalTransitive(m0, g0, m1, g1, m2, g2, sid);
      if !ok {
        vm.Uvmfree(pt, 0, sid);
        GoneUnused(g2, vm.g, sid);
        LocalTransitive(m0, g0, m2, g2, vm.State(), vm.g, sid);
        pt := 0;
        return;
      }
      ok := vm.MapPage(pt, TRAPFRAME, tf, PTE_R + PTE_W, sid);
      ghost var m3, g3 := vm.State(), vm.g;
      MappedSpecial(m2, g2, m3, g3, sid, TRAPFRAME, if ok then 1 else 0, tf, WithValid(PTE_R + PTE_W));
      LocalTransitive(m0, g0, m2, g2, m3, g3, sid);
      if !ok {
        AlignedTop();
        vm.Uvmunmap(pt, TRAMPOLINE * PGSIZE, 1, false, sid);
        ghost var m4, g4 := vm.State(), vm.g;
        UnmappedSpecial(m3, g3, m4, g4, sid, TRAMPOLINE);
        LocalTransitive(m0, g0, m3, g3, m4, g4, sid);
        vm.Uvmfree(pt, 0, sid);
        GoneUnused(g4, vm.g, sid);
        LocalTransitive(m0, g0, m4, g4, vm.State(), vm.g, sid);
        pt := 0;
        return;
      }
      NewSpace(m3, g3, pt, tf, trampoline, sid);
    }

    /** proc_freepagetable(): the whole space goes. */
    method ProcFreepagetable(pt: nat, sz: nat, ghost p: Proc, ghost sid: nat)
      requires vm.Valid() && NoneHeld(vm.g) && SpaceOk(vm.State(), vm.g, p, sid) && pt == p.pagetable
      requires PageCount(sz) == PageCount(p.sz)
      modifies vm
      ensures vm.Valid() && NoneHeld(vm.g) && Local(old(vm.State()), old(vm.g), vm.State(), vm.g, sid)
      ensures Unused(vm.g, sid) && Gone(old(vm.g), vm.g, sid)
    {
      hide Inv, Leaf, Scarce, NoneHeld, Unused, Local, SpaceOk, Gone, PageCount, Unmapped, UserMapped;
      ghost var m0, g0 := vm.State(), vm.g;
      SpaceIs(m0, g0, p, sid);
      AlignedTop();
      vm.Uvmunmap(pt, TRAMPOLINE * PGSIZE, 1, false, sid);
      ghost var m1, g1 := vm.State(), vm.g;
      UnmappedSpecial(m0, g0, m1, g1, sid, TRAMPOLINE);
      UserSame(m0, g0, m1, g1, sid, TRAMPOLINE, PageCount(sz));
      vm.Uvmunmap(pt, TRAPFRAME * PGSIZE, 1, false, sid);
      ghost var m2, g2 := vm.State(), vm.g;
      UnmappedSpecial(m1, g1, m2, g2, sid, TRAPFRAME);
      UserSame(m1, g1, m2, g2, sid, TRAPFRAME, PageCount(sz));
      LocalTransitive(m0, g0, m1, g1, m2, g2, sid);
      vm.Uvmfree(pt, sz, sid);
      LocalTransitive(m0, g0, m2, g2, vm.State(), vm.g, sid);
      GoneUnused(g2, vm.g, sid);
      GoneSame(g0, g2, vm.g, sid);
    }

    /** freeproc() */
    method Freeproc(slot: nat)
      requires Valid() && slot in procs
      modifies this, vm
      ensures Valid() && procs == old(procs) - {slot} && space == old(space) - {slot}
      ensures Reclaimed(old(vm.g), vm.g, old(space)[slot], slot)
      ensures forall p :: p in old(vm.g.own) && vm.g.own[p] != Free && p in old(vm.pages) ==>
        p in vm.pages && vm.pages[p] == old(vm.pages)[p]
    {
      hide Inv, Leaf, Scarce, NoneHeld, Unused, SpaceOk, Gone, PageCount, OthersOk, EveryOk, Accounted, Named, SameLeaves, Reclaimed, FreeOk;
      ghost var m0, g0, sid := vm.State(), vm.g, space[slot];
      var p := procs[slot];
      ProcIs(m0, g0, procs, space, next, slot);
      vm.GiveBack(p.trapframe);
      ghost var m1, g1 := vm.State(), vm.g;
      FrameGiven(m0, g0, m1, g1, procs, space, next, slot);
      ProcFreepagetable(p.pagetable, p.sz, p, sid);
      OkRemoved(m1, g1, vm.State(), vm.g, procs, space, next, slot);
      ReclaimedBy(m0, g0, g1, vm.g, procs, space, next, slot);
      ReclaimedKeeps(m0, g0, m1, g1, vm.State(), vm.g, p.trapframe, sid, slot);
      procs := procs - {slot};
      space := space - {slot};
    }

    /** growproc(): grow by n bytes, or shrink; the size wraps at 64 bits. */
    method Growproc(slot: nat, n: int) returns (ok: bool)
      requires Valid() && slot in procs && -0x8000_0000 <= n < 0x8000_0000 && procs[slot].sz < 0x1_0000_0000_0000_0000
      modifies this, vm
      ensures Valid() && space == old(space) && Local(old(vm.State()), old(vm.g), vm.State(), vm.g, space[slot])
      ensures procs == old(procs)[slot := old(procs)[slot].(sz := procs[slot].sz)]
      ensures ok && n >= 0 ==> procs[slot].sz == old(procs)[slot].sz + n
      ensures ok && n > 0 ==>
        && Filling(old(vm.State()), old(vm.g), vm.State(), vm.g, space[slot], PageCount(old(procs)[slot].sz), PageCount(procs[slot].sz))
        && ZeroPages(vm.State(), vm.g, space[slot], PageCount(old(procs)[slot].sz), PageCount(procs[slot].sz), PTE_V + PTE_R + PTE_U + PTE_W)
      ensures n < 0 ==> ok && procs[slot].sz == if -n <= old(procs)[slot].sz then old(procs)[slot].sz + n else old(procs)[slot].sz
      ensures n < 0 && -n <= old(procs)[slot].sz ==>
        var k, k0 := PageCount(procs[slot].sz), PageCount(old(procs)[slot].sz);
        k <= k0 && Unmapped(old(vm.State()), old(vm.g), vm.State(), vm.g, space[slot], k, k0 - k, Free)
      ensures n == 0 || -n > old(procs)[slot].sz ==> ok && vm.State() == old(vm.State()) && vm.g == old(vm.g)
      ensures !ok ==> procs == old(procs) && SameLeaves(old(vm.State()), old(vm.g), vm.State(), vm.g)
      ensures !ok ==> |old(vm.g.free)| <= 3 * (PageCount(procs[slot].sz + n) - PageCount(procs[slot].sz))
    {
      hide Inv, Leaf, Scarce, NoneHeld, SpaceOk, PageCount, EveryOk, Accounted, Named, SameLeaves, Filling, ZeroPages, Grown, Unmapped, Local, UserMapped;
      ghost var m0, g0, sid := vm.State(), vm.g, space[slot];
      var p := procs[slot];
      var sz := p.sz;
      ProcIs(m0, g0, procs, space, next, slot);
      OkHeld(m0, g0, procs, space, next);
      LocalRefl(m0, g0, sid);
      ok := true;
      if n > 0 {
        sz := vm.Uvmalloc(p.pagetable, sz, sz + n, PTE_W, sid);
        if sz == 0 {
          GrownHeld(m0, g0, vm.State(), vm.g, sid);
          SpaceSame(m0, g0, vm.State(), vm.g, p, sid);
          OkChanged(m0, g0, vm.State(), vm.g, procs, space, next, slot, p);
          assert procs[slot := p] == procs;
          return false;
        }
        FillingHeld(m0, g0, vm.State(), vm.g, sid, PageCount(p.sz), PageCount(sz));
        SpaceFilled(m0, g0, vm.State(), vm.g, p, sid, PageCount(p.sz), sz);
      } else if n < 0 {
        sz := vm.Uvmdealloc(p.pagetable, sz, (sz + n) % 0x1_0000_0000_0000_0000, sid);
        ShrinkTo(p.sz, n);
        if sz < p.sz {
          UnmappedHeld(m0, g0, vm.State(), vm.g, sid, PageCount(sz), PageCount(p.sz) - PageCount(sz));
          SpaceShrunk(m0, g0, vm.State(), vm.g, p, sid, sz);
        }
      }
      OkChanged(m0, g0, vm.State(), vm.g, procs, space, next, slot, p.(sz := sz));
      procs := procs[slot := p.(sz := sz)];
    }

    /** allocproc(): a process without user memory, or nothing. */
    method Allocproc(slot: nat) returns (ok: bool)
      requires Valid() && slot !in procs
      modifies this, vm
      ensures Valid()
      ensures ok ==> slot in procs && procs == old(procs)[slot := procs[slot]] && procs[slot].sz == 0
      ensures ok ==> space == old(space)[slot := old(next)]
      ensures ok ==> Acquired(old(vm.g), vm.g, space[slot], slot) && Intact(old(vm.State()), old(vm.g), vm.State())
      ensures ok ==> |vm.g.free| + 6 >= |old(vm.g.free)|
      ensures !ok ==> Unchanged() && space == old(space) && |old(vm.g.free)| <= 6
    {
      hide Inv, Leaf, Scarce, NoneHeld, Unused, SpaceOk, PageCount, EveryOk, Accounted, Named, SameLeaves, FrameTaken, Local, Acquired, Intact, FreeOk;
      ghost var m0, g0 := vm.State(), vm.g;
      OkParts(m0, g0, procs, space, next);
      OkHeld(m0, g0, procs, space, next);
      IntactRefl(m0, g0);
      var tf := TakeFrame(slot, next);
      if tf == 0 {
        return false;
      }
      ghost var m1, g1 := vm.State(), vm.g;
      var pt := ProcPagetable(tf, next);
      ghost var m2, g2 := vm.State(), vm.g;
      if pt == 0 {
        AcquiredBy(m0, g0, m1, g1, m2, g2, tf, slot, next);
        FrameStill(m0, g0, m1, g1, m2, g2, tf, slot, next);
        vm.GiveBack(tf);
        FrameBack(m0, g0, m1, g1, m2, g2, vm.State(), vm.g, procs, space, next, tf, slot);
        return false;
      }
      AcquiredBy(m0, g0, m1, g1, m2, g2, tf, slot, next);
      OkAdded(m0, g0, m1, g1, m2, g2, procs, space, next, slot, Proc(pt, 0, tf));
      procs := procs[slot := Proc(pt, 0, tf)];
      space := space[slot := next];
      next := next + 1;
      ok := true;
    }

    /** allocproc() takes a page for the trapframe. */
    method TakeFrame(ghost slot: nat, ghost sid: nat) returns (tf: nat)
      requires vm.Valid() && NoneHeld(vm.g) && Unused(vm.g, sid)
      modifies vm
      ensures vm.Valid() && NoneHeld(vm.g) && Unused(vm.g, sid)
      ensures tf == 0 ==> vm.State() == old(vm.State()) && vm.g == old(vm.g) && vm.g.free == []
      ensures tf != 0 ==> FrameTaken(old(vm.State()), old(vm.g), vm.State(), vm.g, tf, slot) && |vm.g.free| + 1 == |old(vm.g.free)|
    {
      hide Inv, Leaf, Scarce, NoneHeld, Unused, SameLeaves, FrameTaken, FreeOk;
      ghost var m0, g0 := vm.State(), vm.g;
      tf := vm.TakePage(Filled(JUNK_TAKEN));
      if tf != 0 {
        FrameInv(vm.State(), vm.g, {}, tf, slot);
        ghost var g' := vm.g.(own := vm.g.own[tf := Frame(slot)]);
        TookFrame(m0, g0, vm.State(), vm.g, g', tf, slot, sid);
        vm.g := g';
      }
    }

    /** fork(): the child gets a copy of the parent's memory, or there is no child
        and every page is where it was. */
    method Fork(parent: nat, child: nat) returns (ok: bool)
      requires Valid() && parent in procs && child !in procs
      modifies this, vm
      ensures Valid()
      ensures ok ==> child in procs && procs == old(procs)[child := procs[child]] && procs[child].sz == procs[parent].sz
      ensures ok ==> space == old(space)[child := space[child]] && child in space && parent in old(space)
      ensures ok ==> Intact(old(vm.State()), old(vm.g), vm.State()) && Acquired(old(vm.g), vm.g, space[child], child)
      ensures ok ==> CopyOf(old(vm.State()), old(vm.g), vm.State(), vm.g, space[parent], space[child], PageCount(procs[parent].sz))
      ensures !ok ==> Unchanged() && |old(vm.g.free)| <= 6 + 3 * PageCount(procs[parent].sz)
    {
      hide Inv, Leaf, Scarce, NoneHeld, Unused, SpaceOk, PageCount, EveryOk, Accounted, Named, SameLeaves, Grown, Filling, CopyOf, Local, Acquired, Intact, Reclaimed, UserMapped;
      ghost var m0, g0, procs0, space0 := vm.State(), vm.g, procs, space;
      OkParts(m0, g0, procs, space, next);
      OkHeld(m0, g0, procs, space, next);
      ok := Allocproc(child);
      if !ok {
        return;
      }
      ghost var m1, g1 := vm.State(), vm.g;
      var np, p := procs[child], procs[parent];
      ghost var osid, nsid := space[parent], space[child];
      ProcIs(m1, g1, procs, space, next, parent);
      ProcIs(m1, g1, procs, space, next, child);
      OkHeld(m1, g1, procs, space, next);
      CountIsZero();
      ok := vm.Uvmcopy(p.pagetable, np.pagetable, p.sz, osid, nsid);
      ghost var m2, g2 := vm.State(), vm.g;
      if !ok {
        GrownHeld(m1, g1, m2, g2, nsid);
        SpaceSame(m1, g1, m2, g2, np, nsid);
        OkChanged(m1, g1, m2, g2, procs, space, next, child, np);
        assert procs[child := np] == procs;
        AcquiredMore(m0, g0, m1, g1, m2, g2, nsid, child);
        OkHeld(m2, g2, procs, space, next);
        Freeproc(child);
        AcquiredReclaimed(g0, g2, vm.g, nsid, child);
        IntactStill(m0, g0, m2, g2, vm.State(), vm.g);
        assert procs == procs0;
        return;
      }
      FillingHeld(m1, g1, m2, g2, nsid, 0, PageCount(p.sz));
      SpaceFilled(m1, g1, m2, g2, np, nsid, 0, p.sz);
      OkChanged(m1, g1, m2, g2, procs, space, next, child, np.(sz := p.sz));
      AcquiredMore(m0, g0, m1, g1, m2, g2, nsid, child);
      CopyFrom(m0, g0, m1, g1, m2, g2, osid, nsid, child, PageCount(p.sz));
      procs := procs[child := np.(sz := p.sz)];
    }

    /** walkaddr(): the page that user code may use at va, or 0. */
    method Walkaddr(pt: nat, va: nat, ghost sid: nat) returns (p: nat)
      requires vm.Valid() && vm.Space(pt, sid)
      modifies vm
      ensures vm.Valid() && vm.State() == old(vm.State()) && vm.g == old(vm.g)
      ensures p == UserPage(vm.State(), vm.g, sid, va / PGSIZE)
    {
      hide Inv, Leaf, Scarce, IsValid, PtePage, PteFlags, Grown, SameLeaves, LeafTable;
      if va / PGSIZE >= MAXVPN {
        return 0;
      }
      var t := vm.Walk(pt, va / PGSIZE, false, sid);
      LeafAt(vm.State(), vm.g, sid, va / PGSIZE, t);
      if t == 0 {
        return 0;
      }
      var pte := vm.pages[t][va / PGSIZE % NPTE];
      if !IsValid(pte) {
        return 0;
      }
      if PteFlags(pte) / PTE_U % 2 == 0 {
        return 0;
      }
      p := PtePage(pte);
    }

    /** loadseg(): page i of the segment becomes image[i]; readi() falls short at
        page `short`, if the file has that few. */
    method Loadseg(pt: nat, va: nat, sz: nat, image: seq<Page>, short: nat, ghost sid: nat) returns (ok: bool)
      requires vm.Valid() && vm.Space(pt, sid) && NoneHeld(vm.g) && va % PGSIZE == 0
      requires |image| == PageCount(sz) && forall i :: 0 <= i < |image| ==> |image[i]| == NPTE
      requires UserReady(vm.State(), vm.g, sid, va / PGSIZE + PageCount(sz))
      modifies vm
      ensures vm.Valid() && vm.Space(pt, sid) && NoneHeld(vm.g) && vm.g == old(vm.g)
      ensures SameLeaves(old(vm.State()), old(vm.g), vm.State(), vm.g) && Local(old(vm.State()), old(vm.g), vm.State(), vm.g, sid)
      ensures ok <==> PageCount(sz) <= short
      ensures ok ==> LoadedOver(old(vm.State()), old(vm.g), vm.State(), vm.g, sid, va / PGSIZE, PageCount(sz), image)
    {
      hide Inv, Leaf, Scarce, PageCount, UserPage, SameLeaves, Local, LoadedOver, UserReady, NoneHeld, PtePage;
      ghost var m0, g0, first, n := vm.State(), vm.g, va / PGSIZE, PageCount(sz);
      SameRefl(m0, g0);
      LocalRefl(m0, g0, sid);
      NothingLoaded(m0, g0, sid, first, image);
      var i := 0;
      while i * PGSIZE < sz
        invariant 0 <= i <= n && i <= short
        invariant vm.Valid() && vm.Space(pt, sid) && vm.g == g0
        invariant SameLeaves(m0, g0, vm.State(), vm.g) && Local(m0, g0, vm.State(), vm.g, sid)
        invariant LoadedOver(m0, g0, vm.State(), vm.g, sid, first, i, image)
        decreases sz - i * PGSIZE
      {
        ghost var m1, g1 := vm.State(), vm.g;
        CountNext(i, sz);
        PageOfSegment(va, i);
        ReadySame(m0, g0, m1, g1, sid, first + n);
        ReadyPage(m1, g1, sid, first + n, first + i);
        var p := Walkaddr(pt, va + i * PGSIZE, sid);
        assert p != 0;
        if i == short {
          return false;
        }
        LoadPage(m1, g1, sid, first + i, p, image[i]);
        LoadedNext(m0, m1, g1, sid, first, i, image, p);
        vm.pages := vm.pages[p := image[i]];
        SameTwice(m0, g0, m1, g1, vm.State(), vm.g);
        LocalTransitive(m0, g0, m1, g1, vm.State(), vm.g, sid);
        i := i + 1;
      }
      CountEnd(i, sz);
      ok := true;
    }

    /** One turn of exec()'s loop over the program headers. */
    method LoadSegment(segs: seq<Segment>, n: nat, ghost p: Proc, pt: nat, sz: nat, ghost sid: nat) returns (ok: bool, newsz: nat)
      requires vm.Valid() && NoneHeld(vm.g) && pt == p.pagetable && sz == p.sz && SpaceOk(vm.State(), vm.g, p, sid)
      requires n < |segs| && segs[n].Fits() && sz == SizeAfter(segs, n)
      requires UserReady(vm.State(), vm.g, sid, PageCount(sz)) && Shows(vm.State(), vm.g, sid, PageCount(sz), segs, n)
      modifies vm
      ensures vm.Valid() && NoneHeld(vm.g) && Local(old(vm.State()), old(vm.g), vm.State(), vm.g, sid)
      ensures SpaceOk(vm.State(), vm.g, p.(sz := newsz), sid)
      ensures ok ==> !segs[n].Bad(sz) && newsz == SizeAfter(segs, n + 1)
      ensures ok ==> UserReady(vm.State(), vm.g, sid, PageCount(newsz)) && Shows(vm.State(), vm.g, sid, PageCount(newsz), segs, n + 1)
      ensures ok ==> |vm.g.free| + 3 * (PageCount(newsz) - PageCount(sz)) >= |old(vm.g.free)|
      ensures !ok ==> segs[n].Bad(sz) || |old(vm.g.free)| <= 3 * (PageCount(SizeAfter(segs, n + 1)) - PageCount(sz))
    {
      hide Inv, Leaf, Scarce, NoneHeld, SpaceOk, PageCount, UserMapped, UserReady, Grown, SameLeaves, Filling, ZeroPages, Local, FlagsToPerm, LoadedOver, Shows, SameViews, Image;
      ghost var m0, g0 := vm.State(), vm.g;
      var seg := segs[n];
      LocalRefl(m0, g0, sid);
      newsz := sz;
      if !seg.readable {
        return false, sz;
      }
      if !seg.load {
        NotLoaded(m0, g0, sid, PageCount(sz), segs, n);
        return true, sz;
      }
      if seg.memsz < seg.filesz || seg.vaddr + seg.memsz >= 0x1_0000_0000_0000_0000 || seg.vaddr % PGSIZE != 0 {
        return false, sz;
      }
      SpaceIs(m0, g0, p, sid);
      PermBits(seg.flags);
      var sz1 := vm.Uvmalloc(pt, sz, seg.vaddr + seg.memsz, FlagsToPerm(seg.flags), sid);
      ghost var m1, g1 := vm.State(), vm.g;
      SpaceAlloc(m0, g0, m1, g1, p, sid, seg.vaddr + seg.memsz, sz1, FlagsToPerm(seg.flags));
      if sz1 == 0 {
        return false, sz;
      }
      newsz := sz1;
      SpaceIs(m1, g1, p.(sz := newsz), sid);
      ViewsAlloc(m0, g0, m1, g1, p, sid, seg.vaddr + seg.memsz, sz1, FlagsToPerm(seg.flags));
      SegmentInside(seg.vaddr, seg.memsz, seg.filesz, newsz);
      ReadyLess(m1, g1, sid, seg.vaddr / PGSIZE + PageCount(seg.LoadSize()), PageCount(newsz));
      ok := Loadseg(pt, seg.vaddr, seg.LoadSize(), seg.image, seg.short, sid);
      LocalTransitive(m0, g0, m1, g1, vm.State(), vm.g, sid);
      SpaceEqual(m1, g1, vm.State(), vm.g, p.(sz := newsz), sid);
      ReadySame(m1, g1, vm.State(), vm.g, sid, PageCount(newsz));
      if ok {
        CountMonotone(sz, newsz);
        SegmentShown(m0, g0, m1, g1, vm.State(), vm.g, sid, segs, n, PageCount(sz), PageCount(newsz));
      }
    }

    /** exec()'s stack: two pages above the program, the lower one out of bounds. */
    method AddStack(ghost p: Proc, pt: nat, sz: nat, ghost sid: nat) returns (ok: bool, newsz: nat)
      requires vm.Valid() && NoneHeld(vm.g) && pt == p.pagetable && sz == p.sz && SpaceOk(vm.State(), vm.g, p, sid)
      requires UserReady(vm.State(), vm.g, sid, PageCount(sz))
      modifies vm
      ensures vm.Valid() && NoneHeld(vm.g) && Local(old(vm.State()), old(vm.g), vm.State(), vm.g, sid)
      ensures SpaceOk(vm.State(), vm.g, p.(sz := newsz), sid)
      ensures ok ==> newsz == (PageCount(sz) + 2) * PGSIZE && PageCount(newsz) == PageCount(sz) + 2
      ensures ok ==> Guarded(vm.State(), vm.g, sid, PageCount(newsz))
      ensures ok ==> SameViews(old(vm.State()), old(vm.g), vm.State(), vm.g, sid, PageCount(sz))
      ensures !ok ==> |old(vm.g.free)| <= 6
    {
      hide Inv, Leaf, Scarce, NoneHeld, SpaceOk, PageCount, UserMapped, UserReady, Grown, SameLeaves, Filling, ZeroPages, Local, Guarded, OneLeaf, OwnTable, SameViews;
      ghost var m0, g0 := vm.State(), vm.g;
      newsz := PageCount(sz) * PGSIZE;
      CountUp(PageCount(sz));
      SpaceRounded(m0, g0, p, sid, newsz);
      SpaceIs(m0, g0, p.(sz := newsz), sid);
      var sz1 := vm.Uvmalloc(pt, newsz, newsz + 2 * PGSIZE, PTE_W, sid);
      ghost var m1, g1 := vm.State(), vm.g;
      SpaceAlloc(m0, g0, m1, g1, p.(sz := newsz), sid, newsz + 2 * PGSIZE, sz1, PTE_W);
      if sz1 == 0 {
        return false, newsz;
      }
      newsz := sz1;
      SpaceIs(m1, g1, p.(sz := newsz), sid);
      GuardPage(m1, g1, sid, PageCount(sz), PageCount(newsz));
      vm.Uvmclear(pt, newsz - 2 * PGSIZE, sid);
      AfterClear(m0, g0, m1, g1, vm.State(), p.(sz := newsz), sid, PageCount(newsz));
      StackViews(m0, g0, m1, g1, vm.State(), sid, PageCount(sz));
      ok := true;
    }

    /** exec(): the new image is built beside the old one, and replaces it only when
        nothing can fail any more. `argsFit` says whether the arguments fit on the
        stack page. */
    method Exec(slot: nat, headerOk: bool, segs: seq<Segment>, argsFit: bool) returns (ok: bool)
      requires Valid() && slot in procs && forall i :: 0 <= i < |segs| ==> segs[i].Fits()
      modifies this, vm
      ensures Valid()
      ensures ok ==> slot in procs && procs == old(procs)[slot := procs[slot]] && procs[slot].trapframe == old(procs)[slot].trapframe
      ensures ok ==> slot in space && space == old(space)[slot := old(next)]
      ensures ok ==> headerOk && argsFit && Executable(vm.State(), vm.g, space[slot], segs, procs[slot].sz)
      ensures ok && |old(vm.g.own)| <= 0x10_0000 ==> forall i :: 0 <= i < |segs| && segs[i].load ==> segs[i].LoadSize() == segs[i].filesz
      ensures !ok ==> Unchanged() && space == old(space)
      ensures !ok ==> !headerOk || !argsFit || Refused(segs, |old(vm.g.free)|)
    {
      hide Inv, Leaf, Scarce, NoneHeld, Unused, SpaceOk, PageCount, EveryOk, Accounted, Named, Local, Intact, Gone, Executable, Refused, UserMapped;
      ghost var m0, g0, sid := vm.State(), vm.g, next;
      OkParts(m0, g0, procs, space, next);
      OkHeld(m0, g0, procs, space, next);
      IntactRefl(m0, g0);
      if !headerOk {
        return false;
      }
      ProcIs(m0, g0, procs, space, next, slot);
      var oldp := procs[slot];
      var pt, sz;
      ok, pt, sz := Build(oldp.trapframe, segs, argsFit, sid);
      var p := Proc(pt, sz, oldp.trapframe);
      ghost var m, g := vm.State(), vm.g;
      if !ok {
        OkRestored(m0, g0, m, g, procs, space, next);
        return;
      }
      Swapped(m0, g0, m, g, procs, space, next, slot, p);
      ProcFreepagetable(oldp.pagetable, oldp.sz, oldp, space[slot]);
      LocalThenLocal(m0, g0, m, g, vm.State(), vm.g, space[slot], sid);
      Kept(m, g, vm.State(), vm.g, space[slot], p, sid, slot, segs);
      OkReplaced(m0, g0, vm.State(), vm.g, procs, space, next, slot, p);
      procs := procs[slot := p];
      space := space[slot := next];
      next := next + 1;
    }

    /** The part of exec() that builds, with its `bad` path. */
    method Build(tf: nat, segs: seq<Segment>, argsFit: bool, ghost sid: nat) returns (ok: bool, pt: nat, sz: nat)
      requires vm.Valid() && NoneHeld(vm.g) && Unused(vm.g, sid) && forall i :: 0 <= i < |segs| ==> segs[i].Fits()
      modifies vm
      ensures vm.Valid() && NoneHeld(vm.g) && Local(old(vm.State()), old(vm.g), vm.State(), vm.g, sid)
      ensures ok ==> argsFit && SpaceOk(vm.State(), vm.g, Proc(pt, sz, tf), sid) && Executable(vm.State(), vm.g, sid, segs, sz)
      ensures ok && |old(vm.g.own)| <= 0x10_0000 ==> forall i :: 0 <= i < |segs| && segs[i].load ==> segs[i].LoadSize() == segs[i].filesz
      ensures !ok ==> Unused(vm.g, sid) && (!argsFit || Refused(segs, |old(vm.g.free)|))
    {
      hide Inv, Leaf, Scarce, NoneHeld, Unused, SpaceOk, PageCount, UserReady, Local, Guarded, Gone, Shows, SameViews, SizeAfter, UserMapped;
      ghost var m0, g0 := vm.State(), vm.g;
      ok, sz := false, 0;
      pt := ProcPagetable(tf, sid);
      if pt == 0 {
        return;
      }
      ghost var m, g, p := vm.State(), vm.g, Proc(pt, 0, tf);
      ok, sz := LoadAll(segs, p, pt, sid);
      ghost var m1, g1, k := vm.State(), vm.g, PageCount(sz);
      LocalTransitive(m0, g0, m, g, m1, g1, sid);
      LocalRefl(m1, g1, sid);
      if ok {
        ok, sz := AddStack(p.(sz := sz), pt, sz, sid);
      }
      LocalTransitive(m0, g0, m1, g1, vm.State(), vm.g, sid);
      ghost var m2, g2 := vm.State(), vm.g;
      if !ok || !argsFit {
        ok := false;
        ProcFreepagetable(pt, sz, p.(sz := sz), sid);
        LocalTransitive(m0, g0, m2, g2, vm.State(), vm.g, sid);
        return;
      }
      ShowsStill(m1, g1, m2, g2, sid, k, k, segs, |segs|);
      WholeFiles(m0, g0, m2, g2, Proc(pt, sz, tf), sid, segs);
    }

    /** exec()'s loop over the program headers. */
    method LoadAll(segs: seq<Segment>, ghost p: Proc, pt: nat, ghost sid: nat) returns (ok: bool, sz: nat)
      requires vm.Valid() && NoneHeld(vm.g) && pt == p.pagetable && p.sz == 0 && SpaceOk(vm.State(), vm.g, p, sid)
      requires forall i :: 0 <= i < |segs| ==> segs[i].Fits()
      modifies vm
      ensures vm.Valid() && NoneHeld(vm.g) && Local(old(vm.State()), old(vm.g), vm.State(), vm.g, sid)
      ensures SpaceOk(vm.State(), vm.g, p.(sz := sz), sid)
      ensures ok ==> sz == SizeAfter(segs, |segs|) && forall i :: 0 <= i < |segs| ==> !segs[i].Bad(SizeAfter(segs, i))
      ensures ok ==> UserReady(vm.State(), vm.g, sid, PageCount(sz)) && Shows(vm.State(), vm.g, sid, PageCount(sz), segs, |segs|)
      ensures ok ==> |vm.g.free| + 3 * PageCount(sz) >= |old(vm.g.free)|
      ensures !ok ==> (exists i :: 0 <= i < |segs| && segs[i].Bad(SizeAfter(segs, i)))
                      || |old(vm.g.free)| <= 3 * PageCount(SizeAfter(segs, |segs|))
    {
      hide Inv, Leaf, Scarce, NoneHeld, SpaceOk, PageCount, UserReady, Local, Shows, SizeAfter;
      ghost var m0, g0 := vm.State(), vm.g;
      LocalRefl(m0, g0, sid);
      NothingReady(m0, g0, sid, segs);
      assert p.(sz := 0) == p;
      sz, ok := 0, true;
      var i := 0;
      while i < |segs|
        invariant 0 <= i <= |segs| && ok && sz == SizeAfter(segs, i)
        invariant forall j :: 0 <= j < i ==> !segs[j].Bad(SizeAfter(segs, j))
        invariant vm.Valid() && NoneHeld(vm.g) && SpaceOk(vm.State(), vm.g, p.(sz := sz), sid)
        invariant Local(m0, g0, vm.State(), vm.g, sid) && UserReady(vm.State(), vm.g, sid, PageCount(sz))
        invariant Shows(vm.State(), vm.g, sid, PageCount(sz), segs, i)
        invariant |vm.g.free| + 3 * PageCount(sz) >= |g0.free|
      {
        ghost var m1, g1 := vm.State(), vm.g;
        ok, sz := LoadSegment(segs, i, p.(sz := sz), pt, sz, sid);
        LocalTransitive(m0, g0, m1, g1, vm.State(), vm.g, sid);
        if !ok {
          SizeGrows(segs, i + 1, |segs|);
          CountMonotone(SizeAfter(segs, i + 1), SizeAfter(segs, |segs|));
          return;
        }
        i := i + 1;
      }
    }
  }

  // --------------------------------------------------------------- small facts

  lemma UnusedTables(g: Ledger, sid: nat)
    requires Unused(g, sid)
    ensures forall n :: n in g.at ==> n.sid != sid
  {
  }

  lemma EmptyLeaves(m: Mem, g: Ledger, sid: nat)
    requires NoLeaves(m, g, sid)
    ensures Leaf(m, g, sid, TRAMPOLINE) == 0 && Leaf(m, g, sid, TRAPFRAME) == 0 && UserMapped(m, g, sid, PageCount(0))
  {
    hide Leaf;
    assert PageCount(0) == 0;
  }

  lemma SpecialPerms()
    ensures IsLeaf(PTE_R + PTE_X) && IsLeaf(PTE_R + PTE_W) && PTE_R + PTE_X < 1024 && PTE_R + PTE_W < 1024
    ensures WithValid(PTE_R + PTE_W) == PTE_V + PTE_R + PTE_W && WithValid(PTE_R + PTE_X) == PTE_V + PTE_R + PTE_X
  {
  }

  lemma MappedSpecial(m: Mem, g: Ledger, m': Mem, g': Ledger, sid: nat, v: nat, n: nat, p: nat, flags: nat)
    requires Mapped(m, g, m', g', sid, v, n, p, flags) && Special(v) && n <= 1 && NoneHeld(g) && flags > 0
    requires UserMapped(m, g, sid, PageCount(0))
    ensures NoneHeld(g') && Local(m, g, m', g', sid) && UserMapped(m', g', sid, PageCount(0))
    ensures forall w: nat :: w != v || n == 0 ==> Leaf(m', g', sid, w) == Leaf(m, g, sid, w)
    ensures n == 1 ==> Leaf(m', g', sid, v) == Pte(p, flags) && Leaf(m', g', sid, v) != 0
  {
    hide Leaf;
    assert PageCount(0) == 0;
  }

  lemma AlignedTop()
    ensures TRAMPOLINE * PGSIZE / PGSIZE == TRAMPOLINE && TRAMPOLINE * PGSIZE % PGSIZE == 0
    ensures TRAPFRAME * PGSIZE / PGSIZE == TRAPFRAME && TRAPFRAME * PGSIZE % PGSIZE == 0
  {
  }

  lemma UnmappedSpecial(m: Mem, g: Ledger, m': Mem, g': Ledger, sid: nat, v: nat)
    requires Unmapped(m, g, m', g', sid, v, 1, Held) && Special(v) && NoneHeld(g) && Inv(m, g, {})
    ensures NoneHeld(g') && Local(m, g, m', g', sid) && g'.own == g.own && g'.at == g.at
    ensures forall w: nat :: Leaf(m', g', sid, w) == if w == v then 0 else Leaf(m, g, sid, w)
  {
    hide Leaf, PtePage, IsLeaf, FreeOk, TreeOk, TablesOk, PagesOk;
    assert forall p :: p in g.own && g.own[p].User? ==> !Special(g.own[p].vpn);
  }

  lemma UserSame(m: Mem, g: Ledger, m': Mem, g': Ledger, sid: nat, v: nat, k: nat)
    requires forall w: nat :: Leaf(m', g', sid, w) == if w == v then 0 else Leaf(m, g, sid, w)
    requires Special(v) && UserMapped(m, g, sid, k)
    ensures UserMapped(m', g', sid, k)
  {
    hide Leaf;
  }

  lemma NewSpace(m: Mem, g: Ledger, pt: nat, tf: nat, trampoline: nat, sid: nat)
    requires Root(sid) in g.at && g.at[Root(sid)] == pt && UserMapped(m, g, sid, PageCount(0))
    requires Leaf(m, g, sid, TRAMPOLINE) == Pte(trampoline, WithValid(PTE_R + PTE_X))
    requires Leaf(m, g, sid, TRAPFRAME) == Pte(tf, PTE_V + PTE_R + PTE_W)
    ensures SpaceOk(m, g, Proc(pt, 0, tf), sid) && PtePage(Leaf(m, g, sid, TRAMPOLINE)) == trampoline
  {
  }

  lemma SpaceIs(m: Mem, g: Ledger, p: Proc, sid: nat)
    requires SpaceOk(m, g, p, sid)
    ensures Root(sid) in g.at && g.at[Root(sid)] == p.pagetable && UserMapped(m, g, sid, PageCount(p.sz))
    ensures Leaf(m, g, sid, TRAMPOLINE) != 0 && Leaf(m, g, sid, TRAPFRAME) != 0
  {
    hide Leaf, PageCount;
  }

  lemma GoneSame(g: Ledger, g1: Ledger, g': Ledger, sid: nat)
    requires Gone(g1, g', sid) && g1.own == g.own
    ensures Gone(g, g', sid)
  {
  }

  lemma ProcIs(m: Mem, g: Ledger, procs: map<nat, Proc>, space: map<nat, nat>, next: nat, slot: nat)
    requires Ok(m, g, procs, space, next) && slot in procs
    ensures slot in space && SpaceOk(m, g, procs[slot], space[slot]) && Inv(m, g, {}) && Scarce(g)
    ensures procs[slot].trapframe in g.own && g.own[procs[slot].trapframe] == Frame(slot)
    ensures Root(space[slot]) in g.at && g.at[Root(space[slot])] == procs[slot].pagetable
    ensures UserMapped(m, g, space[slot], PageCount(procs[slot].sz))
    ensures forall s :: s in space && s != slot ==> space[s] != space[slot]
  {
    hide Inv, Leaf, PageCount, Accounted, UserMapped;
  }

  lemma OkHeld(m: Mem, g: Ledger, procs: map<nat, Proc>, space: map<nat, nat>, next: nat)
    requires Ok(m, g, procs, space, next)
    ensures NoneHeld(g) && Inv(m, g, {}) && Scarce(g) && space.Keys == procs.Keys && g.own.Keys == m.pages.Keys
    ensures forall n :: n in g.at ==> n.sid != next
  {
    hide Leaf, FreeOk, TreeOk, LeavesOk, TablesOk, EveryOk;
  }

  lemma IntactRefl(m: Mem, g: Ledger)
    ensures Intact(m, g, m)
  {
  }

  lemma CountIsZero()
    ensures PageCount(0) == 0
  {
  }

  lemma ReclaimedKeeps(m: Mem, g: Ledger, m1: Mem, g1: Ledger, m2: Mem, g2: Ledger, tf: nat, sid: nat, slot: nat)
    requires m1 == Given(m, tf) && g1 == GivenBy(g, tf) && Local(m1, g1, m2, g2, sid) && NoneHeld(g2) && Unused(g2, sid)
    ensures forall p :: p in g.own && p in g2.own && g2.own[p] != Free && p in m.pages ==> p in m2.pages && m2.pages[p] == m.pages[p]
  {
  }

  lemma SpaceSame(m: Mem, g: Ledger, m': Mem, g': Ledger, p: Proc, sid: nat)
    requires SpaceOk(m, g, p, sid) && SameLeaves(m, g, m', g') && Grown(m, g, m', g', sid)
    ensures SpaceOk(m', g', p, sid)
  {
    hide Leaf, PageCount, Pte;
  }

  lemma SpaceFilled(m: Mem, g: Ledger, m': Mem, g': Ledger, p: Proc, sid: nat, k0: nat, sz: nat)
    requires SpaceOk(m, g, p, sid) && k0 == PageCount(p.sz) && Filling(m, g, m', g', sid, k0, PageCount(sz))
    requires UserMapped(m', g', sid, PageCount(sz))
    ensures SpaceOk(m', g', p.(sz := sz), sid)
  {
    hide Leaf, PageCount, Pte;
  }

  lemma SpaceShrunk(m: Mem, g: Ledger, m': Mem, g': Ledger, p: Proc, sid: nat, sz: nat)
    requires SpaceOk(m, g, p, sid) && PageCount(sz) <= PageCount(p.sz) && UserMapped(m', g', sid, PageCount(sz))
    requires Unmapped(m, g, m', g', sid, PageCount(sz), PageCount(p.sz) - PageCount(sz), Free)
    ensures SpaceOk(m', g', p.(sz := sz), sid)
  {
    hide Leaf, PageCount, Pte;
  }

  lemma ShrinkTo(sz: nat, n: int)
    requires -0x8000_0000 <= n < 0 && sz < 0x1_0000_0000_0000_0000
    ensures var s := (sz + n) % 0x1_0000_0000_0000_0000; if -n <= sz then s == sz + n else s >= sz
  {
    if -n > sz {
      assert (sz + n) % 0x1_0000_0000_0000_0000 == sz + n + 0x1_0000_0000_0000_0000;
    }
  }

  lemma TookFrame(m0: Mem, g0: Ledger, m: Mem, g: Ledger, g': Ledger, tf: nat, slot: nat, sid: nat)
    requires tf in g0.own && g0.own[tf] == Free && g.own == g0.own[tf := Held] && g.at == g0.at && SameLeaves(m0, g0, m, g)
    requires forall q :: q in m0.pages && q != tf ==> q in m.pages && m.pages[q] == m0.pages[q]
    requires g' == g.(own := g.own[tf := Frame(slot)]) && NoneHeld(g0) && Unused(g0, sid) && Scarce(g)
    ensures FrameTaken(m0, g0, m, g', tf, slot) && NoneHeld(g') && Unused(g', sid) && Scarce(g')
  {
    hide Scarce;
    EntryUnchanged(m, g, g');
    LeafSame(m, g, m, g');
    hide Leaf;
    ScarceKeys(g, g');
  }

  lemma FrameStill(m: Mem, g: Ledger, m1: Mem, g1: Ledger, m2: Mem, g2: Ledger, tf: nat, slot: nat, sid: nat)
    requires FrameTaken(m, g, m1, g1, tf, slot) && Local(m1, g1, m2, g2, sid)
    ensures tf in g2.own && g2.own[tf] == Frame(slot)
  {
    hide SameLeaves;
  }

  /** allocproc() gives up after proc_pagetable() failed. */
  lemma FrameBack(m: Mem, g: Ledger, m1: Mem, g1: Ledger, m2: Mem, g2: Ledger, m3: Mem, g3: Ledger,
                  procs: map<nat, Proc>, space: map<nat, nat>, next: nat, tf: nat, slot: nat)
    requires Ok(m, g, procs, space, next) && FrameTaken(m, g, m1, g1, tf, slot) && Local(m1, g1, m2, g2, next)
    requires Inv(m1, g1, {}) && Inv(m2, g2, {}) && NoneHeld(g2) && Unused(g2, next) && slot !in procs && Intact(m, g, m2)
    requires Unused(g, next) && m3 == Given(m2, tf) && g3 == GivenBy(g2, tf) && SameLeaves(m2, g2, m3, g3) && Inv(m3, g3, {}) && Scarce(g3)
    ensures Ok(m3, g3, procs, space, next) && g3.own == g.own && Intact(m, g, m3)
  {
    hide Inv, Leaf, Scarce, SameLeaves, EveryOk, OthersOk, ProcOk, FrameTaken, Local, NoneHeld, Unused, Intact, Accounted, Given, GivenBy;
    OkHeld(m, g, procs, space, next);
    FrameOthers(m, g, m1, g1, procs, space, tf, slot);
    LocalOthers(m1, g1, m2, g2, procs, space, next, slot);
    FrameStill(m, g, m1, g1, m2, g2, tf, slot, next);
    GivenOthers(m2, g2, m3, g3, procs, space, tf, slot);
    BackOwners(m, g, m1, g1, m2, g2, tf, slot, next);
    BackIntact(m, g, m2, g2, tf, slot);
    BackNames(m, g, m1, g1, m2, g2, tf, slot, next);
    SameOwners(g, g3, space.Values, procs);
  }

  lemma SameOwners(g: Ledger, g': Ledger, sids: set<nat>, procs: map<nat, Proc>)
    requires g'.own == g.own && Accounted(g, sids, procs)
    ensures Accounted(g', sids, procs)
  {
  }

  lemma BackOwners(m: Mem, g: Ledger, m1: Mem, g1: Ledger, m2: Mem, g2: Ledger, tf: nat, slot: nat, next: nat)
    requires FrameTaken(m, g, m1, g1, tf, slot) && Local(m1, g1, m2, g2, next) && NoneHeld(g2) && Unused(g2, next) && Unused(g, next) && NoneHeld(g)
    ensures GivenBy(g2, tf).own == g.own && GivenBy(g2, tf).at == g2.at
  {
    hide SameLeaves;
    assert GivenBy(g2, tf).own == g.own;
  }

  lemma BackIntact(m: Mem, g: Ledger, m2: Mem, g2: Ledger, tf: nat, slot: nat)
    requires Intact(m, g, m2) && tf in g2.own && GivenBy(g2, tf).own == g.own
    ensures Intact(m, g, Given(m2, tf))
  {
  }

  lemma LocalOthers(m: Mem, g: Ledger, m': Mem, g': Ledger, procs: map<nat, Proc>, space: map<nat, nat>, next: nat, slot: nat)
    requires OthersOk(m, g, procs, space, slot) && Local(m, g, m', g', next) && Inv(m, g, {}) && Inv(m', g', {})
    requires forall s :: s in space ==> space[s] < next
    ensures OthersOk(m', g', procs, space, slot)
  {
    hide Inv, Local, OthersOk;
    OthersKept(m, g, m', g', procs, space, slot, next);
  }

  lemma GivenOthers(m: Mem, g: Ledger, m': Mem, g': Ledger, procs: map<nat, Proc>, space: map<nat, nat>, tf: nat, slot: nat)
    requires OthersOk(m, g, procs, space, slot) && g' == GivenBy(g, tf) && SameLeaves(m, g, m', g') && slot !in procs
    requires tf in g.own && g.own[tf] == Frame(slot)
    ensures EveryOk(m', g', procs, space)
  {
    hide Leaf, Pte, PageCount;
  }

  lemma BackNames(m: Mem, g: Ledger, m1: Mem, g1: Ledger, m2: Mem, g2: Ledger, tf: nat, slot: nat, next: nat)
    requires FrameTaken(m, g, m1, g1, tf, slot) && Local(m1, g1, m2, g2, next) && Inv(m1, g1, {}) && Inv(m2, g2, {}) && Unused(g2, next)
    requires forall n :: n in g.at ==> n.sid < next
    ensures forall n :: n in g2.at ==> n.sid < next
  {
    hide Leaf, SameLeaves, FreeOk, TreeOk, LeavesOk, PagesOk, Local;
    NamesKept(m1, g1, m2, g2, next, next + 1);
  }

  lemma IntactStill(m: Mem, g: Ledger, m1: Mem, g1: Ledger, m2: Mem, g2: Ledger)
    requires Intact(m, g, m1) && g2.own == g.own && g1.own.Keys == g.own.Keys && m1.pages.Keys == g1.own.Keys
    requires forall p :: p in g1.own && g2.own[p] != Free && p in m1.pages ==> p in m2.pages && m2.pages[p] == m1.pages[p]
    ensures Intact(m, g, m2)
  {
  }

  /** A new process leaves the other spaces as they were. */
  lemma AcquiredLeaf(m: Mem, g: Ledger, m': Mem, g': Ledger, sid: nat, slot: nat, s: nat, v: nat)
    requires Acquired(g, g', sid, slot) && Intact(m, g, m') && PagesOk(m, g) && TablesOk(g) && TablesOk(g') && s != sid
    ensures Leaf(m', g', s, v) == Leaf(m, g, s, v)
  {
    var n := LeafTable(s, v);
    if n in g.at {
      assert g.own[g.at[n]] == Table(n);
    }
    if n in g'.at {
      assert g'.own[g'.at[n]] == Table(n);
      assert g.own[g'.at[n]] != Free;
    }
  }

  /** The copy is of what the parent had before fork(). */
  lemma CopyFrom(m0: Mem, g0: Ledger, m1: Mem, g1: Ledger, m2: Mem, g2: Ledger, osid: nat, nsid: nat, slot: nat, k: nat)
    requires CopyOf(m1, g1, m2, g2, osid, nsid, k) && Inv(m0, g0, {}) && Inv(m1, g1, {}) && UserMapped(m1, g1, osid, k)
    requires Intact(m0, g0, m1) && Acquired(g0, g1, nsid, slot) && osid != nsid
    ensures CopyOf(m0, g0, m2, g2, osid, nsid, k)
  {
    hide Leaf, PteFlags, PtePage, IsLeaf, FreeOk, TreeOk, LeavesOk, TablesOk, Acquired;
    forall v: nat | v < k
      ensures SamePage(m0, Leaf(m0, g0, osid, v), m2, Leaf(m2, g2, nsid, v))
    {
      AcquiredLeaf(m0, g0, m1, g1, nsid, slot, osid, v);
      UnmapOwner(m0, g0, osid, v);
    }
  }

  /** The physical page that user code reaches at vpn, or 0. */
  function UserPage(m: Mem, g: Ledger, sid: nat, vpn: nat): nat {
    var pte := Leaf(m, g, sid, vpn);
    if vpn < MAXVPN && IsValid(pte) && PteFlags(pte) / PTE_U % 2 == 1 then PtePage(pte) else 0
  }

  /** User code can use all of the first k pages. */
  ghost predicate UserReady(m: Mem, g: Ledger, sid: nat, k: nat) {
    k <= TRAPFRAME && forall v: nat :: v < k ==> UserPage(m, g, sid, v) != 0
  }

  lemma LeafAt(m: Mem, g: Ledger, sid: nat, vpn: nat, t: nat)
    requires Inv(m, g, {}) && (t == 0 <==> LeafTable(sid, vpn) !in g.at) && (t != 0 ==> t == g.at[LeafTable(sid, vpn)])
    ensures t == 0 ==> Leaf(m, g, sid, vpn) == 0 && !IsValid(Leaf(m, g, sid, vpn))
    ensures t != 0 ==> t in m.pages && |m.pages[t]| == NPTE && Leaf(m, g, sid, vpn) == m.pages[t][vpn % NPTE]
  {
    hide FreeOk, TreeOk, LeavesOk;
  }

  lemma SameRefl(m: Mem, g: Ledger)
    ensures SameLeaves(m, g, m, g)
  {
  }

  lemma PageOfSegment(va: nat, i: nat)
    requires va % PGSIZE == 0
    ensures (va + i * PGSIZE) / PGSIZE == va / PGSIZE + i
  {
  }

  lemma ReadySame(m: Mem, g: Ledger, m': Mem, g': Ledger, sid: nat, k: nat)
    requires UserReady(m, g, sid, k) && SameLeaves(m, g, m', g')
    ensures UserReady(m', g', sid, k)
  {
    hide Leaf, IsValid, PteFlags, PtePage;
    forall v: nat | v < k
      ensures UserPage(m', g', sid, v) != 0
    {
      assert UserPage(m, g, sid, v) != 0;
    }
  }

  lemma ReadyPage(m: Mem, g: Ledger, sid: nat, k: nat, v: nat)
    requires UserReady(m, g, sid, k) && v < k
    ensures UserPage(m, g, sid, v) != 0 && v < TRAPFRAME
  {
    hide UserPage;
  }

  lemma UserOwned(m: Mem, g: Ledger, sid: nat, v: nat)
    requires Inv(m, g, {}) && UserPage(m, g, sid, v) != 0 && v < TRAPFRAME
    ensures var p := UserPage(m, g, sid, v); p in g.own && g.own[p] == User(sid, v) && p in m.pages
  {
    hide Leaf, FreeOk, TreeOk, LeavesOk, TablesOk, PtePage, PteFlags;
    ZeroInvalid();
    UnmapOwner(m, g, sid, v);
  }

  lemma LoadPage(m: Mem, g: Ledger, sid: nat, v: nat, p: nat, page: Page)
    requires Inv(m, g, {}) && p == UserPage(m, g, sid, v) && p != 0 && v < TRAPFRAME && |page| == NPTE
    ensures p in m.pages && p in g.own && g.own[p] == User(sid, v)
    ensures var m' := Mem(m.pages[p := page], m.head);
      Inv(m', g, {}) && SameLeaves(m, g, m', g) && Local(m, g, m', g, sid)
    ensures Leaf(m, g, sid, v) != 0 && p == PtePage(Leaf(m, g, sid, v))
  {
    UserLeaf(m, g, sid, v);
    hide Inv, Leaf, UserPage, SameEntries;
    UserOwned(m, g, sid, v);
    WriteInv(m, g, {}, p, page);
    LeafSame(m, g, Mem(m.pages[p := page], m.head), g);
  }

  lemma UserLeaf(m: Mem, g: Ledger, sid: nat, v: nat)
    requires UserPage(m, g, sid, v) != 0
    ensures Leaf(m, g, sid, v) != 0 && UserPage(m, g, sid, v) == PtePage(Leaf(m, g, sid, v))
  {
    hide Leaf, PtePage, PteFlags;
    ZeroInvalid();
  }

  lemma NotZero(m: Mem, g: Ledger)
    requires Inv(m, g, {})
    ensures 0 !in m.pages
  {
    hide FreeOk, TreeOk, LeavesOk, TablesOk;
  }

  lemma PermBits(flags: nat)
    ensures var x := FlagsToPerm(flags); x == 0 || x == PTE_W || x == PTE_X || x == PTE_W + PTE_X
  {
  }

  lemma NothingReady(m: Mem, g: Ledger, sid: nat, segs: seq<Segment>)
    ensures PageCount(0) == 0 && SizeAfter(segs, 0) == 0
    ensures UserReady(m, g, sid, PageCount(0)) && Shows(m, g, sid, PageCount(0), segs, 0)
  {
    assert PageCount(0) == 0;
  }

  /** A header that is not to be loaded is passed over. */
  lemma NotLoaded(m: Mem, g: Ledger, sid: nat, k: nat, segs: seq<Segment>, n: nat)
    requires n < |segs| && !segs[n].load && Shows(m, g, sid, k, segs, n)
    ensures SizeAfter(segs, n + 1) == SizeAfter(segs, n) && Shows(m, g, sid, k, segs, n + 1)
  {
    hide ViewAt;
  }

  /** uvmalloc() keeps the pages that were there and adds zeroed ones. */
  lemma ViewsAlloc(m: Mem, g: Ledger, m': Mem, g': Ledger, p: Proc, sid: nat, newsz: nat, r: nat, xperm: nat)
    requires Inv(m, g, {}) && UserMapped(m, g, sid, PageCount(p.sz)) && r != 0
    requires newsz < p.sz ==> r == p.sz && m' == m && g' == g
    requires newsz >= p.sz && r == newsz ==>
      && Filling(m, g, m', g', sid, PageCount(p.sz), PageCount(newsz))
      && ZeroPages(m', g', sid, PageCount(p.sz), PageCount(newsz), PTE_V + PTE_R + PTE_U + xperm)
    requires newsz >= p.sz && r != newsz ==> r == 0
    ensures SameViews(m, g, m', g', sid, PageCount(p.sz))
    ensures ZeroPages(m', g', sid, PageCount(p.sz), PageCount(r), PTE_V + PTE_R + PTE_U + xperm)
  {
    hide Inv, Leaf, PageCount, UserMapped, Filling, ViewAt, ZeroPage;
    if newsz >= p.sz {
      ViewsFilled(m, g, m', g', sid, PageCount(p.sz), PageCount(newsz));
    }
  }

  /** The stack is above the program, which keeps its pages. */
  lemma StackViews(m0: Mem, g0: Ledger, m1: Mem, g: Ledger, m2: Mem, sid: nat, k: nat)
    requires Inv(m0, g0, {}) && Inv(m1, g, {}) && Inv(m2, g, {}) && UserMapped(m0, g0, sid, k) && UserMapped(m1, g, sid, k + 2)
    requires Filling(m0, g0, m1, g, sid, k, k + 2) && OneLeaf(m1, g, m2, g, sid, k, WithoutUser(Leaf(m1, g, sid, k)))
    requires forall q :: q in m2.pages && q in g.own && !OwnTable(g.own[q], sid) ==> q in m1.pages && m2.pages[q] == m1.pages[q]
    ensures SameViews(m0, g0, m2, g, sid, k)
  {
    hide Inv, Leaf, UserMapped, Filling, OneLeaf, ViewAt, OwnTable;
    ViewsFilled(m0, g0, m1, g, sid, k, k + 2);
    ViewsCleared(m1, m2, g, sid, k, k + 2, WithoutUser(Leaf(m1, g, sid, k)));
  }

  /** Either outcome of uvmalloc() leaves a space in order. */
  lemma SpaceAlloc(m: Mem, g: Ledger, m': Mem, g': Ledger, p: Proc, sid: nat, newsz: nat, r: nat, xperm: nat)
    requires SpaceOk(m, g, p, sid) && NoneHeld(g) && Inv(m', g', {})
    requires xperm == 0 || xperm == PTE_W || xperm == PTE_X || xperm == PTE_W + PTE_X
    requires newsz < p.sz ==> r == p.sz && m' == m && g' == g
    requires newsz >= p.sz && r == newsz ==>
      && Filling(m, g, m', g', sid, PageCount(p.sz), PageCount(newsz)) && UserMapped(m', g', sid, PageCount(newsz))
      && ZeroPages(m', g', sid, PageCount(p.sz), PageCount(newsz), PTE_V + PTE_R + PTE_U + xperm)
    requires newsz >= p.sz && r != newsz ==> r == 0 && SameLeaves(m, g, m', g') && Grown(m, g, m', g', sid)
    ensures NoneHeld(g') && Local(m, g, m', g', sid) && SpaceOk(m', g', p.(sz := if r == 0 then p.sz else r), sid)
    ensures r != 0 && UserReady(m, g, sid, PageCount(p.sz)) ==> UserReady(m', g', sid, PageCount(r))
  {
    hide Inv, Leaf, NoneHeld, SpaceOk, PageCount, UserMapped, UserReady, Grown, SameLeaves, Filling, ZeroPages, Local;
    LocalRefl(m, g, sid);
    assert p.(sz := p.sz) == p;
    if newsz >= p.sz {
      if r == newsz {
        FillingHeld(m, g, m', g', sid, PageCount(p.sz), PageCount(newsz));
        SpaceFilled(m, g, m', g', p, sid, PageCount(p.sz), newsz);
        if UserReady(m, g, sid, PageCount(p.sz)) {
          ReadyMore(m, g, m', g', sid, PageCount(p.sz), PageCount(newsz), xperm);
        }
      } else {
        GrownHeld(m, g, m', g', sid);
        SpaceSame(m, g, m', g', p, sid);
      }
    }
  }

  lemma ReadyMore(m: Mem, g: Ledger, m': Mem, g': Ledger, sid: nat, k0: nat, k: nat, xperm: nat)
    requires UserReady(m, g, sid, k0) && Filling(m, g, m', g', sid, k0, k) && UserMapped(m', g', sid, k) && Inv(m', g', {})
    requires xperm == 0 || xperm == PTE_W || xperm == PTE_X || xperm == PTE_W + PTE_X
    requires ZeroPages(m', g', sid, k0, k, PTE_V + PTE_R + PTE_U + xperm)
    ensures UserReady(m', g', sid, k)
  {
    hide Inv, Leaf, IsValid, PteFlags, PtePage, FillingPages;
    NotZero(m', g');
    forall v: nat | v < k
      ensures UserPage(m', g', sid, v) != 0
    {
      if v < k0 {
        assert UserPage(m, g, sid, v) != 0;
      } else {
        ValidLeaf(m', g', sid, v);
        UserFlag(xperm);
      }
    }
  }

  lemma UserFlag(xperm: nat)
    requires xperm == 0 || xperm == PTE_W || xperm == PTE_X || xperm == PTE_W + PTE_X
    ensures (PTE_V + PTE_R + PTE_U + xperm) / PTE_U % 2 == 1
  {
  }

  lemma ValidLeaf(m: Mem, g: Ledger, sid: nat, v: nat)
    requires Inv(m, g, {}) && Leaf(m, g, sid, v) != 0
    ensures IsValid(Leaf(m, g, sid, v)) && IsLeaf(Leaf(m, g, sid, v))
  {
    hide Leaf, FreeOk, TreeOk, LeavesOk, TablesOk, PagesOk;
    UnmapOwner(m, g, sid, v);
  }

  lemma SegmentInside(vaddr: nat, memsz: nat, filesz: nat, sz: nat)
    requires vaddr % PGSIZE == 0 && filesz <= memsz && vaddr + memsz <= sz
    ensures vaddr / PGSIZE + PageCount(filesz % 0x1_0000_0000) <= PageCount(sz)
  {
    assert filesz % 0x1_0000_0000 <= filesz;
  }

  lemma ReadyLess(m: Mem, g: Ledger, sid: nat, k: nat, k': nat)
    requires UserReady(m, g, sid, k') && k <= k'
    ensures UserReady(m, g, sid, k)
  {
    hide UserPage;
  }

  lemma SpaceEqual(m: Mem, g: Ledger, m': Mem, g': Ledger, p: Proc, sid: nat)
    requires SpaceOk(m, g, p, sid) && SameLeaves(m, g, m', g') && g'.at == g.at
    ensures SpaceOk(m', g', p, sid)
  {
    hide Leaf, PageCount, Pte;
  }

  lemma CountUp(k: nat)
    ensures PageCount(k * PGSIZE) == k && PageCount(k * PGSIZE + 2 * PGSIZE) == k + 2
    ensures k * PGSIZE + 2 * PGSIZE == (k + 2) * PGSIZE && (k * PGSIZE + 2 * PGSIZE - 2 * PGSIZE) / PGSIZE == k
  {
  }

  lemma SpaceRounded(m: Mem, g: Ledger, p: Proc, sid: nat, sz: nat)
    requires SpaceOk(m, g, p, sid) && PageCount(sz) == PageCount(p.sz)
    ensures SpaceOk(m, g, p.(sz := sz), sid)
  {
    hide Leaf, PageCount, Pte;
  }

  /** The last page is the user's stack, readable and writable, the one below it is out
      of bounds, and all others can be used. */
  ghost predicate Guarded(m: Mem, g: Ledger, sid: nat, k: nat) {
    && 2 <= k <= TRAPFRAME
    && (forall v: nat :: v < k ==> (UserPage(m, g, sid, v) == 0 <==> v == k - 2))
    && PteFlags(Leaf(m, g, sid, k - 1)) == PTE_V + PTE_R + PTE_W + PTE_U
    && PteFlags(Leaf(m, g, sid, k - 2)) == PTE_V + PTE_R + PTE_W
  }

  /** The space holds the program, page by page, and above it the guarded stack. */
  ghost predicate Executable(m: Mem, g: Ledger, sid: nat, segs: seq<Segment>, sz: nat) {
    var k := PageCount(SizeAfter(segs, |segs|));
    && (forall i :: 0 <= i < |segs| ==> !segs[i].Bad(SizeAfter(segs, i)))
    && sz == (k + 2) * PGSIZE && PageCount(sz) == k + 2
    && Guarded(m, g, sid, k + 2)
    && Shows(m, g, sid, k, segs, |segs|)
  }

  /** The program in memory, page by page and without reference to how it got there: a
      page of it can be read by the user, executed and written as the first segment that
      reaches it says, and holds what the last segment that covers it has there, or zeros. */
  lemma ProgramPage(m: Mem, g: Ledger, sid: nat, segs: seq<Segment>, sz: nat, v: nat)
    requires Executable(m, g, sid, segs, sz) && (forall i :: 0 <= i < |segs| ==> segs[i].Fits()) && v + 2 < PageCount(sz)
    ensures exists i: nat :: FirstReaching(segs, |segs|, i, v)
    ensures forall i: nat :: FirstReaching(segs, |segs|, i, v) ==>
      var pte := Leaf(m, g, sid, v);
      && pte / PTE_V % 2 == 1 && pte / PTE_R % 2 == 1 && pte / PTE_U % 2 == 1
      && (pte / PTE_X % 2 == 1 <==> segs[i].flags % 2 == 1)
      && (pte / PTE_W % 2 == 1 <==> segs[i].flags / 2 % 2 == 1)
    ensures PtePage(Leaf(m, g, sid, v)) in m.pages
    ensures forall i: nat :: LastCovering(segs, |segs|, i, v) ==>
      m.pages[PtePage(Leaf(m, g, sid, v))] == segs[i].image[v - segs[i].vaddr / PGSIZE]
    ensures (forall j :: 0 <= j < |segs| && segs[j].load ==> !segs[j].Covers(v)) ==>
      forall w :: 0 <= w < NPTE ==> |m.pages[PtePage(Leaf(m, g, sid, v))]| == NPTE && m.pages[PtePage(Leaf(m, g, sid, v))][w] == 0
  {
    hide Leaf, PageCount, SizeAfter, Image, Guarded, Filled, PtePage, PteFlags;
    assert ViewAt(m, g, sid, v) == Image(segs, |segs|, v);
    SomeFirst(segs, |segs|, v);
    ImagePage(segs, |segs|, v);
    PageThere(segs, |segs|, v);
    forall i: nat | FirstReaching(segs, |segs|, i, v)
      ensures var pte := Leaf(m, g, sid, v);
        && pte / PTE_V % 2 == 1 && pte / PTE_R % 2 == 1 && pte / PTE_U % 2 == 1
        && (pte / PTE_X % 2 == 1 <==> segs[i].flags % 2 == 1)
        && (pte / PTE_W % 2 == 1 <==> segs[i].flags / 2 % 2 == 1)
    {
      ImageFlags(segs, |segs|, i, v);
      FlagBits(Leaf(m, g, sid, v), segs[i].flags % 2 == 1, segs[i].flags / 2 % 2 == 1);
    }
  }

  lemma FlagBits(pte: nat, x: bool, w: bool)
    requires PteFlags(pte) == PTE_V + PTE_R + PTE_U + (if x then PTE_X else 0) + (if w then PTE_W else 0)
    ensures pte / PTE_V % 2 == 1 && pte / PTE_R % 2 == 1 && pte / PTE_U % 2 == 1
    ensures (pte / PTE_X % 2 == 1 <==> x) && (pte / PTE_W % 2 == 1 <==> w)
  {
    hide PteFlags;
    var f, q := PteFlags(pte), pte / 1024;
    PteParts(pte);
    FlagValues(f, x, w);
    LowBit(q, f, 1, 512);
    LowBit(q, f, 2, 256);
    LowBit(q, f, 4, 128);
    LowBit(q, f, 8, 64);
    LowBit(q, f, 16, 32);
  }

  lemma PteParts(pte: nat)
    ensures pte == 1024 * (pte / 1024) + PteFlags(pte)
  {
  }

  lemma FlagValues(f: nat, x: bool, w: bool)
    requires f == PTE_V + PTE_R + PTE_U + (if x then PTE_X else 0) + (if w then PTE_W else 0)
    ensures f / 1 % 2 == 1 && f / 2 % 2 == 1 && f / 16 % 2 == 1 && (f / 8 % 2 == 1 <==> x) && (f / 4 % 2 == 1 <==> w)
  {
    assert f == 19 || f == 23 || f == 27 || f == 31;
  }

  /** Multiples of 1024 do not show in the low bits. */
  lemma LowBit(q: nat, f: nat, d: nat, k: nat)
    requires d > 0 && 1024 == d * (2 * k)
    ensures (1024 * q + f) / d % 2 == f / d % 2
  {
    var h := f / d;
    assert f == d * h + f % d;
    assert 1024 * q == d * (2 * k * q);
    assert 1024 * q + f == d * (2 * k * q + h) + f % d;
    DivUnique(d, 2 * k * q + h, f % d);
    Parity(k * q, h);
    assert 2 * k * q == 2 * (k * q);
  }

  lemma Parity(m: nat, h: nat)
    ensures (2 * m + h) % 2 == h % 2
  {
  }

  /** Why exec() gives up on a file with a good header: one of the segments, or too
      few free pages. */
  ghost predicate Refused(segs: seq<Segment>, free: nat) {
    || (exists i :: 0 <= i < |segs| && segs[i].Bad(SizeAfter(segs, i)))
    || free <= 11 + 3 * PageCount(SizeAfter(segs, |segs|))
  }

  lemma GuardPage(m: Mem, g: Ledger, sid: nat, k0: nat, k: nat)
    requires UserMapped(m, g, sid, k) && k == k0 + 2
    requires ZeroPages(m, g, sid, k0, k, PTE_V + PTE_R + PTE_U + PTE_W)
    ensures Leaf(m, g, sid, k0) != 0 && k0 < MAXVPN
    ensures PteFlags(Leaf(m, g, sid, k - 1)) == PteFlags(Leaf(m, g, sid, k - 2)) == PTE_V + PTE_R + PTE_W + PTE_U
  {
    hide Leaf, PteFlags;
    assert ZeroPage(m, Leaf(m, g, sid, k - 1), PTE_V + PTE_R + PTE_U + PTE_W);
    assert ZeroPage(m, Leaf(m, g, sid, k - 2), PTE_V + PTE_R + PTE_U + PTE_W);
  }

  lemma AfterClear(m0: Mem, g0: Ledger, m1: Mem, g: Ledger, m2: Mem, p: Proc, sid: nat, k: nat)
    requires Local(m0, g0, m1, g, sid) && SpaceOk(m1, g, p, sid) && k == PageCount(p.sz) && 2 <= k
    requires Inv(m1, g, {}) && Inv(m2, g, {}) && UserReady(m1, g, sid, k)
    requires PteFlags(Leaf(m1, g, sid, k - 1)) == PteFlags(Leaf(m1, g, sid, k - 2)) == PTE_V + PTE_R + PTE_W + PTE_U
    requires OneLeaf(m1, g, m2, g, sid, k - 2, WithoutUser(Leaf(m1, g, sid, k - 2)))
    requires forall q :: q in m2.pages && q in g.own && !OwnTable(g.own[q], sid) ==> q in m1.pages && m2.pages[q] == m1.pages[q]
    ensures Local(m0, g0, m2, g, sid) && SpaceOk(m2, g, p, sid) && Guarded(m2, g, sid, k)
  {
    hide Inv, Leaf, PageCount, Pte, UserReady, Local, WithoutUser, Guarded;
    ClearedLocal(m1, m2, g, sid);
    LocalTransitive(m0, g0, m1, g, m2, g, sid);
    ReadyLeaf(m1, g, sid, k, k - 2);
    WithoutUserSame(Leaf(m1, g, sid, k - 2));
    ZeroInvalid();
    GuardedNow(m1, g, m2, sid, k);
  }

  lemma ClearedLocal(m: Mem, m': Mem, g: Ledger, sid: nat)
    requires Inv(m, g, {}) && Inv(m', g, {})
    requires forall q :: q in m'.pages && q in g.own && !OwnTable(g.own[q], sid) ==> q in m.pages && m'.pages[q] == m.pages[q]
    ensures Local(m, g, m', g, sid)
  {
    hide FreeOk, TreeOk, LeavesOk, TablesOk;
  }

  lemma ReadyLeaf(m: Mem, g: Ledger, sid: nat, k: nat, v: nat)
    requires UserReady(m, g, sid, k) && v < k && Inv(m, g, {})
    ensures Leaf(m, g, sid, v) != 0 && IsValid(Leaf(m, g, sid, v)) && IsLeaf(Leaf(m, g, sid, v)) && v < TRAPFRAME
    ensures PteFlags(Leaf(m, g, sid, v)) / PTE_U % 2 == 1
  {
    hide Inv, Leaf, PteFlags, PtePage;
    assert UserPage(m, g, sid, v) != 0;
    ZeroInvalid();
    ValidLeaf(m, g, sid, v);
  }

  lemma GuardedNow(m: Mem, g: Ledger, m': Mem, sid: nat, k: nat)
    requires UserReady(m, g, sid, k) && Inv(m, g, {}) && 2 <= k
    requires PteFlags(Leaf(m, g, sid, k - 1)) == PteFlags(Leaf(m, g, sid, k - 2)) == PTE_V + PTE_R + PTE_W + PTE_U
    requires OneLeaf(m, g, m', g, sid, k - 2, WithoutUser(Leaf(m, g, sid, k - 2)))
    ensures Guarded(m', g, sid, k)
  {
    hide Inv, Leaf, PteFlags, PtePage, WithoutUser;
    forall v: nat | v < k
      ensures UserPage(m', g, sid, v) == 0 <==> v == k - 2
    {
      assert UserPage(m, g, sid, v) != 0;
      ReadyLeaf(m, g, sid, k, v);
      WithoutUserSame(Leaf(m, g, sid, v));
      BitGone(PteFlags(Leaf(m, g, sid, v)));
    }
    ReadyLeaf(m, g, sid, k, k - 2);
    WithoutUserSame(Leaf(m, g, sid, k - 2));
  }

  lemma BitGone(f: nat)
    requires f / PTE_U % 2 == 1
    ensures f >= PTE_U && (f - PTE_U) / PTE_U % 2 == 0
  {
    assert (f - 16) / 16 == f / 16 - 1;
  }

  /** The program is in memory, so there is memory for it. */
  lemma WholeFiles(m: Mem, g: Ledger, m': Mem, g': Ledger, p: Proc, sid: nat, segs: seq<Segment>)
    requires Local(m, g, m', g', sid) && Inv(m', g', {}) && Scarce(g') && SpaceOk(m', g', p, sid)
    requires PageCount(p.sz) == PageCount(SizeAfter(segs, |segs|)) + 2
    requires forall i :: 0 <= i < |segs| ==> !segs[i].Bad(SizeAfter(segs, i))
    ensures |g.own| <= 0x10_0000 ==> forall i :: 0 <= i < |segs| && segs[i].load ==> segs[i].LoadSize() == segs[i].filesz
  {
    hide Leaf, PageCount, SizeAfter, FreeOk, TreeOk, LeavesOk, TablesOk;
    NeverFull(m', g', sid, PageCount(p.sz));
    assert g'.own.Keys == g.own.Keys;
    SubsetSize(g'.own.Keys, g.own.Keys);
    if |g.own| <= 0x10_0000 {
      forall i | 0 <= i < |segs| && segs[i].load
        ensures segs[i].LoadSize() == segs[i].filesz
      {
        NotCut(segs, i, |g.own|);
      }
    }
  }

  /** At the moment of the switch both spaces are complete. */
  lemma Swapped(m: Mem, g: Ledger, m': Mem, g': Ledger, procs: map<nat, Proc>, space: map<nat, nat>, next: nat, slot: nat, p: Proc)
    requires Ok(m, g, procs, space, next) && slot in procs && slot in space && Local(m, g, m', g', next) && Inv(m', g', {})
    requires SpaceOk(m', g', p, next) && p.trapframe == procs[slot].trapframe
    ensures ProcOk(m', g', procs[slot], space[slot], slot) && ProcOk(m', g', p, next, slot) && space[slot] != next
  {
    hide Inv, Local, SpaceOk, Accounted;
    ProcKept(m, g, m', g', next, procs[slot], space[slot], slot);
  }

  lemma Kept(m: Mem, g: Ledger, m': Mem, g': Ledger, sid: nat, p: Proc, s: nat, slot: nat, segs: seq<Segment>)
    requires Local(m, g, m', g', sid) && Inv(m, g, {}) && Inv(m', g', {}) && s != sid && ProcOk(m, g, p, s, slot)
    requires Executable(m, g, s, segs, p.sz)
    ensures SpaceOk(m', g', p, s) && Executable(m', g', s, segs, p.sz)
  {
    hide Inv, Local, SpaceOk, Guarded, PageCount, UserMapped, SameViews, Shows, SizeAfter;
    ProcKept(m, g, m', g', sid, p, s, slot);
    GuardKept(m, g, m', g', sid, s, PageCount(p.sz));
    SpaceIs(m, g, p, s);
    ViewsElsewhere(m, g, m', g', sid, s, PageCount(p.sz));
    ShowsStill(m, g, m', g', s, PageCount(SizeAfter(segs, |segs|)), PageCount(p.sz), segs, |segs|);
  }

  lemma GuardKept(m: Mem, g: Ledger, m': Mem, g': Ledger, sid: nat, s: nat, k: nat)
    requires Local(m, g, m', g', sid) && Inv(m, g, {}) && Inv(m', g', {}) && s != sid && Guarded(m, g, s, k)
    ensures Guarded(m', g', s, k)
  {
    hide Leaf, FreeOk, TreeOk, LeavesOk, IsValid, PteFlags, PtePage;
    forall v: nat
      ensures UserPage(m', g', s, v) == UserPage(m, g, s, v)
    {
      LocalLeaves(m, g, m', g', sid, s, v);
    }
    LocalLeaves(m, g, m', g', sid, s, k - 1);
    LocalLeaves(m, g, m', g', sid, s, k - 2);
  }
}
