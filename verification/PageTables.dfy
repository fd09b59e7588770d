/** kalloc.c and vm.c: the free list and the user page tables.

    A panic in the code is a precondition here: the caller must rule it out. */
module PageTables {
  import opened VmState
  import opened VmTree
  import opened VmSpace
  import opened VmFree

  class Vm {
    var pages: map<nat, Page>
    var head: nat
    ghost var g: Ledger

    ghost function State(): Mem
      reads this
    {
      Mem(pages, head)
    }

    ghost predicate Valid()
      reads this
    {
      Inv(State(), g, {}) && Scarce(g)
    }

    /** sid is the space whose root page is pt. */
    ghost predicate Space(pt: nat, sid: nat)
      reads this
    {
      Root(sid) in g.at && g.at[Root(sid)] == pt
    }

    // ---------------------------------------------------------------- kalloc.c

    constructor ()
      ensures State() == Mem(map[], 0) && g == Ledger([], map[], map[])
    {
      pages, head := map[], 0;
      g := Ledger([], map[], map[]);
    }

    /** kinit(): freerange() gives every page from lo to hi to kfree(). */
    method Kinit(lo: nat, hi: nat)
      requires State() == Mem(map[], 0) && g == Ledger([], map[], map[])
      requires 0 < lo <= hi && hi - lo < TRAPFRAME
      modifies `pages, `head, `g
      ensures Valid() && g.at == map[]
      ensures forall p :: p in g.own <==> lo <= p < hi
      ensures forall p :: p in g.own ==> g.own[p] == Free
    {
      hide Inv;
      NoPages(State(), g);
      var p := lo;
      while p < hi
        invariant lo <= p <= hi && g.at == map[]
        invariant Inv(State(), g, {})
        invariant forall q :: q in g.own <==> lo <= q < p
        invariant forall q :: q in g.own ==> g.own[q] == Free
      {
        AddPage(p);
        p := p + 1;
      }
      IntervalSize(g.own.Keys, lo, hi);
    }

    /** kfree() of a page that was not managed yet, as kinit() does. */
    method AddPage(p: nat)
      requires Inv(State(), g, {}) && g.at == map[] && p !in g.own && p > 0
      requires forall q :: q in g.own ==> g.own[q] == Free
      modifies `pages, `head, `g
      ensures Inv(State(), g, {}) && g.at == map[] && g.own == old(g.own)[p := Free]
    {
      hide Inv, FreeOk, PagesOk, TreeOk, LeavesOk, TablesOk, Filled;
      ghost var m0, g0 := State(), g;
      var page := Filled(JUNK_FREED);
      FirstFree(m0, g0, p, page);
      pages := pages[p := page];
      g := g.(own := g.own[p := Held]);
      GiveInv(State(), g, {}, p);
      Kfree(p);
      g := GivenBy(g, p);
      assert g.own == g0.own[p := Free];
    }

    method Kfree(p: nat)
      requires p in pages
      modifies `pages, `head
      ensures State() == Given(old(State()), p)
    {
      var page := Filled(JUNK_FREED);
      pages := pages[p := page[0 := head]];
      head := p;
    }

    method Kalloc() returns (p: nat)
      requires PagesOk(State(), g) && FreeOk(State(), g)
      modifies `pages, `head, `g
      ensures p == old(head) && (p == 0 <==> old(g.free) == [])
      ensures p == 0 ==> State() == old(State()) && g == old(g)
      ensures p != 0 ==> p in old(pages) && |old(pages)[p]| == NPTE
      ensures p != 0 ==> State() == Taken(old(State())) && g == TakenBy(old(g))
    {
      FreeHead(State(), g);
      p := head;
      if p != 0 {
        TakeFree(State(), g);
        head := pages[p][0];
        pages := pages[p := Filled(JUNK_TAKEN)];
        g := TakenBy(g);
      }
    }

    // -------------------------------------------------------------------- vm.c

    /** The allocating part of a turn of walk(). */
    method Hang(t: nat, i: nat, ghost n: Node) returns (p: nat)
      requires Inv(State(), g, {}) && n in g.at && g.at[n] == t && n.level > 0 && i < NPTE && n.Child(i) !in g.at
      modifies `pages, `head, `g
      ensures p == 0 ==> State() == old(State()) && g == old(g) && g.free == []
      ensures p != 0 ==> Inv(State(), g, {}) && SameLeaves(old(State()), old(g), State(), g)
      ensures p != 0 ==> Grown(old(State()), old(g), State(), g, n.sid)
      ensures p != 0 ==> n.Child(i) in g.at && g.at[n.Child(i)] == p && |g.free| + 1 == |old(g.free)|
    {
      hide Inv, Leaf, FreeOk, TreeOk, LeavesOk, Grown, SameLeaves, Pte, Filled, PagesOk, TablesOk;
      ghost var m1, g1 := State(), g;
      InvParts(m1, g1);
      p := Kalloc();
      if p != 0 {
        HangInv(m1, g1, n, i);
        pages := pages[p := Filled(0)];
        var page: Page := pages[t][i := Pte(p, PTE_V)];
        pages := pages[t := page];
        g := LinkedBy(g, n.Child(i), p);
        assert State() == Hung(m1, t, i);
        assert g == HungBy(g1, n.Child(i));
      }
    }

    /** walk(): the table page that holds the entry of vpn, or 0. */
    method Walk(pt: nat, vpn: nat, alloc: bool, ghost sid: nat) returns (t: nat)
      requires Valid() && Space(pt, sid) && vpn < MAXVPN
      modifies `pages, `head, `g
      ensures Valid() && Space(pt, sid)
      ensures SameLeaves(old(State()), old(g), State(), g) && Grown(old(State()), old(g), State(), g, sid)
      ensures t == 0 <==> LeafTable(sid, vpn) !in g.at
      ensures t != 0 ==> t == g.at[LeafTable(sid, vpn)] && t in pages && |pages[t]| == NPTE
      ensures !alloc ==> State() == old(State()) && g == old(g)
      ensures alloc && t == 0 ==> g.free == []
      ensures |g.free| + 2 >= |old(g).free|
    {
      hide Inv, Leaf, Grown, SameLeaves, LeafTable, PageIndex, IsValid, PtePage, Step, Scarce;
      ghost var m0, g0 := State(), g;
      GrownRefl(m0, g0, sid);
      StepStart(sid, vpn);
      t := pt;
      var level := 2;
      while level > 0
        invariant 0 <= level <= 2
        invariant Inv(State(), g, {}) && Scarce(g) && Space(pt, sid)
        invariant SameLeaves(m0, g0, State(), g) && Grown(m0, g0, State(), g, sid)
        invariant Step(sid, vpn, level) in g.at && g.at[Step(sid, vpn, level)] == t
        invariant !alloc ==> State() == m0 && g == g0
        invariant |g.free| + 2 - level >= |g0.free|
        decreases level
      {
        ghost var n, m1, g1 := Step(sid, vpn, level), State(), g;
        StepDown(sid, vpn, level);
        var i := PageIndex(vpn, level);
        WalkEntry(m1, g1, n, i);
        var pte := pages[t][i];
        if IsValid(pte) {
          t := PtePage(pte);
        } else {
          if !alloc {
            Missing(m1, g1, sid, vpn, level - 1);
            return 0;
          }
          t := Hang(t, i, n);
          if t == 0 {
            Missing(m1, g1, sid, vpn, level - 1);
            return 0;
          }
          GrownNext(m0, g0, m1, g1, State(), g, sid);
        }
        level := level - 1;
      }
      LeafStep(sid, vpn);
      TablePage(State(), g, LeafTable(sid, vpn));
    }

    /** mappages(): n pages are mapped, all of them or as many as there was room for
        tables. Remapping a page would be a panic. */
    method Mappages(pt: nat, va: nat, size: nat, ppn: nat, perm: nat, ghost sid: nat) returns (ok: bool, ghost n: nat)
      requires Valid() && Space(pt, sid) && size > 0 && (va + size - 1) / PGSIZE < MAXVPN
      requires perm < 1024 && IsLeaf(perm)
      requires forall v: nat :: va / PGSIZE <= v <= (va + size - 1) / PGSIZE ==> Leaf(State(), g, sid, v) == 0
      requires forall v: nat :: va / PGSIZE <= v <= (va + size - 1) / PGSIZE && !Special(v) ==>
        HeldPage(g, ppn + (v - va / PGSIZE))
      modifies `pages, `head, `g
      ensures Valid() && Space(pt, sid)
      ensures Mapped(old(State()), old(g), State(), g, sid, va / PGSIZE, n, ppn, WithValid(perm))
      ensures ok ==> n == (va + size - 1) / PGSIZE - va / PGSIZE + 1 && |g.free| + 2 * n >= |old(g.free)|
      ensures !ok ==> n <= (va + size - 1) / PGSIZE - va / PGSIZE && g.free == [] && 2 * n + 2 >= |old(g.free)|
    {
      hide Inv, Leaf, Grown, SameLeaves, LeafTable, IsValid, IsLeaf, Pte, WithValid, Scarce, Mapped, Special, HeldPage;
      ghost var m0, g0 := State(), g;
      var a, last := va / PGSIZE, (va + size - 1) / PGSIZE;
      ghost var first := a;
      var pa := ppn;
      n := 0;
      MappedNone(m0, g0, sid, first, ppn, WithValid(perm));
      Ordered(va, size);
      while true
        invariant first <= a <= last && n == a - first && pa == ppn + n
        invariant Inv(State(), g, {}) && Scarce(g) && Space(pt, sid)
        invariant Mapped(m0, g0, State(), g, sid, first, n, ppn, WithValid(perm))
        invariant |g.free| + 2 * n >= |g0.free|
        decreases last - a
      {
        ghost var m1, g1 := State(), g;
        var t := Walk(pt, a, true, sid);
        MappedWalk(m0, g0, m1, g1, State(), g, sid, first, n, ppn, WithValid(perm));
        if t == 0 {
          return false, n;
        }
        IsHeld(g0, ppn + n, a);
        MappedNext(m0, g0, State(), g, sid, first, n, ppn, perm);
        assert !IsValid(pages[t][a % NPTE]);
        var page: Page := pages[t][a % NPTE := Pte(pa, WithValid(perm))];
        pages := pages[t := page];
        g := MappedBy(g, sid, a, pa);
        n := n + 1;
        MappedRoot(m0, g0, State(), g, sid, first, n, ppn, WithValid(perm));
        if a == last {
          break;
        }
        a, pa := a + 1, pa + 1;
      }
      ok := true;
    }

    /** uvmunmap(): every page of the range must be mapped. */
    method Uvmunmap(pt: nat, va: nat, npages: nat, doFree: bool, ghost sid: nat)
      requires Valid() && Space(pt, sid) && va % PGSIZE == 0 && va / PGSIZE + npages <= MAXVPN
      requires forall v: nat :: va / PGSIZE <= v < va / PGSIZE + npages ==> Leaf(State(), g, sid, v) != 0 && (doFree ==> !Special(v))
      modifies `pages, `head, `g
      ensures Valid() && Space(pt, sid)
      ensures Unmapped(old(State()), old(g), State(), g, sid, va / PGSIZE, npages, if doFree then Free else Held)
    {
      hide Inv, Leaf, Grown, SameLeaves, LeafTable, IsValid, IsLeaf, PtePage, PteFlags, Scarce, Unmapped, Special, Filled;
      ghost var m0, g0 := State(), g;
      var first := va / PGSIZE;
      ghost var to := if doFree then Free else Held;
      UnmappedNone(m0, g0, sid, first, to);
      var a := first;
      while a < first + npages
        invariant first <= a <= first + npages
        invariant Inv(State(), g, {}) && Scarce(g) && Space(pt, sid)
        invariant Unmapped(m0, g0, State(), g, sid, first, a - first, to)
      {
        ghost var m1, g1 := State(), g;
        assert first + (a - first) == a;
        UnmappedAt(m0, g0, m1, g1, sid, first, a - first, to);
        var t := Walk(pt, a, false, sid);
        assert t != 0;
        var pte := pages[t][a % NPTE];
        assert IsValid(pte);
        LeafFlags(pte);
        assert PteFlags(pte) != PTE_V;
        if doFree {
          UnmappedFree(m0, g0, m1, g1, sid, first, a - first, t, pte);
          Kfree(PtePage(pte));
          g := GivenBy(g, PtePage(pte));
        } else {
          UnmappedKeep(m0, g0, m1, g1, sid, first, a - first, t, pte);
          g := UnmappedBy(g, a, PtePage(pte));
        }
        var page: Page := pages[t][a % NPTE := 0];
        pages := pages[t := page];
        a := a + 1;
        UnmappedRoot(m0, g0, State(), g, sid, first, a - first, to);
      }
    }

    /** mappages() for the one page k. */
    method MapPage(pt: nat, k: nat, p: nat, perm: nat, ghost sid: nat) returns (ok: bool)
      requires Valid() && Space(pt, sid) && k < MAXVPN && perm < 1024 && IsLeaf(perm)
      requires Leaf(State(), g, sid, k) == 0 && (!Special(k) ==> HeldPage(g, p))
      modifies `pages, `head, `g
      ensures Valid() && Space(pt, sid)
      ensures Mapped(old(State()), old(g), State(), g, sid, k, if ok then 1 else 0, p, WithValid(perm))
      ensures |g.free| + 2 >= |old(g.free)| && (!ok ==> g.free == [])
    {
      hide Inv, Leaf, Mapped, WithValid, IsLeaf, Scarce, HeldPage;
      OnePage(k);
      ghost var n;
      ok, n := Mappages(pt, k * PGSIZE, PGSIZE, p, perm, sid);
    }

    /** kalloc() and writing the page. */
    method TakePage(page: Page) returns (p: nat)
      requires Valid() && |page| == NPTE
      modifies `pages, `head, `g
      ensures Valid() && p == old(head)
      ensures p == 0 ==> State() == old(State()) && g == old(g) && g.free == []
      ensures p != 0 ==> p in old(g.own) && old(g.own)[p] == Free && p in old(pages) && |old(pages)[p]| == NPTE && old(g.free) != []
      ensures p != 0 ==> State() == Loaded(old(State()), page) && g == TakenBy(old(g)) && HeldPage(g, p)
      ensures p != 0 ==> g.own == old(g.own)[p := Held] && g.at == old(g.at) && |g.free| + 1 == |old(g.free)|
      ensures p != 0 ==> p in pages && pages[p] == page && SameLeaves(old(State()), old(g), State(), g)
      ensures p != 0 ==> forall q :: q in old(pages) && q != p ==> q in pages && pages[q] == old(pages)[q]
    {
      hide Inv, Leaf, FreeOk, PagesOk, TablesOk, TreeOk, LeavesOk, SameLeaves, Scarce, Filled;
      ghost var m1, g1 := State(), g;
      InvParts(m1, g1);
      p := Kalloc();
      if p != 0 {
        LoadedInv(m1, g1, page);
        pages := pages[p := page];
        ScarceKeys(g1, g);
      }
    }

    /** kfree() of a page that is not in any table. */
    method GiveBack(p: nat)
      requires Valid() && p in g.own && (g.own[p] == Held || g.own[p].Frame?)
      modifies `pages, `head, `g
      ensures Valid() && State() == Given(old(State()), p) && g == GivenBy(old(g), p)
      ensures SameLeaves(old(State()), old(g), State(), g)
    {
      hide Leaf, FreeOk, TablesOk, TreeOk, LeavesOk, SameLeaves, SameEntries, Scarce, Filled;
      ghost var m0, g0 := State(), g;
      GiveInv(m0, g0, {}, p);
      LeafSame(m0, g0, Given(m0, p), GivenBy(g0, p));
      SameLeavesIs(m0, g0, Given(m0, p), GivenBy(g0, p));
      Kfree(p);
      g := GivenBy(g, p);
      ScarceKeys(g0, g);
    }

    /** The sequence shared by uvmalloc() and uvmcopy(): kalloc(), write the page,
        mappages(), and kfree() if that fails. */
    method FillPage(pt: nat, k: nat, page: Page, perm: nat, ghost sid: nat) returns (p: nat)
      requires Valid() && Space(pt, sid) && k < TRAPFRAME && |page| == NPTE && perm < 1024 && IsLeaf(perm)
      requires Leaf(State(), g, sid, k) == 0
      modifies `pages, `head, `g
      ensures Valid() && Space(pt, sid)
      ensures p == 0 ==> Filling(old(State()), old(g), State(), g, sid, k, k) && |old(g.free)| <= 3
      ensures p != 0 ==> Filling(old(State()), old(g), State(), g, sid, k, k + 1) && |g.free| + 3 >= |old(g.free)|
      ensures p != 0 ==> Leaf(State(), g, sid, k) == Pte(p, WithValid(perm)) && p in pages && pages[p] == page
    {
      hide Inv, Leaf, SameLeaves, Mapped, WithValid, IsLeaf, Pte, Scarce, Filling, Given, Loaded;
      ghost var m1, g1 := State(), g;
      p := TakePage(page);
      if p == 0 {
        FillingNone(m1, g1, sid, k);
        return;
      }
      ghost var m2, g2 := State(), g;
      SameLeaf(m1, g1, m2, g2, sid, k);
      var ok := MapPage(pt, k, p, perm, sid);
      ghost var m3, g3 := State(), g;
      MappedPage(m2, g2, m3, g3, sid, k, if ok then 1 else 0, p, WithValid(perm));
      if !ok {
        GiveBack(p);
        FillFail(m1, g1, m2, g2, m3, g3, sid, k, p, WithValid(perm));
        p := 0;
      } else {
        FillStep(m1, g1, m2, g2, m3, g3, sid, k, p, WithValid(perm));
      }
    }

    /** uvmdealloc(): unmap and free the pages between the two sizes. */
    method Uvmdealloc(pt: nat, oldsz: nat, newsz: nat, ghost sid: nat) returns (r: nat)
      requires Valid() && Space(pt, sid) && UserMapped(State(), g, sid, PageCount(oldsz))
      modifies `pages, `head, `g
      ensures Valid() && Space(pt, sid)
      ensures newsz >= oldsz ==> r == oldsz && State() == old(State()) && g == old(g)
      ensures newsz < oldsz ==> r == newsz && PageCount(newsz) <= PageCount(oldsz)
      ensures newsz < oldsz ==>
        Unmapped(old(State()), old(g), State(), g, sid, PageCount(newsz), PageCount(oldsz) - PageCount(newsz), Free)
      ensures UserMapped(State(), g, sid, PageCount(r))
    {
      hide Inv, Leaf, Scarce, Unmapped, PageCount;
      if newsz >= oldsz {
        return oldsz;
      }
      ghost var m0, g0 := State(), g;
      CountMonotone(newsz, oldsz);
      var first, npages := PageCount(newsz), PageCount(oldsz) - PageCount(newsz);
      UnmappedNone(m0, g0, sid, first, Free);
      if npages > 0 {
        Aligned(first);
        Uvmunmap(pt, first * PGSIZE, npages, true, sid);
      }
      UserUnmapped(m0, g0, State(), g, sid, first, first + npages, Free);
      r := newsz;
    }

    /** uvmalloc(): all the pages or none. It asks nothing of newsz: memory runs out
        before user space reaches the trapframe. */
    method Uvmalloc(pt: nat, oldsz: nat, newsz: nat, xperm: nat, ghost sid: nat) returns (r: nat)
      requires Valid() && Space(pt, sid) && UserMapped(State(), g, sid, PageCount(oldsz))
      requires xperm == 0 || xperm == PTE_W || xperm == PTE_X || xperm == PTE_W + PTE_X
      modifies `pages, `head, `g
      ensures Valid() && Space(pt, sid)
      ensures newsz < oldsz ==> r == oldsz && State() == old(State()) && g == old(g)
      ensures newsz >= oldsz && r == newsz ==>
        && Filling(old(State()), old(g), State(), g, sid, PageCount(oldsz), PageCount(newsz))
        && ZeroPages(State(), g, sid, PageCount(oldsz), PageCount(newsz), PTE_V + PTE_R + PTE_U + xperm)
        && UserMapped(State(), g, sid, PageCount(newsz))
        && |g.free| + 3 * (PageCount(newsz) - PageCount(oldsz)) >= |old(g.free)|
      ensures newsz >= oldsz && r != newsz ==>
        && r == 0 && SameLeaves(old(State()), old(g), State(), g) && Grown(old(State()), old(g), State(), g, sid)
        && |old(g.free)| <= 3 * (PageCount(newsz) - PageCount(oldsz))
    {
      hide Inv, Leaf, Scarce, Unmapped, Filling, Filled, PageCount, WithValid, IsLeaf, ZeroPages, Pte, Grown, SameLeaves;
      if newsz < oldsz {
        return oldsz;
      }
      ghost var m0, g0, k0 := State(), g, PageCount(oldsz);
      FillingNone(m0, g0, sid, k0);
      NoZeroPages(m0, g0, sid, k0, PTE_V + PTE_R + PTE_U + xperm);
      UserPerm(xperm);
      CountMonotone(oldsz, newsz);
      var a := PageCount(oldsz);
      while a * PGSIZE < newsz
        invariant k0 <= a <= PageCount(newsz)
        invariant Inv(State(), g, {}) && Scarce(g) && Space(pt, sid)
        invariant UserMapped(State(), g, sid, a) && Filling(m0, g0, State(), g, sid, k0, a)
        invariant ZeroPages(State(), g, sid, k0, a, PTE_V + PTE_R + PTE_U + xperm)
        invariant |g.free| + 3 * (a - k0) >= |g0.free|
        decreases newsz - a * PGSIZE
      {
        ghost var m1, g1 := State(), g;
        CountNext(a, newsz);
        RoomLeft(m1, g1, sid, a);
        var p := FillPage(pt, a, Filled(0), PTE_R + PTE_U + xperm, sid);
        if p == 0 {
          FillingNext(m0, g0, m1, g1, State(), g, sid, k0, a, a);
          UserFilled(m1, g1, State(), g, sid, a, a);
          ghost var m2, g2 := State(), g;
          CountExact(a, k0);
          r := Uvmdealloc(pt, a * PGSIZE, PageCount(oldsz) * PGSIZE, sid);
          FillBack(m0, g0, m2, g2, State(), g, sid, k0, a);
          return 0;
        }
        FillingNext(m0, g0, m1, g1, State(), g, sid, k0, a, a + 1);
        UserFilled(m1, g1, State(), g, sid, a, a + 1);
        ZeroWritten(State(), g, sid, a, p, PTE_R + PTE_U + xperm);
        ZeroNext(m1, g1, State(), g, sid, k0, a, PTE_V + PTE_R + PTE_U + xperm);
        a := a + 1;
      }
      CountEnd(a, newsz);
      r := newsz;
    }

    /** uvmcopy(): a copy of every page, with its permissions, or nothing. */
    method Uvmcopy(old_: nat, new_: nat, sz: nat, ghost osid: nat, ghost nsid: nat) returns (ok: bool)
      requires Valid() && Space(old_, osid) && Space(new_, nsid) && osid != nsid
      requires UserMapped(State(), g, osid, PageCount(sz)) && UserMapped(State(), g, nsid, 0)
      modifies `pages, `head, `g
      ensures Valid() && Space(old_, osid) && Space(new_, nsid)
      ensures ok ==> Filling(old(State()), old(g), State(), g, nsid, 0, PageCount(sz))
      ensures ok ==> CopyOf(old(State()), old(g), State(), g, osid, nsid, PageCount(sz))
      ensures ok ==> UserMapped(State(), g, nsid, PageCount(sz))
      ensures !ok ==> SameLeaves(old(State()), old(g), State(), g) && Grown(old(State()), old(g), State(), g, nsid)
      ensures !ok ==> |old(g.free)| <= 3 * PageCount(sz)
    {
      hide Inv, Leaf, Scarce, Unmapped, Filling, PageCount, WithValid, IsLeaf, IsValid, Pte, PtePage, PteFlags, Grown, SameLeaves, CopyOf, LeafTable, SamePage;
      ghost var m0, g0 := State(), g;
      FillingNone(m0, g0, nsid, 0);
      NoCopies(m0, g0, osid, nsid);
      var i := 0;
      CountMonotone(0, sz);
      while i * PGSIZE < sz
        invariant 0 <= i <= PageCount(sz)
        invariant Inv(State(), g, {}) && Scarce(g) && Space(old_, osid) && Space(new_, nsid)
        invariant UserMapped(State(), g, nsid, i) && Filling(m0, g0, State(), g, nsid, 0, i)
        invariant CopyOf(m0, g0, State(), g, osid, nsid, i)
        invariant |g.free| + 3 * i >= |g0.free|
        decreases sz - i * PGSIZE
      {
        ghost var m1, g1 := State(), g;
        CountNext(i, sz);
        CopySource(m0, g0, m1, g1, osid, nsid, i, PageCount(sz));
        RoomLeft(m1, g1, nsid, i);
        var t := Walk(old_, i, false, osid);
        assert t != 0;
        var pte := pages[t][i % NPTE];
        assert IsValid(pte);
        var p := FillPage(new_, i, pages[PtePage(pte)], PteFlags(pte), nsid);
        FillingSpace(m1, g1, State(), g, nsid, i, if p == 0 then i else i + 1, osid);
        if p == 0 {
          FillingNext(m0, g0, m1, g1, State(), g, nsid, 0, i, i);
          UserFilled(m1, g1, State(), g, nsid, i, i);
          ghost var m2, g2 := State(), g;
          UserPages(m2, g2, nsid, i);
          Uvmunmap(new_, 0, i, true, nsid);
          UnmappedRoot(m2, g2, State(), g, nsid, 0, i, Free);
          CopyBack(m0, g0, m2, g2, State(), g, nsid, i);
          return false;
        }
        FillingNext(m0, g0, m1, g1, State(), g, nsid, 0, i, i + 1);
        UserFilled(m1, g1, State(), g, nsid, i, i + 1);
        PageCopied(m0, g0, m1, State(), g, osid, nsid, i, pte, p);
        CopyNext(m0, g0, m1, g1, State(), g, osid, nsid, i);
        i := i + 1;
      }
      CountEnd(i, sz);
      ok := true;
    }

    /** uvmcreate(): sid is the name of the new space. */
    method Uvmcreate(ghost sid: nat) returns (pt: nat)
      requires Valid() && forall n :: n in g.at ==> n.sid != sid
      modifies `pages, `head, `g
      ensures Valid()
      ensures pt == 0 ==> State() == old(State()) && g == old(g) && g.free == []
      ensures pt != 0 ==> Space(pt, sid) && NoLeaves(State(), g, sid) && |g.free| + 1 == |old(g.free)|
      ensures pt != 0 ==> SameLeaves(old(State()), old(g), State(), g) && Grown(old(State()), old(g), State(), g, sid)
    {
      hide Inv, Leaf, Scarce, SameLeaves, Filled, NoLeaves;
      ghost var m0, g0 := State(), g;
      pt := TakePage(Filled(0));
      if pt != 0 {
        ghost var g1 := g;
        RootInv(State(), g, sid, pt);
        g := LinkedBy(g, Root(sid), pt);
        ScarceKeys(g1, g);
        SameTwice(m0, g0, State(), g1, State(), g);
      }
    }

    /** uvmclear(): user code may no longer use the page. */
    method Uvmclear(pt: nat, va: nat, ghost sid: nat)
      requires Valid() && Space(pt, sid) && va / PGSIZE < MAXVPN && Leaf(State(), g, sid, va / PGSIZE) != 0
      modifies `pages, `head, `g
      ensures Valid() && Space(pt, sid) && g == old(g)
      ensures OneLeaf(old(State()), old(g), State(), g, sid, va / PGSIZE, WithoutUser(Leaf(old(State()), old(g), sid, va / PGSIZE)))
      ensures forall p :: p in pages && p in g.own && !OwnTable(g.own[p], sid) ==> p in old(pages) && pages[p] == old(pages)[p]
    {
      hide Inv, Leaf, Scarce, WithoutUser, OneLeaf, IsLeaf, PtePage, Grown, SameLeaves;
      ghost var m0, v := State(), va / PGSIZE;
      LeafFacts(m0, g, sid, v);
      var t := Walk(pt, va / PGSIZE, false, sid);
      assert t != 0;
      var pte := pages[t][va / PGSIZE % NPTE];
      WithoutUserSame(pte);
      RewriteInv(m0, g, sid, v, WithoutUser(pte));
      var page: Page := pages[t][va / PGSIZE % NPTE := WithoutUser(pte)];
      pages := pages[t := page];
    }

    /** freewalk(): c is the place of page pt in the tree. */
    method Freewalk(pt: nat, ghost c: Node)
      requires Inv(State(), g, {}) && c in g.at && g.at[c] == pt && NoLeaves(State(), g, c.sid)
      modifies `pages, `head, `g
      ensures Walked(old(State()), old(g), State(), g, c)
      decreases c.level
    {
      hide Inv, Leaf, Entry, Cut, Removed, KeptWords, ZeroTo, Local, SameLeaves, IsValid, IsLeaf, PtePage, Filled;
      ghost var m0, g0 := State(), g;
      WalkingStart(m0, g0, c);
      var i := 0;
      while i < NPTE
        invariant 0 <= i <= NPTE && Walking(m0, g0, State(), g, c, i)
      {
        ghost var m1, g1 := State(), g;
        StillNoLeaves(m0, g0, m1, g1, c.sid);
        FreewalkEntry(m1, g1, c, i);
        var pte := pages[pt][i];
        if IsValid(pte) && !IsLeaf(pte) {
          EmptyInvalid(pte);
          ghost var d := c.Child(i);
          Freewalk(PtePage(pte), d);
          WalkingChild(m0, g0, m1, g1, State(), g, c, i);
          var page: Page := pages[pt][i := 0];
          pages := pages[pt := page];
        } else {
          ZeroInvalid();
          assert !IsValid(pte);
          WalkingSkip(m0, g0, m1, g1, c, i);
        }
        i := i + 1;
      }
      WalkingEnd(m0, g0, State(), g, c);
      InvParts(State(), g);
      TablePage(State(), g, c);
      Kfree(pt);
      g := PrunedBy(g, c);
    }

    /** uvmfree(): every page of the space goes back to the free list. */
    method Uvmfree(pt: nat, sz: nat, ghost sid: nat)
      requires Valid() && Space(pt, sid) && UserMapped(State(), g, sid, PageCount(sz))
      requires Leaf(State(), g, sid, TRAMPOLINE) == 0 && Leaf(State(), g, sid, TRAPFRAME) == 0
      modifies `pages, `head, `g
      ensures Valid() && Gone(old(g), g, sid) && Local(old(State()), old(g), State(), g, sid)
    {
      hide Inv, Leaf, Scarce, Unmapped, Walked, Gone, Local, SameLeaves, PageCount, NoLeaves;
      ghost var m0, g0 := State(), g;
      UserPages(m0, g0, sid, PageCount(sz));
      UnmappedNone(m0, g0, sid, 0, Free);
      if sz > 0 {
        Uvmunmap(pt, 0, PageCount(sz), true, sid);
      } else {
        CountZero();
      }
      ghost var m1, g1 := State(), g;
      EmptySpace(m0, g0, m1, g1, sid, PageCount(sz));
      Freewalk(pt, Root(sid));
      AllGone(m1, g1, State(), g, sid);
      FreedSpace(m0, g0, m1, g1, State(), g, sid, PageCount(sz));
    }
  }

  // --------------------------------------------------------------- small facts

  lemma FirstFree(m: Mem, g: Ledger, p: nat, page: Page)
    requires Inv(m, g, {}) && g.at == map[] && p !in g.own && p > 0 && |page| == NPTE
    requires forall q :: q in g.own ==> g.own[q] == Free
    ensures Inv(Mem(m.pages[p := page], m.head), g.(own := g.own[p := Held]), {})
  {
  }

  lemma NoPages(m: Mem, g: Ledger)
    requires m == Mem(map[], 0) && g == Ledger([], map[], map[])
    ensures Inv(m, g, {})
  {
  }

  lemma {:induction false} IntervalSize(s: set<nat>, lo: nat, hi: nat)
    requires lo <= hi && forall q: nat :: q in s <==> lo <= q < hi
    ensures |s| == hi - lo
    decreases hi - lo
  {
    if lo < hi {
      IntervalSize(s - {lo}, lo + 1, hi);
    }
  }

  lemma FreeHead(m: Mem, g: Ledger)
    requires PagesOk(m, g) && FreeOk(m, g)
    ensures m.head == 0 <==> g.free == []
  {
  }

  lemma InvParts(m: Mem, g: Ledger)
    requires Inv(m, g, {})
    ensures PagesOk(m, g) && FreeOk(m, g) && TablesOk(g) && TreeOk(m, g, {}) && LeavesOk(m, g)
  {
  }

  lemma Missing(m: Mem, g: Ledger, sid: nat, vpn: nat, level: nat)
    requires Inv(m, g, {}) && level <= 2 && Step(sid, vpn, level) !in g.at
    ensures LeafTable(sid, vpn) !in g.at
  {
    NothingBelow(m, g, sid, vpn, level);
  }

  lemma GrownNext(m: Mem, g: Ledger, m1: Mem, g1: Ledger, m2: Mem, g2: Ledger, sid: nat)
    requires Grown(m, g, m1, g1, sid) && Grown(m1, g1, m2, g2, sid)
    requires SameLeaves(m, g, m1, g1) && SameLeaves(m1, g1, m2, g2)
    ensures Grown(m, g, m2, g2, sid) && SameLeaves(m, g, m2, g2)
    ensures Scarce(g1) ==> Scarce(g2)
    ensures Root(sid) in g1.at ==> Root(sid) in g2.at && g2.at[Root(sid)] == g1.at[Root(sid)]
  {
    hide Leaf;
    GrownTransitive(m, g, m1, g1, m2, g2, sid);
    assert |g1.own| == |g1.own.Keys|;
    assert |g2.own| == |g2.own.Keys|;
  }

  lemma LeafStep(sid: nat, vpn: nat)
    ensures Step(sid, vpn, 0) == LeafTable(sid, vpn)
  {
  }

  lemma TablePage(m: Mem, g: Ledger, n: Node)
    requires Inv(m, g, {}) && n in g.at
    ensures g.at[n] in m.pages && |m.pages[g.at[n]]| == NPTE && g.at[n] != 0
    ensures g.at[n] in g.own && g.own[g.at[n]] == Table(n)
  {
    hide FreeOk, TreeOk, LeavesOk;
  }

  ghost predicate HeldPage(g: Ledger, p: nat) {
    p in g.own && g.own[p] == Held
  }

  lemma IsHeld(g: Ledger, p: nat, vpn: nat)
    requires !Special(vpn) ==> HeldPage(g, p)
    ensures !Special(vpn) ==> p in g.own && g.own[p] == Held
  {
  }

  lemma Ordered(va: nat, size: nat)
    requires size > 0
    ensures va / PGSIZE <= (va + size - 1) / PGSIZE
  {
  }

  lemma ScarceKeys(g: Ledger, g': Ledger)
    requires g'.own.Keys == g.own.Keys && Scarce(g)
    ensures Scarce(g')
  {
    assert |g.own| == |g.own.Keys| && |g'.own| == |g'.own.Keys|;
  }

  lemma MappedRoot(m: Mem, g: Ledger, m': Mem, g': Ledger, sid: nat, first: nat, n: nat, ppn: nat, flags: nat)
    requires Mapped(m, g, m', g', sid, first, n, ppn, flags)
    ensures Scarce(g) ==> Scarce(g')
    ensures Root(sid) in g.at ==> Root(sid) in g'.at && g'.at[Root(sid)] == g.at[Root(sid)]
  {
    hide Leaf, MappedLeaves;
    if Scarce(g) {
      ScarceKeys(g, g');
    }
  }

  lemma UnmappedRoot(m: Mem, g: Ledger, m': Mem, g': Ledger, sid: nat, first: nat, n: nat, to: Owner)
    requires Unmapped(m, g, m', g', sid, first, n, to)
    ensures g'.at == g.at && (Scarce(g) ==> Scarce(g'))
  {
    hide Leaf;
    if Scarce(g) {
      ScarceKeys(g, g');
    }
  }

  lemma LeafFlags(pte: nat)
    requires IsLeaf(pte)
    ensures PteFlags(pte) != PTE_V
  {
  }

  lemma SameLeaf(m: Mem, g: Ledger, m': Mem, g': Ledger, sid: nat, vpn: nat)
    requires SameLeaves(m, g, m', g')
    ensures Leaf(m', g', sid, vpn) == Leaf(m, g, sid, vpn)
  {
  }

  lemma SameLeavesIs(m: Mem, g: Ledger, m': Mem, g': Ledger)
    requires forall sid: nat, vpn: nat :: Leaf(m', g', sid, vpn) == Leaf(m, g, sid, vpn)
    ensures SameLeaves(m, g, m', g')
  {
    hide Leaf;
  }

  lemma OnePage(k: nat)
    ensures k * PGSIZE / PGSIZE == k && (k * PGSIZE + PGSIZE - 1) / PGSIZE == k
  {
  }

  lemma Aligned(k: nat)
    ensures k * PGSIZE / PGSIZE == k && k * PGSIZE % PGSIZE == 0
  {
  }

  /** The page being mapped keeps its contents, and is mapped or still held. */
  lemma MappedPage(m: Mem, g: Ledger, m': Mem, g': Ledger, sid: nat, k: nat, n: nat, p: nat, flags: nat)
    requires Mapped(m, g, m', g', sid, k, n, p, flags) && p in g.own && g.own[p] == Held && p in m.pages
    ensures p in m'.pages && m'.pages[p] == m.pages[p] && p in g'.own && (n == 0 ==> g'.own[p] == Held)
  {
    hide Leaf, MappedLeaves;
  }

  lemma CountMonotone(a: nat, b: nat)
    requires a <= b
    ensures PageCount(a) <= PageCount(b)
  {
  }

  lemma CountNext(k: nat, sz: nat)
    requires k * PGSIZE < sz
    ensures k < PageCount(sz)
  {
  }

  lemma CountEnd(k: nat, sz: nat)
    requires k * PGSIZE >= sz && k <= PageCount(sz)
    ensures k == PageCount(sz)
  {
  }

  lemma CountExact(k: nat, k': nat)
    ensures PageCount(k * PGSIZE) == k && PageCount(k' * PGSIZE) == k'
  {
  }

  lemma RoomLeft(m: Mem, g: Ledger, sid: nat, k: nat)
    requires Inv(m, g, {}) && Scarce(g) && UserMapped(m, g, sid, k)
    ensures k < TRAPFRAME && Leaf(m, g, sid, k) == 0
  {
    hide Leaf, TreeOk, FreeOk, LeavesOk, PagesOk, TablesOk, Scarce;
    assert forall v: nat :: v < k ==> !Special(v);
    NeverFull(m, g, sid, k);
  }

  lemma NoZeroPages(m: Mem, g: Ledger, sid: nat, k: nat, flags: nat)
    ensures ZeroPages(m, g, sid, k, k, flags)
  {
  }

  lemma UserPerm(xperm: nat)
    requires xperm == 0 || xperm == PTE_W || xperm == PTE_X || xperm == PTE_W + PTE_X
    ensures var perm := PTE_R + PTE_U + xperm; perm < 1024 && IsLeaf(perm) && WithValid(perm) == PTE_V + perm
  {
  }

  lemma ZeroWritten(m: Mem, g: Ledger, sid: nat, k: nat, p: nat, perm: nat)
    requires perm < 1024 && IsLeaf(perm) && Leaf(m, g, sid, k) == Pte(p, WithValid(perm)) && p in m.pages && m.pages[p] == Filled(0)
    ensures ZeroPage(m, Leaf(m, g, sid, k), WithValid(perm))
  {
    PteLeaf(p, perm);
  }

  /** uvmdealloc() after a failure takes back what was filled in. */
  lemma FillBack(m: Mem, g: Ledger, m1: Mem, g1: Ledger, m2: Mem, g2: Ledger, sid: nat, k0: nat, k: nat)
    requires Inv(m, g, {}) && UserMapped(m, g, sid, k0) && Filling(m, g, m1, g1, sid, k0, k) && k0 <= k <= TRAPFRAME
    requires k > k0 ==> Unmapped(m1, g1, m2, g2, sid, k0, k - k0, Free)
    requires k == k0 ==> m2 == m1 && g2 == g1
    ensures SameLeaves(m, g, m2, g2) && Grown(m, g, m2, g2, sid)
  {
    hide Leaf, TreeOk, FreeOk, LeavesOk, PagesOk, TablesOk, Filling, Unmapped, SameLeaves, Grown;
    if k == k0 {
      UnmappedNone(m1, g1, sid, k0, Free);
    }
    FillUndo(m, g, m1, g1, m2, g2, sid, k0, k);
  }

  lemma NoCopies(m: Mem, g: Ledger, osid: nat, nsid: nat)
    ensures CopyOf(m, g, m, g, osid, nsid, 0)
  {
  }

  lemma LeafFacts(m: Mem, g: Ledger, sid: nat, vpn: nat)
    requires Inv(m, g, {}) && Leaf(m, g, sid, vpn) != 0
    ensures LeafTable(sid, vpn) in g.at
    ensures var t := g.at[LeafTable(sid, vpn)];
      && t in m.pages && |m.pages[t]| == NPTE && m.pages[t][vpn % NPTE] == Leaf(m, g, sid, vpn)
      && t in g.own && g.own[t] == Table(LeafTable(sid, vpn))
    ensures IsValid(Leaf(m, g, sid, vpn)) && IsLeaf(Leaf(m, g, sid, vpn))
  {
    hide Leaf, FreeOk, TreeOk, LeavesOk, IsLeaf;
    LeafHasTable(m, g, sid, vpn);
    LeafIs(m, g, sid, vpn);
    UnmapOwner(m, g, sid, vpn);
  }

  /** What uvmcopy() reads is what was there at the start. */
  lemma CopySource(m0: Mem, g0: Ledger, m: Mem, g: Ledger, osid: nat, nsid: nat, i: nat, k: nat)
    requires Inv(m0, g0, {}) && Inv(m, g, {}) && Filling(m0, g0, m, g, nsid, 0, i) && osid != nsid
    requires UserMapped(m0, g0, osid, k) && i < k
    ensures Leaf(m, g, osid, i) == Leaf(m0, g0, osid, i) && i < MAXVPN
    ensures LeafTable(osid, i) in g.at
    ensures var t := g.at[LeafTable(osid, i)];
      && t in m.pages && |m.pages[t]| == NPTE
      && var e := m.pages[t][i % NPTE];
      && e == Leaf(m0, g0, osid, i) && IsValid(e) && IsLeaf(PteFlags(e)) && PteFlags(e) < 1024 && WithValid(PteFlags(e)) == PteFlags(e)
      && PtePage(e) in m0.pages && PtePage(e) in m.pages && m.pages[PtePage(e)] == m0.pages[PtePage(e)]
      && |m.pages[PtePage(e)]| == NPTE
  {
    hide Inv, Leaf, Filling, PtePage;
    FillingKeeps(m0, g0, m, g, nsid, 0, i, osid, i);
    LeafFacts(m, g, osid, i);
    FlagsAgain(Leaf(m, g, osid, i));
    PageSize(m, g, PtePage(Leaf(m, g, osid, i)));
  }

  lemma PageSize(m: Mem, g: Ledger, p: nat)
    requires Inv(m, g, {}) && p in m.pages
    ensures |m.pages[p]| == NPTE && p != 0
  {
    hide FreeOk, TreeOk, LeavesOk, TablesOk;
  }

  lemma FlagsAgain(pte: nat)
    requires IsValid(pte) && IsLeaf(pte)
    ensures var f := PteFlags(pte); f < 1024 && IsLeaf(f) && WithValid(f) == f
  {
    assert pte == 1024 * (pte / 1024) + pte % 1024;
  }

  lemma FillingSpace(m: Mem, g: Ledger, m': Mem, g': Ledger, sid: nat, k: nat, k': nat, s: nat)
    requires Filling(m, g, m', g', sid, k, k')
    ensures Root(s) in g.at ==> Root(s) in g'.at && g'.at[Root(s)] == g.at[Root(s)]
  {
    hide Leaf, FillingLeaves;
  }

  lemma UserPages(m: Mem, g: Ledger, sid: nat, k: nat)
    requires UserMapped(m, g, sid, k)
    ensures forall v: nat :: 0 <= v < k ==> Leaf(m, g, sid, v) != 0 && !Special(v)
  {
    hide Leaf;
    assert forall v: nat :: v < k ==> !Special(v);
  }

  lemma CopyBack(m: Mem, g: Ledger, m1: Mem, g1: Ledger, m2: Mem, g2: Ledger, sid: nat, k: nat)
    requires Inv(m, g, {}) && UserMapped(m, g, sid, 0) && Filling(m, g, m1, g1, sid, 0, k) && k <= TRAPFRAME
    requires Unmapped(m1, g1, m2, g2, sid, 0, k, Free)
    ensures SameLeaves(m, g, m2, g2) && Grown(m, g, m2, g2, sid)
  {
    hide Leaf, TreeOk, FreeOk, LeavesOk, PagesOk, TablesOk, Filling, Unmapped, SameLeaves, Grown;
    FillUndo(m, g, m1, g1, m2, g2, sid, 0, k);
  }

  lemma PageCopied(m0: Mem, g0: Ledger, m1: Mem, m: Mem, g: Ledger, osid: nat, nsid: nat, i: nat, pte: nat, p: nat)
    requires pte == Leaf(m0, g0, osid, i) && PtePage(pte) in m0.pages && PtePage(pte) in m1.pages
    requires m1.pages[PtePage(pte)] == m0.pages[PtePage(pte)]
    requires PteFlags(pte) < 1024 && IsLeaf(PteFlags(pte)) && WithValid(PteFlags(pte)) == PteFlags(pte)
    requires Leaf(m, g, nsid, i) == Pte(p, WithValid(PteFlags(pte))) && p in m.pages && m.pages[p] == m1.pages[PtePage(pte)]
    ensures SamePage(m0, Leaf(m0, g0, osid, i), m, Leaf(m, g, nsid, i))
  {
    hide Leaf, IsLeaf, Pte;
    PteLeaf(p, PteFlags(pte));
  }

  lemma StillNoLeaves(m: Mem, g: Ledger, m': Mem, g': Ledger, sid: nat)
    requires NoLeaves(m, g, sid) && SameLeaves(m, g, m', g')
    ensures NoLeaves(m', g', sid)
  {
    hide Leaf;
  }

  lemma EmptyInvalid(pte: nat)
    requires IsValid(pte)
    ensures pte != 0
  {
  }

  lemma ZeroInvalid()
    ensures !IsValid(0)
  {
  }

  lemma CountZero()
    ensures PageCount(0) == 0
  {
  }

  lemma EmptySpace(m: Mem, g: Ledger, m': Mem, g': Ledger, sid: nat, k: nat)
    requires UserMapped(m, g, sid, k) && Unmapped(m, g, m', g', sid, 0, k, Free)
    requires Leaf(m, g, sid, TRAMPOLINE) == 0 && Leaf(m, g, sid, TRAPFRAME) == 0
    ensures NoLeaves(m', g', sid) && g'.at == g.at
  {
    hide Leaf;
  }

  lemma FreedSpace(m: Mem, g: Ledger, m1: Mem, g1: Ledger, m2: Mem, g2: Ledger, sid: nat, k: nat)
    requires Unmapped(m, g, m1, g1, sid, 0, k, Free) && Walked(m1, g1, m2, g2, Root(sid)) && Gone(g1, g2, sid) && Scarce(g)
    requires Inv(m, g, {}) && UserMapped(m, g, sid, k)
    ensures Gone(g, g2, sid) && Local(m, g, m2, g2, sid) && Scarce(g2)
  {
    hide Inv, Leaf, Scarce, KeptWords, Removed, SameLeaves, Local;
    UnmappedLocal(m, g, m1, g1, sid, 0, k, Free);
    LocalTransitive(m, g, m1, g1, m2, g2, sid);
    ScarceKeys(g, g2);
    UsersBelow(m, g, sid, k);
  }

  lemma UsersBelow(m: Mem, g: Ledger, sid: nat, k: nat)
    requires Inv(m, g, {}) && UserMapped(m, g, sid, k)
    ensures forall p :: p in g.own && g.own[p].User? && g.own[p].sid == sid ==> g.own[p].vpn < k
  {
    hide Leaf, PtePage, IsLeaf, TreeOk, FreeOk, PagesOk, TablesOk;
  }
}
