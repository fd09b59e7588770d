/** What the loops of vm.c do to an address space: ranges of pages mapped and
    unmapped, memory filled in and taken back. */
module VmSpace {
  import opened VmState
  import opened VmTree
  import opened Basics

  const PGSIZE := 4096

  /** PGROUNDUP(sz) / PGSIZE */
  function PageCount(sz: nat): nat {
    (sz + PGSIZE - 1) / PGSIZE
  }

  /** The pages of user memory are exactly 0..k. */
  ghost predicate UserMapped(m: Mem, g: Ledger, sid: nat, k: nat) {
    && k <= TRAPFRAME
    && forall v: nat :: !Special(v) ==> (Leaf(m, g, sid, v) != 0 <==> v < k)
  }

  /** Fewer physical pages than user virtual ones (PHYSTOP is 128 MB above KERNBASE). */
  ghost predicate Scarce(g: Ledger) {
    |g.own| < TRAPFRAME
  }

  // -------------------------------------------------------------- walk()

  /** Free pages may have become tables of sid; nothing else changes. */
  ghost predicate Grown(m: Mem, g: Ledger, m': Mem, g': Ledger, sid: nat) {
    && g'.own.Keys == g.own.Keys
    && (forall p :: p in g.own && g.own[p] == Free ==> g'.own[p] == Free || OwnTable(g'.own[p], sid))
    && (forall p :: p in g.own && g.own[p] != Free ==> g'.own[p] == g.own[p])
    && Untouched(m, g, m', sid)
    && (forall n :: n in g.at ==> n in g'.at && g'.at[n] == g.at[n])
  }

  predicate OwnTable(o: Owner, sid: nat) {
    o.Table? && o.node.sid == sid
  }

  /** Pages in use, other than tables of sid, keep their contents. */
  ghost predicate Untouched(m: Mem, g: Ledger, m': Mem, sid: nat) {
    forall p :: p in g.own && g.own[p] != Free && !OwnTable(g.own[p], sid) && p in m.pages ==>
      p in m'.pages && m'.pages[p] == m.pages[p]
  }

  lemma GrownRefl(m: Mem, g: Ledger, sid: nat)
    ensures Grown(m, g, m, g, sid) && SameLeaves(m, g, m, g)
  {
  }

  lemma GrownTransitive(m: Mem, g: Ledger, m1: Mem, g1: Ledger, m2: Mem, g2: Ledger, sid: nat)
    requires Grown(m, g, m1, g1, sid) && Grown(m1, g1, m2, g2, sid)
    ensures Grown(m, g, m2, g2, sid)
  {
  }

  /** A page taken and written, before it is mapped. */
  function Loaded(m: Mem, page: Page): Mem
    requires m.head in m.pages && |m.pages[m.head]| == NPTE
  {
    Taken(m).(pages := Taken(m).pages[m.head := page])
  }

  lemma LoadedInv(m: Mem, g: Ledger, page: Page)
    requires Inv(m, g, {}) && m.head != 0 && |page| == NPTE
    ensures g.free != [] && m.head == g.free[0] && m.head in m.pages && |m.pages[m.head]| == NPTE
    ensures m.head in g.own && g.own[m.head] == Free && m.head in TakenBy(g).own && TakenBy(g).own[m.head] == Held
    ensures Inv(Loaded(m, page), TakenBy(g), {}) && SameLeaves(m, g, Loaded(m, page), TakenBy(g))
    ensures Loaded(m, page).pages[m.head] == page
    ensures forall p :: p in m.pages && p != m.head ==> p in Loaded(m, page).pages && Loaded(m, page).pages[p] == m.pages[p]
  {
    hide FreeOk, TreeOk, LeavesOk, SameEntries, PagesOk, TablesOk, Leaf, Filled;
    TakeInv(m, g, {});
    WriteInv(Taken(m), TakenBy(g), {}, m.head, page);
    LeafSame(m, g, Taken(m), TakenBy(g));
    LeafSame(Taken(m), TakenBy(g), Loaded(m, page), TakenBy(g));
  }

  /** One turn of walk() with alloc: take a page, clear it, hang it below n. */
  function Hung(m: Mem, t: nat, idx: nat): Mem
    requires m.head in m.pages && |m.pages[m.head]| == NPTE && t in m.pages && |m.pages[t]| == NPTE && idx < NPTE
    requires t != m.head
  {
    WithEntry(Loaded(m, Filled(0)), t, idx, Pte(m.head, PTE_V))
  }

  ghost function HungBy(g: Ledger, c: Node): Ledger
    requires g.free != []
  {
    LinkedBy(TakenBy(g), c, g.free[0])
  }

  lemma HangInv(m: Mem, g: Ledger, n: Node, idx: nat)
    requires Inv(m, g, {}) && m.head != 0 && n in g.at && n.level > 0 && idx < NPTE && n.Child(idx) !in g.at
    ensures m.head in m.pages && |m.pages[m.head]| == NPTE && g.free != [] && m.head == g.free[0]
    ensures g.at[n] in m.pages && |m.pages[g.at[n]]| == NPTE && g.at[n] != m.head
    ensures var m', g' := Hung(m, g.at[n], idx), HungBy(g, n.Child(idx));
      Inv(m', g', {}) && SameLeaves(m, g, m', g') && Grown(m, g, m', g', n.sid)
  {
    hide FreeOk, TreeOk, LeavesOk, Leaf, Filled, Pte, Grown, PagesOk, TablesOk;
    LoadedInv(m, g, Filled(0));
    LinkInv(Loaded(m, Filled(0)), TakenBy(g), {}, n, idx, m.head);
    HangGrown(m, g, n, idx);
  }

  lemma HangGrown(m: Mem, g: Ledger, n: Node, idx: nat)
    requires PagesOk(m, g) && TablesOk(g) && n in g.at && n.level > 0 && idx < NPTE && n.Child(idx) !in g.at
    requires g.free != [] && m.head == g.free[0] && m.head in g.own && g.own[m.head] == Free
    ensures m.head in m.pages && |m.pages[m.head]| == NPTE
    ensures g.at[n] in m.pages && |m.pages[g.at[n]]| == NPTE && g.at[n] != m.head
    ensures Grown(m, g, Hung(m, g.at[n], idx), HungBy(g, n.Child(idx)), n.sid)
  {
    hide Filled, Pte;
  }

  /** Where walk() goes at each level. */
  function Step(sid: nat, vpn: nat, level: nat): Node
    requires level <= 2
  {
    if level == 0 then LeafTable(sid, vpn)
    else if level == 1 then Node(sid, 1, vpn / NPTE / NPTE)
    else Node(sid, 2, vpn / NPTE / NPTE / NPTE)
  }

  /** PX(level, va) */
  function PageIndex(vpn: nat, level: nat): nat
    requires level <= 2
  {
    if level == 0 then vpn % NPTE
    else if level == 1 then vpn / NPTE % NPTE
    else vpn / NPTE / NPTE % NPTE
  }

  lemma StepDown(sid: nat, vpn: nat, level: nat)
    requires 0 < level <= 2
    ensures Step(sid, vpn, level).Child(PageIndex(vpn, level)) == Step(sid, vpn, level - 1)
    ensures PageIndex(vpn, level) < NPTE && Step(sid, vpn, level).level == level && Step(sid, vpn, level).sid == sid
  {
  }

  lemma StepStart(sid: nat, vpn: nat)
    requires vpn < MAXVPN
    ensures Step(sid, vpn, 2) == Root(sid)
  {
  }

  /** What walk() finds on the way down. */
  lemma WalkEntry(m: Mem, g: Ledger, n: Node, idx: nat)
    requires Inv(m, g, {}) && n in g.at && n.level > 0 && idx < NPTE
    ensures g.at[n] in m.pages && |m.pages[g.at[n]]| == NPTE
    ensures var e := m.pages[g.at[n]][idx];
      && (n.Child(idx) in g.at <==> IsValid(e))
      && (n.Child(idx) in g.at ==> PtePage(e) == g.at[n.Child(idx)])
  {
    hide FreeOk, LeavesOk, IsLeaf;
    if n.Child(idx) in g.at {
      TablePte(g.at[n.Child(idx)]);
    }
    assert Entry(m, g, n, idx) == m.pages[g.at[n]][idx];
  }

  /** Without the child there is nothing further down. */
  lemma NothingBelow(m: Mem, g: Ledger, sid: nat, vpn: nat, level: nat)
    requires TreeOk(m, g, {}) && level <= 2 && Step(sid, vpn, level) !in g.at
    ensures LeafTable(sid, vpn) !in g.at
  {
    hide Entry;
    StepUp(sid, vpn);
  }

  lemma StepUp(sid: nat, vpn: nat)
    ensures LeafTable(sid, vpn).Parent() == Step(sid, vpn, 1) && Step(sid, vpn, 1).Parent() == Step(sid, vpn, 2)
  {
  }

  /** What the hardware reads: the words of three pages, at the three 9-bit parts of the
      virtual page number, as in section 4.3.2 of the RISC-V privileged architecture. */
  function Translated(m: Mem, pt: nat, vpn: nat): nat {
    var e2 := Word(m, pt, vpn / 0x4_0000 % 512);
    if e2 % 2 == 0 then 0 else
    var e1 := Word(m, e2 / 1024, vpn / 512 % 512);
    if e1 % 2 == 0 then 0 else
    Word(m, e1 / 1024, vpn % 512)
  }

  function Word(m: Mem, p: nat, idx: nat): nat {
    if p in m.pages && idx < |m.pages[p]| then m.pages[p][idx] else 0
  }

  /** The three-level tables mean to the hardware what the leaf entries say. */
  lemma HardwareSees(m: Mem, g: Ledger, sid: nat, vpn: nat)
    requires Inv(m, g, {}) && Root(sid) in g.at && vpn < MAXVPN
    ensures Translated(m, g.at[Root(sid)], vpn) == Leaf(m, g, sid, vpn)
  {
    hide Inv;
    var n1, n0 := Node(sid, 1, vpn / 0x4_0000), LeafTable(sid, vpn);
    Parts(sid, vpn);
    WalkEntry(m, g, Root(sid), vpn / 0x4_0000);
    if n1 in g.at {
      WalkEntry(m, g, n1, vpn / NPTE % NPTE);
    } else {
      OrphanLeaf(m, g, n1, n0);
    }
  }

  lemma Parts(sid: nat, vpn: nat)
    requires vpn < MAXVPN
    ensures vpn / 0x4_0000 < NPTE && vpn / 0x4_0000 % NPTE == vpn / 0x4_0000
    ensures Root(sid).Child(vpn / 0x4_0000) == Node(sid, 1, vpn / 0x4_0000)
    ensures Node(sid, 1, vpn / 0x4_0000).Child(vpn / NPTE % NPTE) == LeafTable(sid, vpn)
    ensures LeafTable(sid, vpn).Parent() == Node(sid, 1, vpn / 0x4_0000)
  {
    assert vpn / 0x4_0000 == vpn / NPTE / NPTE;
  }

  lemma OrphanLeaf(m: Mem, g: Ledger, n: Node, c: Node)
    requires Inv(m, g, {}) && n !in g.at && c.Parent() == n && c.level == 0
    ensures c !in g.at
  {
    hide FreeOk, LeavesOk, PagesOk, TablesOk;
  }

  /** Different virtual pages, of one space or of two, use different entries. */
  lemma WalkDistinct(g: Ledger, sid: nat, vpn: nat, sid': nat, vpn': nat)
    requires TablesOk(g) && LeafTable(sid, vpn) in g.at && LeafTable(sid', vpn') in g.at
    requires g.at[LeafTable(sid, vpn)] == g.at[LeafTable(sid', vpn')] && vpn % NPTE == vpn' % NPTE
    ensures sid == sid' && vpn == vpn'
  {
    assert g.own[g.at[LeafTable(sid, vpn)]] == Table(LeafTable(sid, vpn));
    assert g.own[g.at[LeafTable(sid', vpn')]] == Table(LeafTable(sid', vpn'));
  }

  // -------------------------------------------------------------- mappages()

  /** The virtual page at which mapping n pages from ppn at first puts page p. */
  predicate InRun(p: nat, first: nat, n: nat, ppn: nat) {
    ppn <= p < ppn + n && !Special(first + (p - ppn))
  }

  /** Pages ppn.. are mapped at first.., n of them, and nothing else. */
  ghost predicate Mapped(m: Mem, g: Ledger, m': Mem, g': Ledger, sid: nat, first: nat, n: nat, ppn: nat, flags: nat) {
    MappedLeaves(m, g, m', g', sid, first, n, ppn, flags) && MappedPages(m, g, m', g', sid, first, n, ppn)
  }

  ghost predicate MappedLeaves(m: Mem, g: Ledger, m': Mem, g': Ledger, sid: nat, first: nat, n: nat, ppn: nat, flags: nat) {
    forall s: nat, v: nat :: Leaf(m', g', s, v) ==
      if s == sid && first <= v < first + n then Pte(ppn + (v - first), flags) else Leaf(m, g, s, v)
  }

  ghost predicate MappedPages(m: Mem, g: Ledger, m': Mem, g': Ledger, sid: nat, first: nat, n: nat, ppn: nat) {
    && g'.own.Keys == g.own.Keys
    && (forall p :: p in g.own && g.own[p] == Free ==> g'.own[p] == Free || OwnTable(g'.own[p], sid))
    && (forall p :: p in g.own && g.own[p] != Free ==>
          g'.own[p] == if InRun(p, first, n, ppn) then User(sid, first + (p - ppn)) else g.own[p])
    && Untouched(m, g, m', sid)
    && (forall x :: x in g.at ==> x in g'.at && g'.at[x] == g.at[x])
  }

  lemma MappedNone(m: Mem, g: Ledger, sid: nat, first: nat, ppn: nat, flags: nat)
    ensures Mapped(m, g, m, g, sid, first, 0, ppn, flags)
  {
  }

  lemma MappedWalk(m: Mem, g: Ledger, m1: Mem, g1: Ledger, m2: Mem, g2: Ledger, sid: nat, first: nat, n: nat, ppn: nat, flags: nat)
    requires Mapped(m, g, m1, g1, sid, first, n, ppn, flags)
    requires SameLeaves(m1, g1, m2, g2) && Grown(m1, g1, m2, g2, sid)
    ensures Mapped(m, g, m2, g2, sid, first, n, ppn, flags)
  {
    hide Leaf, Special, Pte;
  }

  lemma MappedStep(m: Mem, g: Ledger, m1: Mem, g1: Ledger, m2: Mem, sid: nat, first: nat, n: nat, ppn: nat, flags: nat)
    requires Mapped(m, g, m1, g1, sid, first, n, ppn, flags)
    requires var v := first + n; var n1 := LeafTable(sid, v);
      && n1 in g1.at && g1.at[n1] in m1.pages && |m1.pages[g1.at[n1]]| == NPTE
      && g1.at[n1] in g1.own && g1.own[g1.at[n1]] == Table(n1)
      && (!Special(v) ==> ppn + n in g.own && g.own[ppn + n] == Held)
      && m2 == WithEntry(m1, g1.at[n1], v % NPTE, Pte(ppn + n, flags))
      && OneLeaf(m1, g1, m2, MappedBy(g1, sid, v, ppn + n), sid, v, Pte(ppn + n, flags))
    ensures Mapped(m, g, m2, MappedBy(g1, sid, first + n, ppn + n), sid, first, n + 1, ppn, flags)
  {
    hide Leaf, Pte;
  }

  lemma PteLeaf(ppn: nat, perm: nat)
    requires perm < 1024 && IsLeaf(perm)
    ensures var e := Pte(ppn, WithValid(perm)); IsValid(e) && IsLeaf(e) && PtePage(e) == ppn && PteFlags(e) == WithValid(perm)
  {
    hide Pte, PtePage, IsValid;
    var f := WithValid(perm);
    Halves(perm);
    PteRoundTrip(ppn, f);
    PteOdd(ppn, f);
  }

  lemma Halves(perm: nat)
    requires perm < 1024
    ensures var f := WithValid(perm); f < 1024 && f % 2 == 1 && PteFlags(f) / 2 == PteFlags(perm) / 2
  {
  }

  lemma PteOdd(ppn: nat, flags: nat)
    requires flags % 2 == 1
    ensures IsValid(Pte(ppn, flags))
  {
    assert Pte(ppn, flags) == 2 * (512 * ppn + flags / 2) + 1;
  }

  lemma MappedNext(m: Mem, g: Ledger, m1: Mem, g1: Ledger, sid: nat, first: nat, n: nat, ppn: nat, perm: nat)
    requires Inv(m1, g1, {}) && Mapped(m, g, m1, g1, sid, first, n, ppn, WithValid(perm))
    requires LeafTable(sid, first + n) in g1.at && Leaf(m, g, sid, first + n) == 0 && perm < 1024 && IsLeaf(perm)
    requires !Special(first + n) ==> ppn + n in g.own && g.own[ppn + n] == Held
    ensures var v, t := first + n, g1.at[LeafTable(sid, first + n)];
      && t in m1.pages && |m1.pages[t]| == NPTE && !IsValid(m1.pages[t][v % NPTE])
      && var m2, g2 := WithEntry(m1, t, v % NPTE, Pte(ppn + n, WithValid(perm))), MappedBy(g1, sid, v, ppn + n);
      && Inv(m2, g2, {}) && Mapped(m, g, m2, g2, sid, first, n + 1, ppn, WithValid(perm))
  {
    hide Leaf, Pte, PtePage, IsLeaf, WithValid, FreeOk, TreeOk, LeavesOk, PagesOk, TablesOk, MappedPages, OneLeaf;
    var v, pte := first + n, Pte(ppn + n, WithValid(perm));
    PteLeaf(ppn + n, perm);
    MappedHeld(m, g, m1, g1, sid, first, n, ppn);
    MapInv(m1, g1, {}, sid, v, pte);
    TableFacts(m1, g1, LeafTable(sid, v));
    LeafIs(m1, g1, sid, v);
    MappedStep(m, g, m1, g1, WithEntry(m1, g1.at[LeafTable(sid, v)], v % NPTE, pte), sid, first, n, ppn, WithValid(perm));
  }

  lemma MappedHeld(m: Mem, g: Ledger, m1: Mem, g1: Ledger, sid: nat, first: nat, n: nat, ppn: nat)
    requires MappedPages(m, g, m1, g1, sid, first, n, ppn)
    requires !Special(first + n) ==> ppn + n in g.own && g.own[ppn + n] == Held
    ensures !Special(first + n) ==> ppn + n in g1.own && g1.own[ppn + n] == Held
  {
  }

  lemma TableFacts(m: Mem, g: Ledger, n: Node)
    requires PagesOk(m, g) && TablesOk(g) && n in g.at
    ensures g.at[n] in m.pages && |m.pages[g.at[n]]| == NPTE && g.at[n] != 0
    ensures g.at[n] in g.own && g.own[g.at[n]] == Table(n)
  {
  }

  lemma LeafIs(m: Mem, g: Ledger, sid: nat, vpn: nat)
    requires LeafTable(sid, vpn) in g.at && g.at[LeafTable(sid, vpn)] in m.pages
    requires |m.pages[g.at[LeafTable(sid, vpn)]]| == NPTE
    ensures Leaf(m, g, sid, vpn) == m.pages[g.at[LeafTable(sid, vpn)]][vpn % NPTE]
  {
  }

  // -------------------------------------------------------------- uvmunmap()

  predicate UserIn(o: Owner, sid: nat, first: nat, n: nat) {
    o.User? && o.sid == sid && first <= o.vpn < first + n
  }

  /** Virtual pages first.. are unmapped, n of them, and nothing else; the pages
      that were there go to `to`. */
  ghost predicate Unmapped(m: Mem, g: Ledger, m': Mem, g': Ledger, sid: nat, first: nat, n: nat, to: Owner) {
    && (forall s: nat, v: nat :: Leaf(m', g', s, v) == if s == sid && first <= v < first + n then 0 else Leaf(m, g, s, v))
    && g'.own.Keys == g.own.Keys
    && (forall p :: p in g.own ==> g'.own[p] == if UserIn(g.own[p], sid, first, n) then to else g.own[p])
    && (forall p :: p in g.own && g'.own[p] != Free && !OwnTable(g.own[p], sid) && p in m.pages ==>
          p in m'.pages && m'.pages[p] == m.pages[p])
    && g'.at == g.at
  }

  lemma UnmappedNone(m: Mem, g: Ledger, sid: nat, first: nat, to: Owner)
    ensures Unmapped(m, g, m, g, sid, first, 0, to)
  {
  }

  lemma UnmappedLocal(m: Mem, g: Ledger, m': Mem, g': Ledger, sid: nat, first: nat, n: nat, to: Owner)
    requires Unmapped(m, g, m', g', sid, first, n, to) && (to == Free || to == Held)
    ensures Local(m, g, m', g', sid)
  {
    hide Leaf;
  }

  ghost function TakenFrom(g: Ledger, vpn: nat, p: nat, to: Owner): Ledger {
    if to == Free then GivenBy(g, p) else UnmappedBy(g, vpn, p)
  }

  lemma UnmappedStep(m: Mem, g: Ledger, m1: Mem, g1: Ledger, m2: Mem, sid: nat, first: nat, n: nat, to: Owner)
    requires Unmapped(m, g, m1, g1, sid, first, n, to) && LeavesOk(m1, g1) && (to == Free || to == Held)
    requires Leaf(m1, g1, sid, first + n) != 0 && (to == Free ==> !Special(first + n))
    requires var v, p := first + n, PtePage(Leaf(m1, g1, sid, first + n));
      var g2 := TakenFrom(g1, v, p, to);
      && OneLeaf(m1, g1, m2, g2, sid, v, 0)
      && LeafTable(sid, v) in g1.at && g1.at[LeafTable(sid, v)] in g1.own
      && g1.own[g1.at[LeafTable(sid, v)]] == Table(LeafTable(sid, v))
      && (forall q :: q in m1.pages && q != g1.at[LeafTable(sid, v)] && (to == Free ==> q != p) ==>
            q in m2.pages && m2.pages[q] == m1.pages[q])
    ensures var v, p := first + n, PtePage(Leaf(m1, g1, sid, first + n));
      Unmapped(m, g, m2, TakenFrom(g1, v, p, to), sid, first, n + 1, to)
  {
    hide Leaf, PtePage, IsLeaf;
    var v, p := first + n, PtePage(Leaf(m1, g1, sid, first + n));
    UnmapOwner(m1, g1, sid, v);
    assert forall q :: q in g1.own && g1.own[q] == User(sid, v) ==> q == p;
  }

  /** What uvmunmap() finds at the next page of its range. */
  lemma UnmappedAt(m: Mem, g: Ledger, m1: Mem, g1: Ledger, sid: nat, first: nat, n: nat, to: Owner)
    requires Inv(m1, g1, {}) && Unmapped(m, g, m1, g1, sid, first, n, to) && Leaf(m, g, sid, first + n) != 0
    ensures LeafTable(sid, first + n) in g1.at
    ensures var v, t := first + n, g1.at[LeafTable(sid, first + n)];
      && t in m1.pages && |m1.pages[t]| == NPTE && t in g1.own && g1.own[t] == Table(LeafTable(sid, v))
      && var e := m1.pages[t][v % NPTE];
      && e == Leaf(m1, g1, sid, v) && e != 0 && IsValid(e) && IsLeaf(e)
      && (!Special(v) ==> PtePage(e) in m1.pages && PtePage(e) != t)
  {
    hide Leaf, PtePage, IsLeaf, FreeOk, TreeOk, LeavesOk, Unmapped;
    UnmappedLeaf(m, g, m1, g1, sid, first, n, to);
    var v := first + n;
    LeafHasTable(m1, g1, sid, v);
    LeafIs(m1, g1, sid, v);
    UnmapOwner(m1, g1, sid, v);
  }

  lemma UnmappedFree(m: Mem, g: Ledger, m1: Mem, g1: Ledger, sid: nat, first: nat, n: nat, t: nat, e: nat)
    requires Inv(m1, g1, {}) && Unmapped(m, g, m1, g1, sid, first, n, Free)
    requires e == Leaf(m1, g1, sid, first + n) && e != 0 && !Special(first + n) && LeafTable(sid, first + n) in g1.at
    requires t == g1.at[LeafTable(sid, first + n)] && t in m1.pages && |m1.pages[t]| == NPTE && t != PtePage(e)
    requires t in g1.own && g1.own[t] == Table(LeafTable(sid, first + n))
    ensures var m2, g2 := WithEntry(Given(m1, PtePage(e)), t, (first + n) % NPTE, 0), GivenBy(g1, PtePage(e));
      Inv(m2, g2, {}) && Unmapped(m, g, m2, g2, sid, first, n + 1, Free)
  {
    hide Leaf, PtePage, FreeOk, TreeOk, LeavesOk, PagesOk, TablesOk, OneLeaf, Filled, Local, Unmapped;
    FreeLeafInv(m1, g1, sid, first + n);
    UnmappedStep(m, g, m1, g1, WithEntry(Given(m1, PtePage(e)), t, (first + n) % NPTE, 0), sid, first, n, Free);
  }

  lemma UnmappedKeep(m: Mem, g: Ledger, m1: Mem, g1: Ledger, sid: nat, first: nat, n: nat, t: nat, e: nat)
    requires Inv(m1, g1, {}) && Unmapped(m, g, m1, g1, sid, first, n, Held)
    requires e == Leaf(m1, g1, sid, first + n) && e != 0 && LeafTable(sid, first + n) in g1.at
    requires t == g1.at[LeafTable(sid, first + n)] && t in m1.pages && |m1.pages[t]| == NPTE
    requires t in g1.own && g1.own[t] == Table(LeafTable(sid, first + n))
    ensures var m2, g2 := WithEntry(m1, t, (first + n) % NPTE, 0), UnmappedBy(g1, first + n, PtePage(e));
      Inv(m2, g2, {}) && Unmapped(m, g, m2, g2, sid, first, n + 1, Held)
  {
    hide Leaf, PtePage, FreeOk, TreeOk, LeavesOk, PagesOk, TablesOk, OneLeaf, Unmapped;
    UnmapInv(m1, g1, {}, sid, first + n);
    UnmappedStep(m, g, m1, g1, WithEntry(m1, t, (first + n) % NPTE, 0), sid, first, n, Held);
  }

  lemma UnmappedLeaf(m: Mem, g: Ledger, m1: Mem, g1: Ledger, sid: nat, first: nat, n: nat, to: Owner)
    requires Unmapped(m, g, m1, g1, sid, first, n, to)
    ensures Leaf(m1, g1, sid, first + n) == Leaf(m, g, sid, first + n) && g1.at == g.at && g1.own.Keys == g.own.Keys
  {
    hide Leaf;
  }

  // ------------------------------------------------- filling memory and undoing it

  /** User pages k0..k of sid have been filled in from free pages. */
  ghost predicate Filling(m: Mem, g: Ledger, m': Mem, g': Ledger, sid: nat, k0: nat, k: nat) {
    FillingLeaves(m, g, m', g', sid, k0, k) && FillingPages(m, g, m', g', sid, k0, k)
  }

  ghost predicate FillingLeaves(m: Mem, g: Ledger, m': Mem, g': Ledger, sid: nat, k0: nat, k: nat) {
    && k0 <= k
    && (forall s: nat, v: nat :: !(s == sid && k0 <= v < k) ==> Leaf(m', g', s, v) == Leaf(m, g, s, v))
    && (forall v: nat :: k0 <= v < k ==> Leaf(m', g', sid, v) != 0)
  }

  ghost predicate FillingPages(m: Mem, g: Ledger, m': Mem, g': Ledger, sid: nat, k0: nat, k: nat) {
    && k0 <= k
    && g'.own.Keys == g.own.Keys
    && (forall p :: p in g.own && g.own[p] == Free ==>
          g'.own[p] == Free || OwnTable(g'.own[p], sid) || UserIn(g'.own[p], sid, k0, k - k0))
    && (forall p :: p in g.own && g.own[p] != Free ==> g'.own[p] == g.own[p])
    && Untouched(m, g, m', sid)
    && (forall n :: n in g.at ==> n in g'.at && g'.at[n] == g.at[n])
  }

  lemma FillingNone(m: Mem, g: Ledger, sid: nat, k: nat)
    ensures Filling(m, g, m, g, sid, k, k)
  {
  }

  lemma FillingNext(m: Mem, g: Ledger, m1: Mem, g1: Ledger, m2: Mem, g2: Ledger, sid: nat, k0: nat, k: nat, k': nat)
    requires Filling(m, g, m1, g1, sid, k0, k) && Filling(m1, g1, m2, g2, sid, k, k')
    ensures Filling(m, g, m2, g2, sid, k0, k')
  {
    hide Leaf;
  }

  /** Taken, written and mapped: one more page of memory. */
  lemma FillStep(m1: Mem, g1: Ledger, m2: Mem, g2: Ledger, m3: Mem, g3: Ledger, sid: nat, k: nat, p: nat, flags: nat)
    requires !Special(k) && p > 0
    requires p in g1.own && g1.own[p] == Free && g2.own == g1.own[p := Held] && g2.at == g1.at
    requires forall q :: q in m1.pages && q != p ==> q in m2.pages && m2.pages[q] == m1.pages[q]
    requires SameLeaves(m1, g1, m2, g2) && Mapped(m2, g2, m3, g3, sid, k, 1, p, flags)
    ensures Filling(m1, g1, m3, g3, sid, k, k + 1) && Leaf(m3, g3, sid, k) == Pte(p, flags)
  {
    hide Leaf;
  }

  /** Taken, written and given back when mappages() fails. */
  lemma FillFail(m1: Mem, g1: Ledger, m2: Mem, g2: Ledger, m3: Mem, g3: Ledger, sid: nat, k: nat, p: nat, flags: nat)
    requires p in g1.own && g1.own[p] == Free && g2.own == g1.own[p := Held] && g2.at == g1.at
    requires forall q :: q in m1.pages && q != p ==> q in m2.pages && m2.pages[q] == m1.pages[q]
    requires SameLeaves(m1, g1, m2, g2) && Mapped(m2, g2, m3, g3, sid, k, 0, p, flags)
    requires SameLeaves(m3, g3, Given(m3, p), GivenBy(g3, p))
    ensures Filling(m1, g1, Given(m3, p), GivenBy(g3, p), sid, k, k)
  {
    hide Leaf, Pte, Filled;
  }

  /** Unmapping what was filled in restores every mapping; tables that were added
      stay in the tree. */
  lemma FillUndo(m: Mem, g: Ledger, m1: Mem, g1: Ledger, m2: Mem, g2: Ledger, sid: nat, k0: nat, k: nat)
    requires Filling(m, g, m1, g1, sid, k0, k) && Unmapped(m1, g1, m2, g2, sid, k0, k - k0, Free)
    requires LeavesOk(m, g) && forall v: nat :: k0 <= v < k ==> Leaf(m, g, sid, v) == 0
    ensures SameLeaves(m, g, m2, g2) && Grown(m, g, m2, g2, sid)
  {
    hide Leaf, PtePage, IsLeaf;
    assert forall p :: p in g.own && g.own[p].User? ==> !UserIn(g.own[p], sid, k0, k - k0);
  }

  lemma UserFilled(m: Mem, g: Ledger, m': Mem, g': Ledger, sid: nat, k0: nat, k: nat)
    requires UserMapped(m, g, sid, k0) && Filling(m, g, m', g', sid, k0, k) && k <= TRAPFRAME
    ensures UserMapped(m', g', sid, k)
  {
    hide Leaf, FillingPages;
  }

  lemma UserUnmapped(m: Mem, g: Ledger, m': Mem, g': Ledger, sid: nat, k0: nat, k: nat, to: Owner)
    requires UserMapped(m, g, sid, k) && k0 <= k && Unmapped(m, g, m', g', sid, k0, k - k0, to)
    ensures UserMapped(m', g', sid, k0)
  {
    hide Leaf;
  }

  /** Pages k0..k of sid are fresh zeroed memory with the given permissions. */
  ghost predicate ZeroPages(m: Mem, g: Ledger, sid: nat, k0: nat, k: nat, flags: nat) {
    forall v: nat :: k0 <= v < k ==> ZeroPage(m, Leaf(m, g, sid, v), flags)
  }

  predicate ZeroPage(m: Mem, pte: nat, flags: nat) {
    PteFlags(pte) == flags && PtePage(pte) in m.pages && m.pages[PtePage(pte)] == Filled(0)
  }

  /** Filling in further pages leaves a mapped page alone. */
  lemma FillingKeeps(m: Mem, g: Ledger, m': Mem, g': Ledger, sid: nat, k: nat, k': nat, s: nat, v: nat)
    requires Inv(m, g, {}) && Filling(m, g, m', g', sid, k, k') && (s == sid ==> v < k) && !Special(v)
    requires Leaf(m, g, s, v) != 0
    ensures Leaf(m', g', s, v) == Leaf(m, g, s, v)
    ensures var p := PtePage(Leaf(m, g, s, v)); p in m.pages && p in m'.pages && m'.pages[p] == m.pages[p]
  {
    hide Leaf, FreeOk, TreeOk, LeavesOk, TablesOk, PtePage, IsLeaf;
    UnmapOwner(m, g, s, v);
  }

  lemma ZeroNext(m: Mem, g: Ledger, m': Mem, g': Ledger, sid: nat, k0: nat, k: nat, flags: nat)
    requires Inv(m, g, {}) && Filling(m, g, m', g', sid, k, k + 1) && UserMapped(m, g, sid, k)
    requires ZeroPages(m, g, sid, k0, k, flags) && ZeroPage(m', Leaf(m', g', sid, k), flags)
    ensures ZeroPages(m', g', sid, k0, k + 1, flags)
  {
    hide Inv, Leaf, Filling, PteFlags, PtePage, Filled;
    forall v: nat | k0 <= v < k
      ensures ZeroPage(m', Leaf(m', g', sid, v), flags)
    {
      FillingKeeps(m, g, m', g', sid, k, k + 1, sid, v);
    }
  }

  /** The first k pages of nsid, now, are copies of those of osid, at the start. */
  ghost predicate CopyOf(m: Mem, g: Ledger, m': Mem, g': Ledger, osid: nat, nsid: nat, k: nat) {
    forall v: nat :: v < k ==> SamePage(m, Leaf(m, g, osid, v), m', Leaf(m', g', nsid, v))
  }

  predicate SamePage(m: Mem, pte: nat, m': Mem, pte': nat) {
    && PteFlags(pte') == PteFlags(pte)
    && PtePage(pte) in m.pages && PtePage(pte') in m'.pages
    && m'.pages[PtePage(pte')] == m.pages[PtePage(pte)]
  }

  lemma CopyNext(m0: Mem, g0: Ledger, m: Mem, g: Ledger, m': Mem, g': Ledger, osid: nat, nsid: nat, k: nat)
    requires Inv(m, g, {}) && Filling(m, g, m', g', nsid, k, k + 1) && UserMapped(m, g, nsid, k)
    requires CopyOf(m0, g0, m, g, osid, nsid, k) && SamePage(m0, Leaf(m0, g0, osid, k), m', Leaf(m', g', nsid, k))
    ensures CopyOf(m0, g0, m', g', osid, nsid, k + 1)
  {
    hide Inv, Leaf, Filling, PteFlags, PtePage;
    forall v: nat | v < k
      ensures SamePage(m0, Leaf(m0, g0, osid, v), m', Leaf(m', g', nsid, v))
    {
      FillingKeeps(m, g, m', g', nsid, k, k + 1, nsid, v);
    }
  }

  // ------------------------------------------------ new tables, changed flags

  /** uvmcreate(): a zeroed page becomes the root of a new space. */
  lemma RootInv(m: Mem, g: Ledger, sid: nat, p: nat)
    requires Inv(m, g, {}) && p in g.own && g.own[p] == Held && p in m.pages && m.pages[p] == Filled(0)
    requires forall n :: n in g.at ==> n.sid != sid
    ensures var g' := LinkedBy(g, Root(sid), p); Inv(m, g', {}) && SameLeaves(m, g, m, g') && NoLeaves(m, g', sid)
  {
    hide Entry, Leaf, Filled, FreeOk, TreeOk, LeavesOk, PagesOk, TablesOk;
    var g' := LinkedBy(g, Root(sid), p);
    LinkLedger(m, g, Root(sid), p);
    RootWords(m, g, sid, p);
    RootTree(m, g, sid, p);
    PruneLeaves(m, g, m, g');
    LeavesSame(m, g, m, g');
    RootLeaves(m, g, m, g', sid);
  }

  lemma RootWords(m: Mem, g: Ledger, sid: nat, p: nat)
    requires Root(sid) !in g.at && p in m.pages && m.pages[p] == Filled(0)
    ensures SameWords(m, g, m, LinkedBy(g, Root(sid), p))
  {
  }

  lemma RootTree(m: Mem, g: Ledger, sid: nat, p: nat)
    requires TreeOk(m, g, {}) && SameWords(m, g, m, LinkedBy(g, Root(sid), p))
    requires forall n :: n in g.at ==> n.sid != sid
    ensures TreeOk(m, LinkedBy(g, Root(sid), p), {})
  {
    hide Entry;
    var g' := LinkedBy(g, Root(sid), p);
    forall n, i: nat | n in g'.at && n.level > 0 && i < NPTE
      ensures Entry(m, g', n, i) == if n.Child(i) in g'.at then Pte(g'.at[n.Child(i)], PTE_V) else 0
    {
      assert n.Child(i).sid == n.sid;
      assert n != Root(sid) ==> n in g.at && n.Child(i) != Root(sid);
      if n == Root(sid) {
        NoEntry(m, g, n, i);
      }
    }
  }

  lemma RootLeaves(m: Mem, g: Ledger, m': Mem, g': Ledger, sid: nat)
    requires SameLeaves(m, g, m', g') && forall n :: n in g.at ==> n.sid != sid
    ensures NoLeaves(m', g', sid)
  {
    forall vpn: nat
      ensures Leaf(m', g', sid, vpn) == 0
    {
      assert Leaf(m, g, sid, vpn) == 0;
    }
  }

  /** pte & ~PTE_U */
  function WithoutUser(pte: nat): nat {
    if PteFlags(pte) / PTE_U % 2 == 1 then pte - PTE_U else pte
  }

  lemma WithoutUserSame(pte: nat)
    requires IsValid(pte) && IsLeaf(pte)
    ensures var e := WithoutUser(pte);
      && IsValid(e) && IsLeaf(e) && PtePage(e) == PtePage(pte)
      && PteFlags(e) == PteFlags(pte) - if PteFlags(pte) / PTE_U % 2 == 1 then PTE_U else 0
  {
    hide IsValid, IsLeaf;
    var f := PteFlags(pte);
    var f' := if f / PTE_U % 2 == 1 then f - PTE_U else f;
    assert pte == Pte(PtePage(pte), f) && WithoutUser(pte) == Pte(PtePage(pte), f');
    UserBit(pte);
    PteRoundTrip(PtePage(pte), f');
    PteOdd(PtePage(pte), f');
    SameLeafBits(Pte(PtePage(pte), f'), pte);
  }

  lemma UserBit(pte: nat)
    requires IsValid(pte)
    ensures var f := PteFlags(pte);
      f < 1024 && f % 2 == 1 && (f / PTE_U % 2 == 1 ==> f >= 16 && (f - 16) / 2 % 8 == f / 2 % 8 && (f - 16) % 2 == 1)
  {
    var f := PteFlags(pte);
    FlagsOdd(pte);
    var h, b, l := f / 32, f / 16 % 2, f % 16;
    assert f == 32 * h + 16 * b + l;
    LowBits(h, b, l);
    LowBits(h, 0, l);
  }

  lemma FlagsOdd(pte: nat)
    requires IsValid(pte)
    ensures PteFlags(pte) % 2 == 1
  {
    EvenPart(512 * (pte / 1024), pte % 1024);
  }

  lemma EvenPart(x: nat, r: nat)
    ensures (2 * x + r) % 2 == r % 2
  {
  }

  lemma LowBits(h: nat, b: nat, l: nat)
    requires b < 2 && l < 16
    ensures (32 * h + 16 * b + l) / 2 % 8 == l / 2 && (32 * h + 16 * b + l) % 2 == l % 2
  {
    assert (32 * h + 16 * b + l) / 2 == 8 * (2 * h + b) + l / 2;
  }

  lemma SameLeafBits(e: nat, pte: nat)
    requires IsLeaf(pte) && PteFlags(e) / 2 % 8 == PteFlags(pte) / 2 % 8
    ensures IsLeaf(e)
  {
  }

  lemma RewriteInv(m: Mem, g: Ledger, sid: nat, vpn: nat, pte: nat)
    requires Inv(m, g, {}) && Leaf(m, g, sid, vpn) != 0 && IsValid(pte) && IsLeaf(pte)
    requires PtePage(pte) == PtePage(Leaf(m, g, sid, vpn))
    ensures LeafTable(sid, vpn) in g.at && g.at[LeafTable(sid, vpn)] in m.pages && |m.pages[g.at[LeafTable(sid, vpn)]]| == NPTE
    ensures var m' := WithEntry(m, g.at[LeafTable(sid, vpn)], vpn % NPTE, pte);
      Inv(m', g, {}) && OneLeaf(m, g, m', g, sid, vpn, pte)
  {
    hide Entry, Leaf, TreeOk, LeavesOk, OneEntry, OneLeaf, IsLeaf, PtePage, PagesOk, TablesOk, FreeOk;
    LeafHasTable(m, g, sid, vpn);
    var n := LeafTable(sid, vpn);
    EntrySet(m, g, n, vpn % NPTE, pte, g);
    TableWrite(m, g, n, vpn % NPTE, pte);
    var m' := WithEntry(m, g.at[n], vpn % NPTE, pte);
    LeafSet(m, g, m', g, sid, vpn, pte);
    LeafTree(m, g, m', g, {}, n, vpn % NPTE, pte);
    RewriteLeaves(m, g, m', sid, vpn, pte);
  }

  lemma RewriteLeaves(m: Mem, g: Ledger, m': Mem, sid: nat, vpn: nat, pte: nat)
    requires LeavesOk(m, g) && Leaf(m, g, sid, vpn) != 0 && IsValid(pte) && IsLeaf(pte)
    requires PtePage(pte) == PtePage(Leaf(m, g, sid, vpn)) && OneLeaf(m, g, m', g, sid, vpn, pte)
    ensures LeavesOk(m', g)
  {
    hide Leaf, IsLeaf, PtePage;
  }

  // ---------------------------------------------------------- counting pages

  /** As many distinct physical pages as virtual ones. */
  lemma {:induction false} Pigeonhole(m: Mem, g: Ledger, sid: nat, k: nat) returns (s: set<nat>)
    requires LeavesOk(m, g) && k <= TRAPFRAME && forall v: nat :: v < k ==> Leaf(m, g, sid, v) != 0
    ensures |s| == k && s <= g.own.Keys
    ensures forall p :: p in s ==> g.own[p].User? && g.own[p].sid == sid && g.own[p].vpn < k
  {
    hide Leaf, PtePage, IsLeaf;
    if k == 0 {
      s := {};
    } else {
      var t := Pigeonhole(m, g, sid, k - 1);
      UnmapOwner(m, g, sid, k - 1);
      s := t + {PtePage(Leaf(m, g, sid, k - 1))};
    }
  }

  /** User memory cannot reach the trapframe page. */
  lemma NeverFull(m: Mem, g: Ledger, sid: nat, k: nat)
    requires LeavesOk(m, g) && Scarce(g) && k <= TRAPFRAME && forall v: nat :: v < k ==> Leaf(m, g, sid, v) != 0
    ensures k < TRAPFRAME && k <= |g.own|
  {
    var s := Pigeonhole(m, g, sid, k);
    SubsetSize(s, g.own.Keys);
  }
}
