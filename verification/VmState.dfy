/** Physical pages and Sv39 page tables, as values.

    Physical memory is a map from page number to page, a page being 512 64-bit
    words. A page-table page has a place in the tree of its address space: level
    2 is the root, level 0 holds the leaf entries, and `prefix` is the part of the
    virtual page number that leads to it. The ghost record says where each table
    page is, in which order the free pages are linked, and who owns each page. */
module VmState {
  import opened Basics

  const NPTE := 512
  /** MAXVA / PGSIZE: virtual page numbers have 26 bits. */
  const MAXVPN := 0x400_0000
  const TRAMPOLINE := MAXVPN - 1
  const TRAPFRAME := MAXVPN - 2

  const PTE_V := 1
  const PTE_R := 2
  const PTE_W := 4
  const PTE_X := 8
  const PTE_U := 16

  type Page = seq<nat>

  function Filled(word: nat): (p: Page)
    ensures |p| == NPTE && forall i :: 0 <= i < NPTE ==> p[i] == word
  {
    seq<nat>(NPTE, i => word)
  }

  // ------------------------------------------------------------------- PTEs

  /** PA2PTE(pa) | flags for the page with number ppn, with flags below 1024. */
  function Pte(ppn: nat, flags: nat): nat {
    ppn * 1024 + flags
  }

  function PteFlags(pte: nat): nat {
    pte % 1024
  }

  function PtePage(pte: nat): nat {
    pte / 1024
  }

  predicate IsValid(pte: nat) {
    pte % 2 == 1
  }

  /** perm | PTE_V */
  function WithValid(perm: nat): nat {
    if perm % 2 == 1 then perm else perm + 1
  }

  /** An entry with some of R, W and X is a leaf. */
  predicate IsLeaf(pte: nat) {
    PteFlags(pte) / 2 % 8 != 0
  }

  lemma PteRoundTrip(ppn: nat, flags: nat)
    requires flags < 1024
    ensures PtePage(Pte(ppn, flags)) == ppn && PteFlags(Pte(ppn, flags)) == flags
  {
  }

  /** The same on 64-bit words, with the shifts of riscv.h. */
  lemma PteBits(pa: bv64, flags: bv64)
    requires pa & 0xFFF == 0 && pa < 0x100_0000_0000_0000 && flags < 0x400
    ensures ((((pa >> 12) << 10) | flags) >> 10) << 12 == pa
    ensures (((pa >> 12) << 10) | flags) & 0x3FF == flags
  {
  }

  // ------------------------------------------------------------------- tree

  /** A table page of address space sid. */
  datatype Node = Node(sid: nat, level: nat, prefix: nat) {
    function Child(idx: nat): Node
      requires level > 0
    {
      Node(sid, level - 1, prefix * NPTE + idx)
    }

    function Parent(): Node {
      Node(sid, level + 1, prefix / NPTE)
    }

    /** Its position in the parent's page. */
    function Index(): nat {
      prefix % NPTE
    }

    predicate InRange() {
      || (level == 2 && prefix == 0)
      || (level == 1 && prefix < NPTE)
      || (level == 0 && prefix < NPTE * NPTE)
    }
  }

  function Root(sid: nat): Node {
    Node(sid, 2, 0)
  }

  /** The table that holds the leaf entry of virtual page vpn. */
  function LeafTable(sid: nat, vpn: nat): Node {
    Node(sid, 0, vpn / NPTE)
  }

  datatype Owner =
    | Free
    | Held
    | Table(node: Node)
    | User(sid: nat, vpn: nat)
    | Frame(sid: nat)

  datatype Mem = Mem(pages: map<nat, Page>, head: nat)

  datatype Ledger = Ledger(free: seq<nat>, at: map<Node, nat>, own: map<nat, Owner>)

  /** The managed pages all have contents, and page 0 is not one of them. */
  ghost predicate PagesOk(m: Mem, g: Ledger) {
    && m.pages.Keys == g.own.Keys
    && (forall p :: p in m.pages ==> p > 0 && |m.pages[p]| == NPTE)
  }

  /** Table pages are where the ledger says, each in one place. */
  ghost predicate TablesOk(g: Ledger) {
    && (forall n :: n in g.at ==> g.at[n] in g.own && g.own[g.at[n]] == Table(n))
    && (forall p :: p in g.own && g.own[p].Table? ==> g.own[p].node in g.at && g.at[g.own[p].node] == p)
  }

  /** kmem.freelist links exactly the free pages, each once. */
  ghost predicate FreeOk(m: Mem, g: Ledger) {
    FreeLinked(m, g.free) && FreeListed(g.own, g.free)
  }

  /** The pages of the list lead from one to the next. */
  ghost predicate FreeLinked(m: Mem, free: seq<nat>) {
    && (forall i :: 0 <= i < |free| ==> free[i] in m.pages && |m.pages[free[i]]| == NPTE)
    && m.head == (if free == [] then 0 else free[0])
    && (forall i {:trigger m.pages[free[i]][0]} :: 0 <= i < |free| ==>
          m.pages[free[i]][0] == if i + 1 < |free| then free[i + 1] else 0)
  }

  /** They are the free pages, each of them once. */
  ghost predicate FreeListed(own: map<nat, Owner>, free: seq<nat>) {
    && (forall i :: 0 <= i < |free| ==> free[i] in own && own[free[i]] == Free)
    && (forall p :: p in own && own[p] == Free ==> p in free)
    && Distinct(free)
  }

  /** Word idx of the page of node n. */
  function Entry(m: Mem, g: Ledger, n: Node, idx: nat): nat {
    if n in g.at && g.at[n] in m.pages && idx < |m.pages[g.at[n]]| then m.pages[g.at[n]][idx] else 0
  }

  /** An entry of an inner table is empty or leads to the child table; the entries
      that lead to nodes in `stale` have not been cleared yet. */
  ghost predicate TreeOk(m: Mem, g: Ledger, stale: set<Node>) {
    && (forall n :: n in g.at ==> n.InRange() && (n.level < 2 ==> n.Parent() in g.at))
    && (forall n, idx: nat :: n in g.at && n.level > 0 && idx < NPTE && n.Child(idx) !in stale ==>
          Entry(m, g, n, idx) == if n.Child(idx) in g.at then Pte(g.at[n.Child(idx)], PTE_V) else 0)
  }

  /** The leaf entry of a virtual page, 0 if there is none. */
  function Leaf(m: Mem, g: Ledger, sid: nat, vpn: nat): nat {
    Entry(m, g, LeafTable(sid, vpn), vpn % NPTE)
  }

  predicate Special(vpn: nat) {
    vpn == TRAMPOLINE || vpn == TRAPFRAME
  }

  /** Leaf entries are valid leaves; outside the two special pages they lead to
      the page that the virtual page owns, and every user page is owned so. */
  ghost predicate LeavesOk(m: Mem, g: Ledger) {
    && (forall sid: nat, vpn: nat :: Leaf(m, g, sid, vpn) != 0 ==>
          && IsValid(Leaf(m, g, sid, vpn)) && IsLeaf(Leaf(m, g, sid, vpn))
          && (!Special(vpn) ==>
                PtePage(Leaf(m, g, sid, vpn)) in g.own && g.own[PtePage(Leaf(m, g, sid, vpn))] == User(sid, vpn)))
    && (forall p :: p in g.own && g.own[p].User? ==>
          && !Special(g.own[p].vpn)
          && Leaf(m, g, g.own[p].sid, g.own[p].vpn) != 0
          && PtePage(Leaf(m, g, g.own[p].sid, g.own[p].vpn)) == p)
  }

  /** Each managed page has one role, and the tables and the free list agree. */
  ghost predicate Inv(m: Mem, g: Ledger, stale: set<Node>) {
    && PagesOk(m, g)
    && TablesOk(g)
    && FreeOk(m, g)
    && TreeOk(m, g, stale)
    && LeavesOk(m, g)
  }

  // ------------------------------------------------------- elementary updates

  ghost predicate SameEntries(m: Mem, g: Ledger, m': Mem, g': Ledger) {
    && g'.at == g.at
    && forall n: Node, idx: nat :: Entry(m', g', n, idx) == Entry(m, g, n, idx)
  }

  /** Pages that are not tables can change without changing any entry. */
  lemma EntryFrame(m: Mem, g: Ledger, p: nat, page: Page, head: nat, g': Ledger)
    requires TablesOk(g) && (p in g.own ==> !g.own[p].Table?) && g'.at == g.at
    ensures SameEntries(m, g, Mem(m.pages[p := page], head), g')
  {
  }

  lemma TreeFrame(m: Mem, g: Ledger, m': Mem, g': Ledger, stale: set<Node>)
    requires TreeOk(m, g, stale) && SameEntries(m, g, m', g')
    ensures TreeOk(m', g', stale)
  {
    hide Entry;
  }

  lemma LeavesFrame(m: Mem, g: Ledger, m': Mem, g': Ledger)
    requires LeavesOk(m, g) && SameEntries(m, g, m', g')
    requires forall p :: p in g.own && g.own[p].User? ==> p in g'.own && g'.own[p] == g.own[p]
    requires forall p :: p in g'.own && g'.own[p].User? ==> p in g.own && g.own[p] == g'.own[p]
    ensures LeavesOk(m', g')
  {
    LeafSame(m, g, m', g');
    hide Leaf, IsLeaf;
  }

  lemma LeafSame(m: Mem, g: Ledger, m': Mem, g': Ledger)
    requires SameEntries(m, g, m', g')
    ensures forall sid: nat, vpn: nat :: Leaf(m', g', sid, vpn) == Leaf(m, g, sid, vpn)
  {
    hide Entry;
  }

  /** kalloc() of the first free page, which it fills with junk. */
  const JUNK_TAKEN := 0x0505_0505_0505_0505
  const JUNK_FREED := 0x0101_0101_0101_0101

  function Taken(m: Mem): Mem
    requires m.head in m.pages && |m.pages[m.head]| == NPTE
  {
    Mem(m.pages[m.head := Filled(JUNK_TAKEN)], m.pages[m.head][0])
  }

  ghost function TakenBy(g: Ledger): Ledger
    requires g.free != []
  {
    g.(free := g.free[1..], own := g.own[g.free[0] := Held])
  }

  lemma TakeFree(m: Mem, g: Ledger)
    requires PagesOk(m, g) && FreeOk(m, g) && m.head != 0
    ensures g.free != [] && m.head == g.free[0] && m.head in m.pages && |m.pages[m.head]| == NPTE
    ensures FreeOk(Taken(m), TakenBy(g)) && PagesOk(Taken(m), TakenBy(g))
    ensures m.head in g.own && g.own[m.head] == Free
  {
    hide Filled, FreeLinked, FreeListed;
    TakeListed(g.own, g.free);
    TakeLinked(m, g.free);
  }

  lemma TakeLinked(m: Mem, free: seq<nat>)
    requires FreeLinked(m, free) && Distinct(free) && m.head != 0
    ensures free != [] && m.head == free[0] && m.head in m.pages && |m.pages[m.head]| == NPTE
    ensures FreeLinked(Taken(m), free[1..])
  {
    hide Filled;
    var m', rest := Taken(m), free[1..];
    assert m.pages[free[0]][0] == if 1 < |free| then free[1] else 0;
    forall i {:trigger m'.pages[rest[i]][0]} | 0 <= i < |rest|
      ensures m'.pages[rest[i]][0] == if i + 1 < |rest| then rest[i + 1] else 0
    {
      assert rest[i] == free[i + 1] && free[i + 1] != free[0];
      assert m.pages[free[i + 1]][0] == if i + 2 < |free| then free[i + 2] else 0;
    }
  }

  lemma TakeListed(own: map<nat, Owner>, free: seq<nat>)
    requires FreeListed(own, free)
    ensures Distinct(free)
    ensures free != [] ==> free[0] in own && own[free[0]] == Free && FreeListed(own[free[0] := Held], free[1..])
  {
    if free != [] {
      assert free == [free[0]] + free[1..];
    }
  }

  /** A page off the free list is held by its taker, and nothing else changes. */
  lemma TakeInv(m: Mem, g: Ledger, stale: set<Node>)
    requires Inv(m, g, stale) && m.head != 0
    ensures g.free != [] && m.head == g.free[0] && m.head in m.pages && |m.pages[m.head]| == NPTE
    ensures m.head in g.own && g.own[m.head] == Free
    ensures Inv(Taken(m), TakenBy(g), stale) && SameEntries(m, g, Taken(m), TakenBy(g))
  {
    hide Entry, FreeOk, TreeOk, LeavesOk, SameEntries;
    TakeFree(m, g);
    var m', g' := Taken(m), TakenBy(g);
    EntryFrame(m, g, m.head, Filled(JUNK_TAKEN), m'.head, g');
    TreeFrame(m, g, m', g', stale);
    LeavesFrame(m, g, m', g');
  }

  /** kfree() of page p: junk, then the link to the old head. */
  function Given(m: Mem, p: nat): Mem {
    Mem(m.pages[p := Filled(JUNK_FREED)[0 := m.head]], p)
  }

  ghost function GivenBy(g: Ledger, p: nat): Ledger {
    g.(free := [p] + g.free, own := g.own[p := Free])
  }

  lemma GiveFree(m: Mem, g: Ledger, p: nat)
    requires PagesOk(m, g) && FreeOk(m, g) && p in g.own && g.own[p] != Free
    ensures FreeOk(Given(m, p), GivenBy(g, p)) && PagesOk(Given(m, p), GivenBy(g, p))
  {
    var m', g' := Given(m, p), GivenBy(g, p);
    forall i {:trigger m'.pages[g'.free[i]][0]} | 0 <= i < |g'.free|
      ensures m'.pages[g'.free[i]][0] == if i + 1 < |g'.free| then g'.free[i + 1] else 0
    {
      if i > 0 {
        assert g'.free[i] == g.free[i - 1];
        assert m.pages[g.free[i - 1]][0] == if i < |g.free| then g.free[i] else 0;
      }
    }
  }

  lemma GiveInv(m: Mem, g: Ledger, stale: set<Node>, p: nat)
    requires Inv(m, g, stale) && p in g.own && (g.own[p] == Held || g.own[p].Frame?)
    ensures Inv(Given(m, p), GivenBy(g, p), stale) && SameEntries(m, g, Given(m, p), GivenBy(g, p))
  {
    hide Entry, FreeOk, TreeOk, LeavesOk, SameEntries;
    GiveFree(m, g, p);
    var m', g' := Given(m, p), GivenBy(g, p);
    EntryFrame(m, g, p, Filled(JUNK_FREED)[0 := m.head], p, g');
    TreeFrame(m, g, m', g', stale);
    LeavesFrame(m, g, m', g');
  }

  /** Writing the contents of a page that is neither free nor a table. */
  lemma WriteInv(m: Mem, g: Ledger, stale: set<Node>, p: nat, page: Page)
    requires Inv(m, g, stale) && p in g.own && g.own[p] != Free && !g.own[p].Table? && |page| == NPTE
    ensures Inv(m.(pages := m.pages[p := page]), g, stale)
    ensures SameEntries(m, g, m.(pages := m.pages[p := page]), g)
  {
    hide Entry, TreeOk, LeavesOk, SameEntries;
    var m' := m.(pages := m.pages[p := page]);
    EntryFrame(m, g, p, page, m.head, g);
    TreeFrame(m, g, m', g, stale);
    LeavesFrame(m, g, m', g);
  }

  /** Passing a page that is neither free nor a table to another owner. */
  lemma Reowned(m: Mem, g: Ledger, p: nat, o: Owner)
    requires PagesOk(m, g) && TablesOk(g) && FreeOk(m, g)
    requires p in g.own && g.own[p] != Free && !g.own[p].Table? && o != Free && !o.Table?
    ensures PagesOk(m, g.(own := g.own[p := o])) && TablesOk(g.(own := g.own[p := o])) && FreeOk(m, g.(own := g.own[p := o]))
  {
  }

  /** A held page becomes a trapframe. */
  lemma FrameInv(m: Mem, g: Ledger, stale: set<Node>, p: nat, sid: nat)
    requires Inv(m, g, stale) && p in g.own && g.own[p] == Held
    ensures Inv(m, g.(own := g.own[p := Frame(sid)]), stale)
    ensures SameEntries(m, g, m, g.(own := g.own[p := Frame(sid)]))
  {
    hide Entry, TreeOk, LeavesOk, SameEntries, PagesOk, TablesOk, FreeOk;
    var g' := g.(own := g.own[p := Frame(sid)]);
    Reowned(m, g, p, Frame(sid));
    EntryUnchanged(m, g, g');
    TreeFrame(m, g, m, g', stale);
    LeavesFrame(m, g, m, g');
  }

  lemma EntryUnchanged(m: Mem, g: Ledger, g': Ledger)
    requires g'.at == g.at
    ensures SameEntries(m, g, m, g')
  {
  }

  // --------------------------------------------------------- table updates

  function WithEntry(m: Mem, p: nat, idx: nat, pte: nat): Mem
    requires p in m.pages && idx < |m.pages[p]|
  {
    var page: Page := m.pages[p][idx := pte];
    m.(pages := m.pages[p := page])
  }

  /** Exactly one entry changes. */
  ghost predicate OneEntry(m: Mem, g: Ledger, m': Mem, g': Ledger, n: Node, idx: nat, pte: nat) {
    forall x: Node, i: nat :: Entry(m', g', x, i) == if x == n && i == idx then pte else Entry(m, g, x, i)
  }

  lemma EntrySet(m: Mem, g: Ledger, n: Node, idx: nat, pte: nat, g': Ledger)
    requires PagesOk(m, g) && TablesOk(g) && n in g.at && idx < NPTE && g'.at == g.at
    ensures g.at[n] in m.pages && |m.pages[g.at[n]]| == NPTE
    ensures OneEntry(m, g, WithEntry(m, g.at[n], idx, pte), g', n, idx, pte)
  {
  }

  /** Writing a table page disturbs neither the free list nor the page sizes. */
  lemma TableWrite(m: Mem, g: Ledger, n: Node, idx: nat, pte: nat)
    requires PagesOk(m, g) && TablesOk(g) && FreeOk(m, g) && n in g.at && idx < NPTE
    ensures g.at[n] in m.pages && |m.pages[g.at[n]]| == NPTE
    ensures PagesOk(WithEntry(m, g.at[n], idx, pte), g) && FreeOk(WithEntry(m, g.at[n], idx, pte), g)
  {
  }

  lemma ChildUnique(n: Node, idx: nat, x: Node, i: nat)
    requires n.level > 0 && x.level > 0 && idx < NPTE && i < NPTE
    ensures n.Child(idx) == x.Child(i) <==> n == x && idx == i
    ensures n.Child(idx).Parent() == n && n.Child(idx).Index() == idx
    ensures n.InRange() ==> n.Child(idx).InRange()
  {
  }

  /** walk() hangs a zeroed page into the tree: one more table, the same leaves. */
  ghost function LinkedBy(g: Ledger, c: Node, p: nat): Ledger {
    g.(at := g.at[c := p], own := g.own[p := Table(c)])
  }

  lemma LinkEntries(m: Mem, g: Ledger, n: Node, idx: nat, p: nat)
    requires PagesOk(m, g) && TablesOk(g) && n in g.at && n.level > 0 && idx < NPTE && n.Child(idx) !in g.at
    requires p in g.own && g.own[p] == Held && m.pages[p] == Filled(0)
    ensures g.at[n] in m.pages && |m.pages[g.at[n]]| == NPTE
    ensures OneEntry(m, g, WithEntry(m, g.at[n], idx, Pte(p, PTE_V)), LinkedBy(g, n.Child(idx), p), n, idx, Pte(p, PTE_V))
  {
    var m', g' := WithEntry(m, g.at[n], idx, Pte(p, PTE_V)), LinkedBy(g, n.Child(idx), p);
    forall x: Node, i: nat
      ensures Entry(m', g', x, i) == if x == n && i == idx then Pte(p, PTE_V) else Entry(m, g, x, i)
    {
    }
  }

  lemma LinkTree(m: Mem, g: Ledger, m': Mem, stale: set<Node>, n: Node, idx: nat, p: nat)
    requires TreeOk(m, g, stale) && n in g.at && n.level > 0 && idx < NPTE
    requires n.Child(idx) !in g.at && n.Child(idx) !in stale
    requires OneEntry(m, g, m', LinkedBy(g, n.Child(idx), p), n, idx, Pte(p, PTE_V))
    ensures TreeOk(m', LinkedBy(g, n.Child(idx), p), stale)
  {
    hide Entry;
    var c, g' := n.Child(idx), LinkedBy(g, n.Child(idx), p);
    ChildUnique(n, idx, n, idx);
    forall x, i: nat | x in g'.at && x.level > 0 && i < NPTE && x.Child(i) !in stale
      ensures Entry(m', g', x, i) == if x.Child(i) in g'.at then Pte(g'.at[x.Child(i)], PTE_V) else 0
    {
      ChildUnique(n, idx, x, i);
      if x == c {
        ChildUnique(c, i, c, i);
        assert c.Child(i) !in g.at;
        NoEntry(m, g, c, i);
      }
    }
  }

  lemma NoEntry(m: Mem, g: Ledger, n: Node, idx: nat)
    requires n !in g.at
    ensures Entry(m, g, n, idx) == 0
  {
  }

  lemma InnerLeaves(m: Mem, g: Ledger, m': Mem, g': Ledger, n: Node, idx: nat, pte: nat)
    requires OneEntry(m, g, m', g', n, idx, pte) && n.level > 0
    ensures forall sid: nat, vpn: nat :: Leaf(m', g', sid, vpn) == Leaf(m, g, sid, vpn)
  {
    hide Entry;
  }

  lemma LeavesSame(m: Mem, g: Ledger, m': Mem, g': Ledger)
    requires LeavesOk(m, g) && forall sid: nat, vpn: nat :: Leaf(m', g', sid, vpn) == Leaf(m, g, sid, vpn)
    requires forall p :: p in g.own && g.own[p].User? ==> p in g'.own && g'.own[p] == g.own[p]
    requires forall p :: p in g'.own && g'.own[p].User? ==> p in g.own && g.own[p] == g'.own[p]
    ensures LeavesOk(m', g')
  {
    hide Leaf, IsLeaf;
  }

  lemma LinkLedger(m: Mem, g: Ledger, c: Node, p: nat)
    requires PagesOk(m, g) && TablesOk(g) && FreeOk(m, g)
    requires c !in g.at && p in g.own && g.own[p] == Held
    ensures PagesOk(m, LinkedBy(g, c, p)) && TablesOk(LinkedBy(g, c, p)) && FreeOk(m, LinkedBy(g, c, p))
  {
  }

  lemma LinkInv(m: Mem, g: Ledger, stale: set<Node>, n: Node, idx: nat, p: nat)
    requires Inv(m, g, stale) && n in g.at && n.level > 0 && idx < NPTE
    requires n.Child(idx) !in g.at && n.Child(idx) !in stale
    requires p in g.own && g.own[p] == Held && m.pages[p] == Filled(0)
    ensures g.at[n] in m.pages && |m.pages[g.at[n]]| == NPTE
    ensures var m', g' := WithEntry(m, g.at[n], idx, Pte(p, PTE_V)), LinkedBy(g, n.Child(idx), p);
      Inv(m', g', stale) && SameLeaves(m, g, m', g')
  {
    hide Entry, Leaf, TreeOk, LeavesOk, OneEntry, Filled, Pte, PagesOk, TablesOk, FreeOk;
    LinkEntries(m, g, n, idx, p);
    TableWrite(m, g, n, idx, Pte(p, PTE_V));
    LinkLedger(WithEntry(m, g.at[n], idx, Pte(p, PTE_V)), g, n.Child(idx), p);
    var m', g' := WithEntry(m, g.at[n], idx, Pte(p, PTE_V)), LinkedBy(g, n.Child(idx), p);
    LinkTree(m, g, m', stale, n, idx, p);
    InnerLeaves(m, g, m', g', n, idx, Pte(p, PTE_V));
    LeavesSame(m, g, m', g');
  }

  ghost predicate SameLeaves(m: Mem, g: Ledger, m': Mem, g': Ledger) {
    forall sid: nat, vpn: nat :: Leaf(m', g', sid, vpn) == Leaf(m, g, sid, vpn)
  }

  // ---------------------------------------------------------- leaf updates

  /** Exactly one virtual page changes. */
  ghost predicate OneLeaf(m: Mem, g: Ledger, m': Mem, g': Ledger, sid: nat, vpn: nat, pte: nat) {
    forall s: nat, v: nat :: Leaf(m', g', s, v) == if s == sid && v == vpn then pte else Leaf(m, g, s, v)
  }

  lemma LeafSet(m: Mem, g: Ledger, m': Mem, g': Ledger, sid: nat, vpn: nat, pte: nat)
    requires OneEntry(m, g, m', g', LeafTable(sid, vpn), vpn % NPTE, pte)
    ensures OneLeaf(m, g, m', g', sid, vpn, pte)
  {
    hide Entry;
    forall s: nat, v: nat
      ensures Leaf(m', g', s, v) == if s == sid && v == vpn then pte else Leaf(m, g, s, v)
    {
      assert LeafTable(s, v) == LeafTable(sid, vpn) && v % NPTE == vpn % NPTE <==> s == sid && v == vpn;
    }
  }

  lemma LeafTree(m: Mem, g: Ledger, m': Mem, g': Ledger, stale: set<Node>, n: Node, idx: nat, pte: nat)
    requires TreeOk(m, g, stale) && OneEntry(m, g, m', g', n, idx, pte) && n.level == 0 && g'.at == g.at
    ensures TreeOk(m', g', stale)
  {
    hide Entry;
  }

  /** The ledger after page p has been mapped at vpn, or after it has been taken
      out again. */
  ghost function MappedBy(g: Ledger, sid: nat, vpn: nat, p: nat): Ledger {
    if Special(vpn) then g else g.(own := g.own[p := User(sid, vpn)])
  }

  ghost function UnmappedBy(g: Ledger, vpn: nat, p: nat): Ledger {
    if Special(vpn) then g else g.(own := g.own[p := Held])
  }

  lemma MapLeaves(m: Mem, g: Ledger, m': Mem, sid: nat, vpn: nat, pte: nat)
    requires LeavesOk(m, g) && Leaf(m, g, sid, vpn) == 0 && IsValid(pte) && IsLeaf(pte)
    requires !Special(vpn) ==> PtePage(pte) in g.own && g.own[PtePage(pte)] == Held
    requires OneLeaf(m, g, m', MappedBy(g, sid, vpn, PtePage(pte)), sid, vpn, pte)
    ensures LeavesOk(m', MappedBy(g, sid, vpn, PtePage(pte)))
  {
    hide Leaf, IsLeaf, PtePage;
  }

  /** mappages() for one page. */
  lemma MapInv(m: Mem, g: Ledger, stale: set<Node>, sid: nat, vpn: nat, pte: nat)
    requires Inv(m, g, stale) && LeafTable(sid, vpn) in g.at && Leaf(m, g, sid, vpn) == 0
    requires IsValid(pte) && IsLeaf(pte)
    requires !Special(vpn) ==> PtePage(pte) in g.own && g.own[PtePage(pte)] == Held
    ensures g.at[LeafTable(sid, vpn)] in m.pages && |m.pages[g.at[LeafTable(sid, vpn)]]| == NPTE
    ensures var m', g' := WithEntry(m, g.at[LeafTable(sid, vpn)], vpn % NPTE, pte), MappedBy(g, sid, vpn, PtePage(pte));
      Inv(m', g', stale) && OneLeaf(m, g, m', g', sid, vpn, pte)
  {
    hide Entry, Leaf, TreeOk, LeavesOk, OneEntry, OneLeaf, IsLeaf, PtePage, PagesOk, TablesOk, FreeOk;
    var n, g' := LeafTable(sid, vpn), MappedBy(g, sid, vpn, PtePage(pte));
    EntrySet(m, g, n, vpn % NPTE, pte, g');
    TableWrite(m, g, n, vpn % NPTE, pte);
    var m' := WithEntry(m, g.at[n], vpn % NPTE, pte);
    if !Special(vpn) {
      Reowned(m', g, PtePage(pte), User(sid, vpn));
    }
    LeafSet(m, g, m', g', sid, vpn, pte);
    LeafTree(m, g, m', g', stale, n, vpn % NPTE, pte);
    MapLeaves(m, g, m', sid, vpn, pte);
  }

  lemma UnmapLeaves(m: Mem, g: Ledger, m': Mem, sid: nat, vpn: nat)
    requires LeavesOk(m, g) && Leaf(m, g, sid, vpn) != 0
    requires var p := PtePage(Leaf(m, g, sid, vpn)); OneLeaf(m, g, m', UnmappedBy(g, vpn, p), sid, vpn, 0)
    ensures LeavesOk(m', UnmappedBy(g, vpn, PtePage(Leaf(m, g, sid, vpn))))
  {
    hide Leaf, IsLeaf, PtePage;
  }

  /** uvmunmap() for one page; the page that was there is then held. */
  lemma UnmapInv(m: Mem, g: Ledger, stale: set<Node>, sid: nat, vpn: nat)
    requires Inv(m, g, stale) && Leaf(m, g, sid, vpn) != 0
    ensures LeafTable(sid, vpn) in g.at && g.at[LeafTable(sid, vpn)] in m.pages
    ensures |m.pages[g.at[LeafTable(sid, vpn)]]| == NPTE
    ensures var p := PtePage(Leaf(m, g, sid, vpn));
      var m', g' := WithEntry(m, g.at[LeafTable(sid, vpn)], vpn % NPTE, 0), UnmappedBy(g, vpn, p);
      Inv(m', g', stale) && OneLeaf(m, g, m', g', sid, vpn, 0)
  {
    hide Entry, Leaf, TreeOk, LeavesOk, OneEntry, OneLeaf, IsLeaf, PtePage, PagesOk, TablesOk, FreeOk;
    LeafHasTable(m, g, sid, vpn);
    UnmapOwner(m, g, sid, vpn);
    var n, g' := LeafTable(sid, vpn), UnmappedBy(g, vpn, PtePage(Leaf(m, g, sid, vpn)));
    EntrySet(m, g, n, vpn % NPTE, 0, g');
    TableWrite(m, g, n, vpn % NPTE, 0);
    var m' := WithEntry(m, g.at[n], vpn % NPTE, 0);
    if !Special(vpn) {
      Reowned(m', g, PtePage(Leaf(m, g, sid, vpn)), Held);
    }
    LeafSet(m, g, m', g', sid, vpn, 0);
    LeafTree(m, g, m', g', stale, n, vpn % NPTE, 0);
    UnmapLeaves(m, g, m', sid, vpn);
  }

  lemma UnmapOwner(m: Mem, g: Ledger, sid: nat, vpn: nat)
    requires LeavesOk(m, g) && Leaf(m, g, sid, vpn) != 0
    ensures var p := PtePage(Leaf(m, g, sid, vpn)); !Special(vpn) ==> p in g.own && g.own[p] == User(sid, vpn)
    ensures IsValid(Leaf(m, g, sid, vpn)) && IsLeaf(Leaf(m, g, sid, vpn))
  {
    hide Leaf;
  }

  lemma LeafHasTable(m: Mem, g: Ledger, sid: nat, vpn: nat)
    requires Leaf(m, g, sid, vpn) != 0
    ensures LeafTable(sid, vpn) in g.at
  {
  }
}
