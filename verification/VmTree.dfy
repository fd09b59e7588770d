/** Address spaces: what an operation on one of them may touch, the way down the
    tree, and taking the tree apart. */
module VmTree {
  import opened VmState

  // ------------------------------------------------------------- isolation

  /** Pages that an operation on space sid may use: free ones, its own tables and
      user pages, and pages it has just allocated. */
  predicate Mine(o: Owner, sid: nat) {
    || o == Free
    || o == Held
    || (o.Table? && o.node.sid == sid)
    || (o.User? && o.sid == sid)
  }

  /** Nothing outside space sid changes: no page of another owner changes hands or
      contents, and no managed page is lost or gained. */
  ghost predicate Local(m: Mem, g: Ledger, m': Mem, g': Ledger, sid: nat) {
    && g'.own.Keys == g.own.Keys
    && (forall p :: p in g.own && Mine(g.own[p], sid) ==> Mine(g'.own[p], sid))
    && (forall p :: p in g.own && !Mine(g.own[p], sid) ==>
          && g'.own[p] == g.own[p]
          && (p in m.pages ==> p in m'.pages && m'.pages[p] == m.pages[p]))
  }

  lemma LocalRefl(m: Mem, g: Ledger, sid: nat)
    ensures Local(m, g, m, g, sid)
  {
  }

  lemma LocalTransitive(m: Mem, g: Ledger, m1: Mem, g1: Ledger, m2: Mem, g2: Ledger, sid: nat)
    requires Local(m, g, m1, g1, sid) && Local(m1, g1, m2, g2, sid)
    ensures Local(m, g, m2, g2, sid)
  {
  }

  /** The other spaces keep their mappings. */
  lemma LocalLeaves(m: Mem, g: Ledger, m': Mem, g': Ledger, sid: nat, s: nat, v: nat)
    requires Local(m, g, m', g', sid) && PagesOk(m, g) && TablesOk(g) && TablesOk(g') && s != sid
    ensures Leaf(m', g', s, v) == Leaf(m, g, s, v)
  {
    var n := LeafTable(s, v);
    if n in g.at {
      assert g.own[g.at[n]] == Table(n);
    }
    if n in g'.at {
      assert g'.own[g'.at[n]] == Table(n);
      assert !Mine(g.own[g'.at[n]], sid);
    }
  }

  lemma SameTwice(m: Mem, g: Ledger, m1: Mem, g1: Ledger, m2: Mem, g2: Ledger)
    requires SameLeaves(m, g, m1, g1) && SameLeaves(m1, g1, m2, g2)
    ensures SameLeaves(m, g, m2, g2)
  {
    hide Leaf;
  }

  // -------------------------------------------------------- elementary steps

  /** uvmunmap() frees the page and then clears the entry. */
  lemma FreeLeafInv(m: Mem, g: Ledger, sid: nat, vpn: nat)
    requires Inv(m, g, {}) && Leaf(m, g, sid, vpn) != 0 && !Special(vpn)
    ensures LeafTable(sid, vpn) in g.at && g.at[LeafTable(sid, vpn)] in m.pages
    ensures |m.pages[g.at[LeafTable(sid, vpn)]]| == NPTE
    ensures var p, t := PtePage(Leaf(m, g, sid, vpn)), g.at[LeafTable(sid, vpn)];
      && p in m.pages && p != t
      && var m', g' := WithEntry(Given(m, p), t, vpn % NPTE, 0), GivenBy(g, p);
      && Inv(m', g', {}) && OneLeaf(m, g, m', g', sid, vpn, 0) && Local(m, g, m', g', sid)
  {
    hide Leaf, TreeOk, LeavesOk, FreeOk, OneLeaf, SameEntries, PtePage, PagesOk, TablesOk, Local, Filled;
    UnmapInv(m, g, {}, sid, vpn);
    FreeLeafPages(m, g, sid, vpn);
    var p, t := PtePage(Leaf(m, g, sid, vpn)), g.at[LeafTable(sid, vpn)];
    var m1, g1 := WithEntry(m, t, vpn % NPTE, 0), UnmappedBy(g, vpn, p);
    GiveInv(m1, g1, {}, p);
    var m', g' := WithEntry(Given(m, p), t, vpn % NPTE, 0), GivenBy(g, p);
    assert m' == Given(m1, p);
    assert g' == GivenBy(g1, p);
    OneLeafThenSame(m, g, m1, g1, m', g', sid, vpn, 0);
  }

  lemma FreeLeafPages(m: Mem, g: Ledger, sid: nat, vpn: nat)
    requires PagesOk(m, g) && TablesOk(g) && LeavesOk(m, g) && Leaf(m, g, sid, vpn) != 0 && !Special(vpn)
    ensures LeafTable(sid, vpn) in g.at
    ensures var p, t := PtePage(Leaf(m, g, sid, vpn)), g.at[LeafTable(sid, vpn)];
      && p in g.own && g.own[p] == User(sid, vpn) && p in m.pages && p != t
      && t in m.pages && |m.pages[t]| == NPTE
      && Local(m, g, WithEntry(Given(m, p), t, vpn % NPTE, 0), GivenBy(g, p), sid)
  {
    hide Leaf, LeavesOk, PtePage, Filled;
    LeafHasTable(m, g, sid, vpn);
    UnmapOwner(m, g, sid, vpn);
  }

  lemma OneLeafThenSame(m: Mem, g: Ledger, m1: Mem, g1: Ledger, m': Mem, g': Ledger, sid: nat, vpn: nat, pte: nat)
    requires OneLeaf(m, g, m1, g1, sid, vpn, pte) && SameEntries(m1, g1, m', g')
    ensures OneLeaf(m, g, m', g', sid, vpn, pte)
  {
    LeafSame(m1, g1, m', g');
    hide Leaf;
  }

  // ------------------------------------------------------- taking a tree apart

  /** The node above x at the given level. */
  function Ancestor(x: Node, level: nat): Node
    decreases level - x.level
  {
    if x.level >= level then x else Ancestor(x.Parent(), level)
  }

  predicate Under(x: Node, c: Node) {
    x.level <= c.level && Ancestor(x, c.level) == c
  }

  /** x hangs below one of the first k entries of c. */
  predicate UnderFirst(x: Node, c: Node, k: nat) {
    && x.level < c.level
    && Ancestor(x, c.level - 1).Parent() == c
    && Ancestor(x, c.level - 1).Index() < k
  }

  lemma {:induction false} AncestorStep(x: Node, level: nat)
    requires x.level <= level
    ensures Ancestor(x, level + 1) == Ancestor(x, level).Parent() && Ancestor(x, level).level == level
    decreases level - x.level
  {
    if x.level < level {
      AncestorStep(x.Parent(), level);
    }
  }

  lemma UnderStep(x: Node, c: Node, k: nat)
    requires k <= NPTE
    ensures UnderFirst(x, c, NPTE) || x == c <==> Under(x, c)
    ensures !UnderFirst(x, c, 0)
    ensures c.level > 0 && k < NPTE ==> (UnderFirst(x, c, k + 1) <==> UnderFirst(x, c, k) || Under(x, c.Child(k)))
    ensures c.level > 0 && k < NPTE && Under(x, c.Child(k)) ==> !UnderFirst(x, c, k)
  {
    if x.level < c.level {
      AncestorStep(x, c.level - 1);
    }
  }

  lemma {:induction false} UnderSid(x: Node, c: Node)
    requires Under(x, c)
    ensures x.sid == c.sid
    decreases c.level - x.level
  {
    if x.level < c.level {
      UnderSid(x.Parent(), c);
    }
  }

  lemma {:induction false} RootAbove(x: Node)
    requires x.InRange()
    ensures Under(x, Root(x.sid))
    decreases 2 - x.level
  {
    if x.level < 2 {
      assert x.Parent().InRange();
      RootAbove(x.Parent());
    }
  }

  /** The tables below the first k entries of c are gone and their pages are free;
      all others are as they were. */
  ghost predicate Cut(g: Ledger, g': Ledger, c: Node, k: nat) {
    && (forall x :: x in g.at && !UnderFirst(x, c, k) ==> x in g'.at && g'.at[x] == g.at[x])
    && (forall x :: x in g'.at ==> x in g.at && !UnderFirst(x, c, k))
    && Released(g, g')
  }

  /** The same for c and everything below it. */
  ghost predicate Removed(g: Ledger, g': Ledger, c: Node) {
    && (forall x :: x in g.at && !Under(x, c) ==> x in g'.at && g'.at[x] == g.at[x])
    && (forall x :: x in g'.at ==> x in g.at && !Under(x, c))
    && Released(g, g')
  }

  /** Pages change hands only when tables become free. */
  ghost predicate Released(g: Ledger, g': Ledger) {
    && g'.own.Keys == g.own.Keys
    && forall p :: p in g.own ==> g'.own[p] == g.own[p] || (g.own[p].Table? && g'.own[p] == Free)
  }

  lemma CutNone(g: Ledger, c: Node)
    ensures Cut(g, g, c, 0)
  {
    forall x | x in g.at
      ensures !UnderFirst(x, c, 0)
    {
      UnderStep(x, c, 0);
    }
  }

  lemma CutSkip(g: Ledger, g': Ledger, c: Node, k: nat)
    requires Cut(g, g', c, k) && k < NPTE && TreeClosed(g') && c.level <= 2 && (c.level > 0 ==> c.Child(k) !in g'.at)
    ensures Cut(g, g', c, k + 1)
  {
    hide UnderFirst, Under, TreeClosed;
    forall x
      ensures UnderFirst(x, c, k + 1) <==> UnderFirst(x, c, k) || (c.level > 0 && Under(x, c.Child(k)))
      ensures c.level > 0 && Under(x, c.Child(k)) ==> x !in g'.at
    {
      UnderNext(x, c, k);
      if c.level > 0 && Under(x, c.Child(k)) && x in g'.at {
        ClosedAbove(g', x, c.Child(k));
      }
    }
  }

  lemma UnderNext(x: Node, c: Node, k: nat)
    requires k < NPTE
    ensures UnderFirst(x, c, k + 1) <==> UnderFirst(x, c, k) || (c.level > 0 && Under(x, c.Child(k)))
  {
    UnderStep(x, c, k);
  }

  ghost predicate TreeClosed(g: Ledger) {
    forall n :: n in g.at ==> n.InRange() && (n.level < 2 ==> n.Parent() in g.at)
  }

  lemma {:induction false} ClosedAbove(g: Ledger, x: Node, c: Node)
    requires TreeClosed(g) && x in g.at && Under(x, c) && c.level <= 2
    ensures c in g.at
    decreases c.level - x.level
  {
    if x.level < c.level {
      ClosedAbove(g, x.Parent(), c);
    }
  }

  lemma CutChild(g: Ledger, g1: Ledger, g2: Ledger, c: Node, k: nat)
    requires Cut(g, g1, c, k) && k < NPTE && c.level > 0 && Removed(g1, g2, c.Child(k))
    ensures Cut(g, g2, c, k + 1)
  {
    forall x
      ensures UnderFirst(x, c, k + 1) <==> UnderFirst(x, c, k) || Under(x, c.Child(k))
    {
      UnderStep(x, c, k);
    }
    hide UnderFirst, Under;
  }

  ghost function PrunedBy(g: Ledger, c: Node): Ledger
    requires c in g.at
  {
    Ledger([g.at[c]] + g.free, g.at - {c}, g.own[g.at[c] := Free])
  }

  lemma CutAll(g: Ledger, g1: Ledger, c: Node)
    requires Cut(g, g1, c, NPTE) && c in g1.at && TablesOk(g1)
    ensures Removed(g, PrunedBy(g1, c), c)
  {
    forall x
      ensures UnderFirst(x, c, NPTE) || x == c <==> Under(x, c)
    {
      UnderStep(x, c, 0);
    }
    hide UnderFirst, Under;
  }

  /** freewalk() frees the page of a node that has lost its children. The entry of
      its parent still leads there. */
  lemma PruneInv(m: Mem, g: Ledger, c: Node)
    requires Inv(m, g, {}) && c in g.at && (forall i: nat :: i < NPTE ==> Entry(m, g, c, i) == 0)
    requires c.level > 0 ==> forall i: nat :: i < NPTE ==> c.Child(i) !in g.at
    ensures Inv(Given(m, g.at[c]), PrunedBy(g, c), {c})
    ensures SameLeaves(m, g, Given(m, g.at[c]), PrunedBy(g, c))
    ensures Local(m, g, Given(m, g.at[c]), PrunedBy(g, c), c.sid)
  {
    hide Entry, Leaf, FreeOk, TreeOk, LeavesOk, PagesOk, TablesOk;
    PruneLedger(m, g, c);
    PruneEntries(m, g, c);
    PruneTree(m, g, c);
    var m', g' := Given(m, g.at[c]), PrunedBy(g, c);
    PruneLeaves(m, g, m', g');
    LeavesSame(m, g, m', g');
    PruneLocal(m, g, c);
  }

  lemma PruneLedger(m: Mem, g: Ledger, c: Node)
    requires PagesOk(m, g) && TablesOk(g) && FreeOk(m, g) && c in g.at
    ensures g.at[c] in g.own && g.own[g.at[c]] == Table(c)
    ensures PagesOk(Given(m, g.at[c]), PrunedBy(g, c)) && TablesOk(PrunedBy(g, c)) && FreeOk(Given(m, g.at[c]), PrunedBy(g, c))
  {
    hide FreeOk;
    GiveFree(m, g, g.at[c]);
    FreeSame(Given(m, g.at[c]), GivenBy(g, g.at[c]), PrunedBy(g, c));
  }

  lemma FreeSame(m: Mem, g: Ledger, g': Ledger)
    requires FreeOk(m, g) && g'.free == g.free && g'.own == g.own
    ensures FreeOk(m, g')
  {
  }

  ghost predicate SameWords(m: Mem, g: Ledger, m': Mem, g': Ledger) {
    forall n: Node, i: nat :: Entry(m', g', n, i) == Entry(m, g, n, i)
  }

  lemma PruneEntries(m: Mem, g: Ledger, c: Node)
    requires PagesOk(m, g) && TablesOk(g) && c in g.at && (forall i: nat :: i < NPTE ==> Entry(m, g, c, i) == 0)
    ensures SameWords(m, g, Given(m, g.at[c]), PrunedBy(g, c))
  {
    forall n: Node, i: nat
      ensures Entry(Given(m, g.at[c]), PrunedBy(g, c), n, i) == Entry(m, g, n, i)
    {
      if n == c {
        assert i >= NPTE ==> Entry(m, g, c, i) == 0;
      }
    }
  }

  lemma PruneTree(m: Mem, g: Ledger, c: Node)
    requires TreeOk(m, g, {}) && c in g.at && SameWords(m, g, Given(m, g.at[c]), PrunedBy(g, c))
    requires c.level > 0 ==> forall i: nat :: i < NPTE ==> c.Child(i) !in g.at
    ensures TreeOk(Given(m, g.at[c]), PrunedBy(g, c), {c})
  {
    hide Entry, Given;
    var g' := PrunedBy(g, c);
    forall n | n in g'.at && n.level < 2
      ensures n.Parent() in g'.at
    {
      assert n == n.Parent().Child(n.Index());
    }
  }

  lemma PruneLeaves(m: Mem, g: Ledger, m': Mem, g': Ledger)
    requires SameWords(m, g, m', g')
    ensures SameLeaves(m, g, m', g')
  {
    hide Entry;
  }

  lemma PruneLocal(m: Mem, g: Ledger, c: Node)
    requires PagesOk(m, g) && TablesOk(g) && c in g.at
    ensures Local(m, g, Given(m, g.at[c]), PrunedBy(g, c), c.sid)
  {
  }

  /** freewalk() then clears that entry. */
  lemma ClearInv(m: Mem, g: Ledger, n: Node, idx: nat)
    requires n.level > 0 && Inv(m, g, {n.Child(idx)}) && n in g.at && idx < NPTE && n.Child(idx) !in g.at
    ensures g.at[n] in m.pages && |m.pages[g.at[n]]| == NPTE
    ensures var m' := WithEntry(m, g.at[n], idx, 0);
      && Inv(m', g, {}) && SameLeaves(m, g, m', g) && Local(m, g, m', g, n.sid)
      && OneEntry(m, g, m', g, n, idx, 0)
  {
    hide Entry, Leaf, FreeOk, TreeOk, LeavesOk, OneEntry;
    EntrySet(m, g, n, idx, 0, g);
    TableWrite(m, g, n, idx, 0);
    var m' := WithEntry(m, g.at[n], idx, 0);
    ClearTree(m, g, m', n, idx);
    InnerLeaves(m, g, m', g, n, idx, 0);
    LeavesSame(m, g, m', g);
  }

  lemma ClearTree(m: Mem, g: Ledger, m': Mem, n: Node, idx: nat)
    requires n.level > 0 && TreeOk(m, g, {n.Child(idx)}) && n in g.at && idx < NPTE && n.Child(idx) !in g.at
    requires OneEntry(m, g, m', g, n, idx, 0)
    ensures TreeOk(m', g, {})
  {
    hide Entry;
    forall x, i: nat | x in g.at && x.level > 0 && i < NPTE
      ensures Entry(m', g, x, i) == if x.Child(i) in g.at then Pte(g.at[x.Child(i)], PTE_V) else 0
    {
      ChildUnique(n, idx, x, i);
    }
  }

  /** What freewalk() finds in an entry once all leaves of the space are gone. */
  lemma FreewalkEntry(m: Mem, g: Ledger, c: Node, i: nat)
    requires Inv(m, g, {}) && c in g.at && i < NPTE && NoLeaves(m, g, c.sid)
    ensures g.at[c] in m.pages && |m.pages[g.at[c]]| == NPTE && m.pages[g.at[c]][i] == Entry(m, g, c, i)
    ensures var e := Entry(m, g, c, i);
      if c.level > 0 && c.Child(i) in g.at then
        IsValid(e) && !IsLeaf(e) && PtePage(e) == g.at[c.Child(i)]
      else e == 0
  {
    hide FreeOk, LeavesOk, IsLeaf;
    if c.level == 0 {
      assert LeafTable(c.sid, c.prefix * NPTE + i) == c;
      assert Leaf(m, g, c.sid, c.prefix * NPTE + i) == 0;
    } else if c.Child(i) in g.at {
      TablePte(g.at[c.Child(i)]);
    }
  }

  lemma TablePte(p: nat)
    ensures var e := Pte(p, PTE_V); IsValid(e) && !IsLeaf(e) && PtePage(e) == p
  {
  }

  ghost predicate NoLeaves(m: Mem, g: Ledger, sid: nat) {
    forall vpn: nat :: Leaf(m, g, sid, vpn) == 0
  }

  /** The root has no parent whose entry could be stale. */
  lemma RootGone(m: Mem, g: Ledger, sid: nat)
    requires Inv(m, g, {Root(sid)})
    ensures Inv(m, g, {})
  {
    hide Entry, FreeOk, LeavesOk, PagesOk, TablesOk;
    assert forall n, i: nat :: n in g.at && n.level > 0 && i < NPTE ==> n.Child(i) != Root(sid);
  }
}
