/** freewalk(): the tree below a node is taken apart entry by entry. */
module VmFree {
  import opened VmState
  import opened VmTree

  /** Tables that are not below c keep their entries. */
  ghost predicate KeptWords(m: Mem, g: Ledger, m': Mem, g': Ledger, c: Node) {
    forall n: Node, i: nat :: !Under(n, c) ==> Entry(m', g', n, i) == Entry(m, g, n, i)
  }

  ghost predicate ZeroTo(m: Mem, g: Ledger, c: Node, k: nat) {
    forall j: nat :: j < k ==> Entry(m, g, c, j) == 0
  }

  /** The loop of freewalk() after k entries of c. */
  ghost predicate Walking(m0: Mem, g0: Ledger, m: Mem, g: Ledger, c: Node, k: nat) {
    && Inv(m, g, {}) && k <= NPTE
    && c in g0.at && c in g.at && g.at[c] == g0.at[c]
    && Cut(g0, g, c, k)
    && ZeroTo(m, g, c, k)
    && KeptWords(m0, g0, m, g, c)
    && SameLeaves(m0, g0, m, g)
    && Local(m0, g0, m, g, c.sid)
  }

  /** What freewalk() leaves behind: everything at and below c is gone, and the
      parent's entry is stale. */
  ghost predicate Walked(m0: Mem, g0: Ledger, m: Mem, g: Ledger, c: Node) {
    && Inv(m, g, {c})
    && Removed(g0, g, c)
    && KeptWords(m0, g0, m, g, c)
    && SameLeaves(m0, g0, m, g)
    && Local(m0, g0, m, g, c.sid)
  }

  lemma WalkingStart(m: Mem, g: Ledger, c: Node)
    requires Inv(m, g, {}) && c in g.at
    ensures Walking(m, g, m, g, c, 0)
  {
    hide Inv, Cut, Entry, Leaf, Under;
    CutNone(g, c);
  }

  lemma WalkingSkip(m0: Mem, g0: Ledger, m: Mem, g: Ledger, c: Node, k: nat)
    requires Walking(m0, g0, m, g, c, k) && k < NPTE
    requires Entry(m, g, c, k) == 0 && (c.level > 0 ==> c.Child(k) !in g.at)
    ensures Walking(m0, g0, m, g, c, k + 1)
  {
    hide Inv, Cut, Entry, Local, SameLeaves, KeptWords;
    Closed(m, g);
    CutSkip(g0, g, c, k);
  }

  lemma Closed(m: Mem, g: Ledger)
    requires Inv(m, g, {})
    ensures TreeClosed(g) && forall n :: n in g.at ==> n.level <= 2
  {
    hide Entry, FreeOk, LeavesOk, PagesOk, TablesOk;
  }

  lemma NotUnderChild(c: Node, k: nat)
    requires c.level > 0 && k < NPTE
    ensures !Under(c, c.Child(k))
  {
  }

  lemma {:induction false} UnderParent(x: Node, c: Node, k: nat)
    requires c.level > 0 && k < NPTE && Under(x, c.Child(k))
    ensures Under(x, c)
  {
    UnderStep(x, c, k);
    UnderStep(x, c, 0);
    Widen(x, c, k + 1);
  }

  lemma Widen(x: Node, c: Node, k: nat)
    requires UnderFirst(x, c, k)
    ensures UnderFirst(x, c, NPTE)
  {
  }

  lemma KeptTwice(m: Mem, g: Ledger, m1: Mem, g1: Ledger, m2: Mem, g2: Ledger, m3: Mem, c: Node, k: nat)
    requires KeptWords(m, g, m1, g1, c) && c.level > 0 && k < NPTE && KeptWords(m1, g1, m2, g2, c.Child(k))
    requires OneEntry(m2, g2, m3, g2, c, k, 0)
    ensures KeptWords(m, g, m3, g2, c)
  {
    hide Entry, Ancestor;
    forall n: Node, i: nat | !Under(n, c)
      ensures Entry(m3, g2, n, i) == Entry(m, g, n, i)
    {
      NotBelow(n, c, k);
      SelfUnder(c);
    }
  }

  lemma SelfUnder(c: Node)
    ensures Under(c, c)
  {
  }

  lemma NotBelow(n: Node, c: Node, k: nat)
    requires !Under(n, c) && c.level > 0 && k < NPTE
    ensures !Under(n, c.Child(k))
  {
    hide Ancestor;
    if Under(n, c.Child(k)) {
      UnderParent(n, c, k);
    }
  }

  lemma ZeroedTo(m1: Mem, g1: Ledger, m2: Mem, g2: Ledger, m3: Mem, c: Node, k: nat)
    requires ZeroTo(m1, g1, c, k) && c.level > 0 && k < NPTE && KeptWords(m1, g1, m2, g2, c.Child(k))
    requires OneEntry(m2, g2, m3, g2, c, k, 0)
    ensures ZeroTo(m3, g2, c, k + 1)
  {
    hide Entry, Under;
    NotUnderChild(c, k);
  }

  lemma ChildGone(g1: Ledger, g2: Ledger, c: Node, k: nat)
    requires c in g1.at && c.level > 0 && k < NPTE && Removed(g1, g2, c.Child(k))
    ensures c in g2.at && g2.at[c] == g1.at[c] && c.Child(k) !in g2.at
  {
    hide Ancestor;
    NotUnderChild(c, k);
    SelfUnder(c.Child(k));
  }

  /** A child has been freed; its entry is cleared. */
  lemma WalkingChild(m0: Mem, g0: Ledger, m1: Mem, g1: Ledger, m2: Mem, g2: Ledger, c: Node, k: nat)
    requires Walking(m0, g0, m1, g1, c, k) && c.level > 0 && k < NPTE && Walked(m1, g1, m2, g2, c.Child(k))
    ensures c in g2.at && g2.at[c] == g1.at[c] && g2.at[c] in m2.pages && |m2.pages[g2.at[c]]| == NPTE
    ensures Walking(m0, g0, WithEntry(m2, g2.at[c], k, 0), g2, c, k + 1)
  {
    hide Inv, Cut, Removed, Entry, Leaf, Under, Local, KeptWords, ZeroTo, OneEntry, SameLeaves;
    ChildGone(g1, g2, c, k);
    ClearInv(m2, g2, c, k);
    var m3 := WithEntry(m2, g2.at[c], k, 0);
    CutChild(g0, g1, g2, c, k);
    KeptTwice(m0, g0, m1, g1, m2, g2, m3, c, k);
    ZeroedTo(m1, g1, m2, g2, m3, c, k);
    LocalTransitive(m0, g0, m1, g1, m2, g2, c.sid);
    LocalTransitive(m0, g0, m2, g2, m3, g2, c.sid);
    SameTwice(m0, g0, m1, g1, m2, g2);
    SameTwice(m0, g0, m2, g2, m3, g2);
  }

  lemma NoChildren(g0: Ledger, g: Ledger, c: Node)
    requires Cut(g0, g, c, NPTE)
    ensures c.level > 0 ==> forall i: nat :: i < NPTE ==> c.Child(i) !in g.at
  {
    hide Ancestor;
    if c.level > 0 {
      forall i: nat | i < NPTE
        ensures c.Child(i) !in g.at
      {
        SelfUnder(c.Child(i));
        UnderStep(c.Child(i), c, i);
        Widen(c.Child(i), c, i + 1);
      }
    }
  }

  /** All entries are done: the page itself is freed. */
  lemma WalkingEnd(m0: Mem, g0: Ledger, m: Mem, g: Ledger, c: Node)
    requires Walking(m0, g0, m, g, c, NPTE)
    ensures Walked(m0, g0, Given(m, g.at[c]), PrunedBy(g, c), c)
  {
    hide Inv, Cut, Removed, Entry, Leaf, Under, Local, KeptWords, SameLeaves, Given, PrunedBy;
    NoChildren(g0, g, c);
    PruneInv(m, g, c);
    Parts(m, g);
    CutAll(g0, g, c);
    PruneEntries(m, g, c);
    KeptThenSame(m0, g0, m, g, Given(m, g.at[c]), PrunedBy(g, c), c);
    LocalTransitive(m0, g0, m, g, Given(m, g.at[c]), PrunedBy(g, c), c.sid);
    SameTwice(m0, g0, m, g, Given(m, g.at[c]), PrunedBy(g, c));
  }

  lemma Parts(m: Mem, g: Ledger)
    requires Inv(m, g, {})
    ensures TablesOk(g) && PagesOk(m, g)
  {
  }

  lemma KeptThenSame(m: Mem, g: Ledger, m1: Mem, g1: Ledger, m2: Mem, g2: Ledger, c: Node)
    requires KeptWords(m, g, m1, g1, c) && SameWords(m1, g1, m2, g2)
    ensures KeptWords(m, g, m2, g2, c)
  {
    hide Entry, Under;
  }

  /** With its tables gone, nothing of the space is left. */
  ghost predicate Gone(g: Ledger, g': Ledger, sid: nat) {
    && (forall n :: n in g'.at ==> n.sid != sid)
    && g'.own.Keys == g.own.Keys
    && forall p :: p in g.own ==> g'.own[p] == if OfSpace(g.own[p], sid) then Free else g.own[p]
  }

  predicate OfSpace(o: Owner, sid: nat) {
    (o.Table? && o.node.sid == sid) || (o.User? && o.sid == sid)
  }

  lemma AllGone(m0: Mem, g0: Ledger, m: Mem, g: Ledger, sid: nat)
    requires Inv(m0, g0, {}) && Walked(m0, g0, m, g, Root(sid)) && NoLeaves(m0, g0, sid)
    ensures Inv(m, g, {}) && Gone(g0, g, sid)
  {
    hide Entry, Leaf, Under, FreeOk, LeavesOk, PagesOk, KeptWords, Local, SameLeaves;
    RootGone(m, g, sid);
    NoTables(m0, g0, g, sid);
    NoUsers(m0, g0, sid);
  }

  lemma NoTables(m0: Mem, g0: Ledger, g: Ledger, sid: nat)
    requires TreeOk(m0, g0, {}) && Removed(g0, g, Root(sid))
    ensures forall n :: n in g.at ==> n.sid != sid
    ensures forall n :: n in g0.at && n.sid != sid ==> n in g.at && g.at[n] == g0.at[n]
  {
    hide Entry, Ancestor;
    forall n | n in g0.at
      ensures Under(n, Root(sid)) <==> n.sid == sid
    {
      if n.sid == sid {
        RootAbove(n);
      } else if Under(n, Root(sid)) {
        UnderSid(n, Root(sid));
      }
    }
  }

  lemma NoUsers(m: Mem, g: Ledger, sid: nat)
    requires LeavesOk(m, g) && NoLeaves(m, g, sid)
    ensures forall p :: p in g.own && g.own[p].User? ==> g.own[p].sid != sid
  {
    hide Leaf, PtePage, IsLeaf;
  }
}
