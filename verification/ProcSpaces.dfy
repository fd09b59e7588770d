/** Which process owns which pages, and what an operation on one of them leaves
    alone. */
module ProcSpaces {
  import opened VmState
  import opened VmTree
  import opened VmSpace
  import opened VmFree

  /** The memory part of struct proc. */
  datatype Proc = Proc(pagetable: nat, sz: nat, trapframe: nat)

  /** A live process: its space holds exactly its user pages, the trampoline and
      its trapframe. */
  ghost predicate ProcOk(m: Mem, g: Ledger, p: Proc, sid: nat, slot: nat) {
    && SpaceOk(m, g, p, sid)
    && p.trapframe in g.own && g.own[p.trapframe] == Frame(slot)
  }

  ghost predicate SpaceOk(m: Mem, g: Ledger, p: Proc, sid: nat) {
    && Root(sid) in g.at && g.at[Root(sid)] == p.pagetable
    && UserMapped(m, g, sid, PageCount(p.sz))
    && PteFlags(Leaf(m, g, sid, TRAMPOLINE)) == PTE_V + PTE_R + PTE_X
    && Leaf(m, g, sid, TRAPFRAME) == Pte(p.trapframe, PTE_V + PTE_R + PTE_W)
  }

  /** What a size of sz bytes means: below the trapframe, an address is mapped exactly if
      its page begins below sz; in particular every byte below sz is. */
  lemma ByteMapped(m: Mem, g: Ledger, p: Proc, sid: nat, va: nat)
    requires SpaceOk(m, g, p, sid) && va / 4096 < TRAPFRAME
    ensures Leaf(m, g, sid, va / 4096) != 0 <==> va / 4096 * 4096 < p.sz
    ensures va < p.sz ==> Leaf(m, g, sid, va / 4096) != 0
  {
    hide Leaf, PteFlags, Pte;
  }

  /** No page is held in between operations. */
  ghost predicate NoneHeld(g: Ledger) {
    forall p :: p in g.own ==> g.own[p] != Held
  }

  /** Each page that is not free belongs to a live space or is the trapframe of a
      live process. */
  ghost predicate Accounted(g: Ledger, sids: set<nat>, procs: map<nat, Proc>) {
    forall p :: p in g.own ==>
      match g.own[p]
      case Free => true
      case Held => false
      case Table(n) => n.sid in sids
      case User(s, _) => s in sids
      case Frame(slot) => slot in procs && procs[slot].trapframe == p
  }

  ghost predicate Unused(g: Ledger, sid: nat) {
    && (forall n :: n in g.at ==> n.sid != sid)
    && forall p :: p in g.own ==> !OfSpace(g.own[p], sid)
  }

  // ------------------------------------------------------------------ frames

  /** The tables of other spaces stay where they are. */
  lemma LocalTables(m: Mem, g: Ledger, m': Mem, g': Ledger, sid: nat, n: Node)
    requires Local(m, g, m', g', sid) && TablesOk(g) && TablesOk(g') && n.sid != sid
    ensures n in g'.at <==> n in g.at
    ensures n in g.at ==> g'.at[n] == g.at[n]
  {
    if n in g.at {
      assert g.own[g.at[n]] == Table(n);
    }
    if n in g'.at {
      assert g'.own[g'.at[n]] == Table(n);
      assert !Mine(g.own[g'.at[n]], sid);
    }
  }

  lemma ProcKept(m: Mem, g: Ledger, m': Mem, g': Ledger, sid: nat, p: Proc, s: nat, slot: nat)
    requires Local(m, g, m', g', sid) && Inv(m, g, {}) && Inv(m', g', {}) && s != sid && ProcOk(m, g, p, s, slot)
    ensures ProcOk(m', g', p, s, slot)
  {
    hide Leaf, PageCount, FreeOk, TreeOk, LeavesOk, Pte;
    LocalTables(m, g, m', g', sid, Root(s));
    forall v: nat
      ensures Leaf(m', g', s, v) == Leaf(m, g, s, v)
    {
      LocalLeaves(m, g, m', g', sid, s, v);
    }
  }

  lemma AccountedKept(m: Mem, g: Ledger, m': Mem, g': Ledger, sids: set<nat>, procs: map<nat, Proc>, sid: nat)
    requires Accounted(g, sids, procs) && Local(m, g, m', g', sid) && NoneHeld(g')
    ensures Accounted(g', sids + {sid}, procs)
  {
  }

  /** A space built and taken down again leaves every page with its owner. */
  lemma Restored(m: Mem, g: Ledger, m': Mem, g': Ledger, sid: nat)
    requires Local(m, g, m', g', sid) && NoneHeld(g) && NoneHeld(g') && Unused(g, sid) && Unused(g', sid)
    ensures g'.own == g.own
  {
  }

  lemma GoneUnused(g: Ledger, g': Ledger, sid: nat)
    requires Gone(g, g', sid)
    ensures Unused(g', sid) && (NoneHeld(g) ==> NoneHeld(g'))
  {
  }

  lemma GrownHeld(m: Mem, g: Ledger, m': Mem, g': Ledger, sid: nat)
    requires Grown(m, g, m', g', sid) && NoneHeld(g)
    ensures NoneHeld(g') && Local(m, g, m', g', sid)
  {
    hide Leaf;
  }

  lemma FillingHeld(m: Mem, g: Ledger, m': Mem, g': Ledger, sid: nat, k0: nat, k: nat)
    requires Filling(m, g, m', g', sid, k0, k) && NoneHeld(g)
    ensures NoneHeld(g') && Local(m, g, m', g', sid)
  {
    hide Leaf;
  }

  lemma UnmappedHeld(m: Mem, g: Ledger, m': Mem, g': Ledger, sid: nat, first: nat, n: nat)
    requires Unmapped(m, g, m', g', sid, first, n, Free) && NoneHeld(g)
    ensures NoneHeld(g') && Local(m, g, m', g', sid)
  {
    hide Leaf;
  }

  /** Every page in use keeps its contents. */
  ghost predicate Intact(m: Mem, g: Ledger, m': Mem) {
    forall p :: p in g.own && g.own[p] != Free && p in m.pages ==> p in m'.pages && m'.pages[p] == m.pages[p]
  }

  lemma LocalIntact(m: Mem, g: Ledger, m': Mem, g': Ledger, sid: nat)
    requires Local(m, g, m', g', sid) && NoneHeld(g) && Unused(g, sid)
    ensures Intact(m, g, m')
  {
  }

  // --------------------------------------------------------- the process table

  /** Spaces have names below `next`, a different one for each process. */
  ghost predicate Named(g: Ledger, procs: map<nat, Proc>, space: map<nat, nat>, next: nat) {
    && space.Keys == procs.Keys
    && (forall a, b :: a in space && b in space && a != b ==> space[a] != space[b])
    && (forall a :: a in space ==> space[a] < next)
    && (forall n :: n in g.at ==> n.sid < next)
  }

  /** All processes but one are in order. */
  ghost predicate OthersOk(m: Mem, g: Ledger, procs: map<nat, Proc>, space: map<nat, nat>, slot: nat) {
    forall s :: s in procs && s in space && s != slot ==> ProcOk(m, g, procs[s], space[s], s)
  }

  /** The invariant of the kernel's memory: each page is free or belongs to one
      live process. */
  ghost predicate Ok(m: Mem, g: Ledger, procs: map<nat, Proc>, space: map<nat, nat>, next: nat) {
    && Inv(m, g, {}) && Scarce(g)
    && Named(g, procs, space, next)
    && Accounted(g, space.Values, procs)
    && EveryOk(m, g, procs, space)
  }

  ghost predicate EveryOk(m: Mem, g: Ledger, procs: map<nat, Proc>, space: map<nat, nat>) {
    forall s :: s in procs && s in space ==> ProcOk(m, g, procs[s], space[s], s)
  }

  lemma OkParts(m: Mem, g: Ledger, procs: map<nat, Proc>, space: map<nat, nat>, next: nat)
    requires Ok(m, g, procs, space, next)
    ensures NoneHeld(g) && Unused(g, next) && next !in space.Values
    ensures forall n :: n in g.at ==> n.sid != next
    ensures forall slot :: slot !in procs ==> forall p :: p in g.own ==> g.own[p] != Frame(slot)
  {
    hide Leaf, PtePage, IsLeaf, FreeOk, TreeOk, ProcOk;
    forall p | p in g.own && g.own[p].User?
      ensures g.own[p].sid != next
    {
      LeafHasTable(m, g, g.own[p].sid, g.own[p].vpn);
    }
  }

  lemma OthersKept(m: Mem, g: Ledger, m': Mem, g': Ledger, procs: map<nat, Proc>, space: map<nat, nat>, slot: nat, sid: nat)
    requires OthersOk(m, g, procs, space, slot) && Local(m, g, m', g', sid) && Inv(m, g, {}) && Inv(m', g', {})
    requires forall s :: s in space && s != slot ==> space[s] != sid
    ensures OthersOk(m', g', procs, space, slot)
  {
    hide Inv, Local, ProcOk;
    forall s | s in procs && s in space && s != slot
      ensures ProcOk(m', g', procs[s], space[s], s)
    {
      ProcKept(m, g, m', g', sid, procs[s], space[s], s);
    }
  }

  lemma NamesKept(m: Mem, g: Ledger, m': Mem, g': Ledger, sid: nat, next: nat)
    requires Local(m, g, m', g', sid) && TablesOk(g) && TablesOk(g') && sid < next
    requires forall n :: n in g.at ==> n.sid < next
    ensures forall n :: n in g'.at ==> n.sid < next
  {
    forall n | n in g'.at
      ensures n.sid < next
    {
      if n.sid != sid {
        LocalTables(m, g, m', g', sid, n);
      }
    }
  }

  /** An operation on the space of one process. */
  lemma OkChanged(m: Mem, g: Ledger, m': Mem, g': Ledger, procs: map<nat, Proc>, space: map<nat, nat>, next: nat, slot: nat, p: Proc)
    requires Ok(m, g, procs, space, next) && slot in procs && slot in space && Inv(m', g', {}) && Scarce(g')
    requires Local(m, g, m', g', space[slot]) && NoneHeld(g')
    requires SpaceOk(m', g', p, space[slot]) && p.trapframe == procs[slot].trapframe
    ensures Ok(m', g', procs[slot := p], space, next)
  {
    hide SpaceOk, FreeOk, TreeOk, LeavesOk, PagesOk, Local, Accounted, OthersOk, EveryOk, NoneHeld;
    EveryOthers(m, g, procs, space, slot);
    OthersKept(m, g, m', g', procs, space, slot, space[slot]);
    NamesKept(m, g, m', g', space[slot], next);
    AccountedKept(m, g, m', g', space.Values, procs, space[slot]);
    assert space[slot] in space.Values;
    assert space.Values + {space[slot]} == space.Values;
    AccountedSame(g', space.Values, procs, procs[slot := p]);
    FrameKept(m, g, m', g', space[slot], procs[slot].trapframe, slot);
    AllOk(m', g', procs, space, slot, p, space[slot]);
    assert space[slot := space[slot]] == space;
  }

  lemma EveryOthers(m: Mem, g: Ledger, procs: map<nat, Proc>, space: map<nat, nat>, slot: nat)
    requires EveryOk(m, g, procs, space)
    ensures OthersOk(m, g, procs, space, slot)
    ensures slot in procs && slot in space ==> ProcOk(m, g, procs[slot], space[slot], slot)
  {
    hide ProcOk;
  }

  lemma FrameKept(m: Mem, g: Ledger, m': Mem, g': Ledger, sid: nat, tf: nat, slot: nat)
    requires Local(m, g, m', g', sid) && tf in g.own && g.own[tf] == Frame(slot)
    ensures tf in g'.own && g'.own[tf] == Frame(slot)
  {
  }

  lemma AccountedSame(g: Ledger, sids: set<nat>, procs: map<nat, Proc>, procs': map<nat, Proc>)
    requires Accounted(g, sids, procs)
    requires forall s :: s in procs ==> s in procs' && procs'[s].trapframe == procs[s].trapframe
    ensures Accounted(g, sids, procs')
  {
  }

  /** The space of a process is replaced by another, built under a new name. */
  lemma OkReplaced(m: Mem, g: Ledger, m': Mem, g': Ledger, procs: map<nat, Proc>, space: map<nat, nat>, next: nat, slot: nat, p: Proc)
    requires Ok(m, g, procs, space, next) && slot in procs && slot in space && Inv(m', g', {}) && Scarce(g')
    requires Local2(m, g, m', g', space[slot], next) && NoneHeld(g') && Unused(g', space[slot])
    requires SpaceOk(m', g', p, next) && p.trapframe == procs[slot].trapframe
    ensures Ok(m', g', procs[slot := p], space[slot := next], next + 1)
  {
    hide SpaceOk, UserMapped, Leaf, FreeOk, TreeOk, LeavesOk, PagesOk, Local2, Accounted, Mine;
    var procs', space' := procs[slot := p], space[slot := next];
    forall s | s in procs' && s in space'
      ensures ProcOk(m', g', procs'[s], space'[s], s)
    {
      if s != slot {
        ProcKept2(m, g, m', g', space[slot], next, procs[s], space[s], s);
      } else {
        FrameKept2(m, g, m', g', space[slot], next, p.trapframe, slot);
      }
    }
    Names2(m, g, m', g', space[slot], next);
    Accounted2(m, g, m', g', procs, space, next, slot, p);
  }

  /** A space was built under a new name and taken down again. */
  lemma OkRestored(m: Mem, g: Ledger, m': Mem, g': Ledger, procs: map<nat, Proc>, space: map<nat, nat>, next: nat)
    requires Ok(m, g, procs, space, next) && Inv(m', g', {}) && Scarce(g') && Local(m, g, m', g', next)
    requires NoneHeld(g') && Unused(g', next)
    ensures Ok(m', g', procs, space, next) && g'.own == g.own && Intact(m, g, m')
  {
    hide Inv, SpaceOk, ProcOk, Local, OthersOk, EveryOk, NoneHeld, Unused, Scarce, Accounted, Intact;
    OkParts(m, g, procs, space, next);
    Restored(m, g, m', g', next);
    LocalIntact(m, g, m', g', next);
    EveryKept(m, g, m', g', procs, space, next);
    RestoredNames(m, g, m', g', next);
    AccountedOwn(g, g', space.Values, procs);
  }

  lemma EveryKept(m: Mem, g: Ledger, m': Mem, g': Ledger, procs: map<nat, Proc>, space: map<nat, nat>, sid: nat)
    requires EveryOk(m, g, procs, space) && Local(m, g, m', g', sid) && Inv(m, g, {}) && Inv(m', g', {})
    requires forall s :: s in space ==> space[s] != sid
    ensures EveryOk(m', g', procs, space)
  {
    hide Inv, Local, ProcOk;
    forall s | s in procs && s in space
      ensures ProcOk(m', g', procs[s], space[s], s)
    {
      ProcKept(m, g, m', g', sid, procs[s], space[s], s);
    }
  }

  lemma RestoredNames(m: Mem, g: Ledger, m': Mem, g': Ledger, next: nat)
    requires Local(m, g, m', g', next) && Inv(m, g, {}) && Inv(m', g', {}) && Unused(g', next)
    requires forall n :: n in g.at ==> n.sid < next
    ensures forall n :: n in g'.at ==> n.sid < next
  {
    hide FreeOk, TreeOk, LeavesOk, PagesOk, Local;
    NamesKept(m, g, m', g', next, next + 1);
  }

  lemma AccountedOwn(g: Ledger, g': Ledger, sids: set<nat>, procs: map<nat, Proc>)
    requires Accounted(g, sids, procs) && g'.own == g.own
    ensures Accounted(g', sids, procs)
  {
  }

  /** Two spaces are worked on. */
  ghost predicate Local2(m: Mem, g: Ledger, m': Mem, g': Ledger, sid: nat, sid2: nat) {
    && g'.own.Keys == g.own.Keys
    && (forall p :: p in g.own && (Mine(g.own[p], sid) || Mine(g.own[p], sid2)) ==>
          Mine(g'.own[p], sid) || Mine(g'.own[p], sid2))
    && (forall p :: p in g.own && !Mine(g.own[p], sid) && !Mine(g.own[p], sid2) ==>
          && g'.own[p] == g.own[p]
          && (p in m.pages ==> p in m'.pages && m'.pages[p] == m.pages[p]))
  }

  lemma LocalThenLocal(m: Mem, g: Ledger, m1: Mem, g1: Ledger, m2: Mem, g2: Ledger, sid: nat, sid2: nat)
    requires Local(m, g, m1, g1, sid2) && Local(m1, g1, m2, g2, sid)
    ensures Local2(m, g, m2, g2, sid, sid2)
  {
  }

  lemma Tables2(m: Mem, g: Ledger, m': Mem, g': Ledger, sid: nat, sid2: nat, n: Node)
    requires Local2(m, g, m', g', sid, sid2) && TablesOk(g) && TablesOk(g') && n.sid != sid && n.sid != sid2
    ensures n in g'.at <==> n in g.at
    ensures n in g.at ==> g'.at[n] == g.at[n]
    ensures PagesOk(m, g) && n in g.at ==>
      g.at[n] in m.pages && g.at[n] in m'.pages && m'.pages[g.at[n]] == m.pages[g.at[n]]
  {
    if n in g.at {
      assert g.own[g.at[n]] == Table(n);
    }
    if n in g'.at {
      assert g'.own[g'.at[n]] == Table(n);
    }
  }

  lemma ProcKept2(m: Mem, g: Ledger, m': Mem, g': Ledger, sid: nat, sid2: nat, p: Proc, s: nat, slot: nat)
    requires Local2(m, g, m', g', sid, sid2) && Inv(m, g, {}) && Inv(m', g', {})
    requires s != sid && s != sid2 && ProcOk(m, g, p, s, slot)
    ensures ProcOk(m', g', p, s, slot)
  {
    hide Leaf, PageCount, FreeOk, TreeOk, LeavesOk, Pte;
    Tables2(m, g, m', g', sid, sid2, Root(s));
    forall v: nat
      ensures Leaf(m', g', s, v) == Leaf(m, g, s, v)
    {
      Leaves2(m, g, m', g', sid, sid2, s, v);
    }
  }

  lemma Leaves2(m: Mem, g: Ledger, m': Mem, g': Ledger, sid: nat, sid2: nat, s: nat, v: nat)
    requires Local2(m, g, m', g', sid, sid2) && PagesOk(m, g) && TablesOk(g) && TablesOk(g') && s != sid && s != sid2
    ensures Leaf(m', g', s, v) == Leaf(m, g, s, v)
  {
    hide Local2;
    Tables2(m, g, m', g', sid, sid2, LeafTable(s, v));
  }

  lemma FrameKept2(m: Mem, g: Ledger, m': Mem, g': Ledger, sid: nat, sid2: nat, tf: nat, slot: nat)
    requires Local2(m, g, m', g', sid, sid2) && tf in g.own && g.own[tf] == Frame(slot)
    ensures tf in g'.own && g'.own[tf] == Frame(slot)
  {
  }

  lemma Names2(m: Mem, g: Ledger, m': Mem, g': Ledger, sid: nat, next: nat)
    requires Local2(m, g, m', g', sid, next) && TablesOk(g) && TablesOk(g')
    requires forall n :: n in g.at ==> n.sid < next
    requires sid < next
    ensures forall n :: n in g'.at ==> n.sid < next + 1
  {
    hide Local2;
    forall n | n in g'.at
      ensures n.sid < next + 1
    {
      if n.sid != sid && n.sid != next {
        Tables2(m, g, m', g', sid, next, n);
      }
    }
  }

  lemma Accounted2(m: Mem, g: Ledger, m': Mem, g': Ledger, procs: map<nat, Proc>, space: map<nat, nat>, next: nat, slot: nat, p: Proc)
    requires slot in procs && slot in space && Accounted(g, space.Values, procs) && Local2(m, g, m', g', space[slot], next)
    requires NoneHeld(g') && Unused(g', space[slot]) && p.trapframe == procs[slot].trapframe
    ensures Accounted(g', space[slot := next].Values, procs[slot := p])
  {
    ValuesReplaced(space, slot, next);
    hide Local2;
    Owners2(m, g, m', g', space[slot], next);
  }

  lemma Owners2(m: Mem, g: Ledger, m': Mem, g': Ledger, sid: nat, sid2: nat)
    requires Local2(m, g, m', g', sid, sid2) && NoneHeld(g') && Unused(g', sid)
    ensures g'.own.Keys == g.own.Keys
    ensures forall p :: p in g.own ==> g'.own[p] == g.own[p] || g'.own[p] == Free || OfSpace(g'.own[p], sid2)
    ensures forall p :: p in g.own ==> !OfSpace(g'.own[p], sid)
  {
  }

  lemma ValuesReplaced(space: map<nat, nat>, slot: nat, v: nat)
    requires slot in space
    ensures v in space[slot := v].Values
    ensures forall s :: s in space.Values && s != space[slot] ==> s in space[slot := v].Values
  {
    var space' := space[slot := v];
    assert space'[slot] == v;
    forall s | s in space.Values && s != space[slot]
      ensures s in space'.Values
    {
      var a :| a in space && space[a] == s;
      assert space'[a] == s;
    }
  }

  lemma ValuesAdded(space: map<nat, nat>, slot: nat, v: nat)
    requires slot !in space
    ensures space[slot := v].Values == space.Values + {v}
  {
    var space' := space[slot := v];
    assert space'[slot] == v;
    forall s | s in space.Values
      ensures s in space'.Values
    {
      var a :| a in space && space[a] == s;
      assert space'[a] == s;
    }
  }

  lemma ValuesRemoved(space: map<nat, nat>, slot: nat)
    requires slot in space
    ensures forall s :: s in space.Values && s != space[slot] ==> s in (space - {slot}).Values
  {
    var space' := space - {slot};
    forall s | s in space.Values && s != space[slot]
      ensures s in space'.Values
    {
      var a :| a in space && space[a] == s;
      assert space'[a] == s;
    }
  }

  /** A process and its space are gone. */
  lemma OkRemoved(m: Mem, g: Ledger, m': Mem, g': Ledger, procs: map<nat, Proc>, space: map<nat, nat>, next: nat, slot: nat)
    requires OthersOk(m, g, procs, space, slot) && Inv(m, g, {}) && Named(g, procs, space, next) && slot in procs && slot in space
    requires Accounted(g, space.Values, procs) && (forall p :: p in g.own ==> g.own[p] != Frame(slot))
    requires Inv(m', g', {}) && Scarce(g') && Local(m, g, m', g', space[slot]) && NoneHeld(g') && Unused(g', space[slot])
    ensures Ok(m', g', procs - {slot}, space - {slot}, next)
  {
    hide ProcOk, FreeOk, TreeOk, LeavesOk, PagesOk, Local, Accounted;
    OthersKept(m, g, m', g', procs, space, slot, space[slot]);
    NamesKept(m, g, m', g', space[slot], next);
    AccountedRemoved(m, g, m', g', procs, space, slot);
  }

  lemma AccountedRemoved(m: Mem, g: Ledger, m': Mem, g': Ledger, procs: map<nat, Proc>, space: map<nat, nat>, slot: nat)
    requires slot in space && Accounted(g, space.Values, procs) && (forall p :: p in g.own ==> g.own[p] != Frame(slot))
    requires Local(m, g, m', g', space[slot]) && NoneHeld(g') && Unused(g', space[slot])
    ensures Accounted(g', (space - {slot}).Values, procs - {slot})
  {
    ValuesRemoved(space, slot);
  }

  /** A trapframe page has been taken for a new process. */
  lemma OkAdded(m: Mem, g: Ledger, m1: Mem, g1: Ledger, m2: Mem, g2: Ledger, procs: map<nat, Proc>, space: map<nat, nat>, next: nat, slot: nat, p: Proc)
    requires Ok(m, g, procs, space, next) && slot !in procs
    requires FrameTaken(m, g, m1, g1, p.trapframe, slot) && Inv(m1, g1, {})
    requires Inv(m2, g2, {}) && Scarce(g2) && Local(m1, g1, m2, g2, next) && NoneHeld(g2) && SpaceOk(m2, g2, p, next)
    ensures Ok(m2, g2, procs[slot := p], space[slot := next], next + 1)
  {
    hide ProcOk, SpaceOk, FreeOk, TreeOk, LeavesOk, PagesOk, Local, Accounted, FrameTaken, OthersOk, NoneHeld, Named;
    NamedIs(g, procs, space, next);
    FrameOthers(m, g, m1, g1, procs, space, p.trapframe, slot);
    OthersKept(m1, g1, m2, g2, procs, space, slot, next);
    FrameNames(m, g, m1, g1, p.trapframe, slot);
    NamesKept(m1, g1, m2, g2, next, next + 1);
    FrameProc(m, g, m1, g1, m2, g2, p, next, slot);
    AllOk(m2, g2, procs, space, slot, p, next);
    NamedAdded(g, g2, procs, space, next, slot, p);
    FrameAccounted(m, g, m1, g1, space.Values, procs, p, slot);
    AccountedKept(m1, g1, m2, g2, space.Values, procs[slot := p], next);
    ValuesAdded(space, slot, next);
  }

  lemma NamedIs(g: Ledger, procs: map<nat, Proc>, space: map<nat, nat>, next: nat)
    requires Named(g, procs, space, next)
    ensures space.Keys == procs.Keys && (forall a :: a in space ==> space[a] != next) && (forall n :: n in g.at ==> n.sid < next + 1)
  {
  }

  lemma NamedAdded(g: Ledger, g': Ledger, procs: map<nat, Proc>, space: map<nat, nat>, next: nat, slot: nat, p: Proc)
    requires Named(g, procs, space, next) && slot !in procs && forall n :: n in g'.at ==> n.sid < next + 1
    ensures Named(g', procs[slot := p], space[slot := next], next + 1)
  {
  }

  lemma AllOk(m: Mem, g: Ledger, procs: map<nat, Proc>, space: map<nat, nat>, slot: nat, p: Proc, sid: nat)
    requires OthersOk(m, g, procs, space, slot) && ProcOk(m, g, p, sid, slot)
    ensures EveryOk(m, g, procs[slot := p], space[slot := sid])
  {
    hide ProcOk;
  }

  ghost predicate FrameTaken(m: Mem, g: Ledger, m1: Mem, g1: Ledger, tf: nat, slot: nat) {
    && tf in g.own && g.own[tf] == Free && g1.own == g.own[tf := Frame(slot)] && g1.at == g.at
    && SameLeaves(m, g, m1, g1)
    && (forall q :: q in m.pages && q != tf ==> q in m1.pages && m1.pages[q] == m.pages[q])
  }

  lemma FrameOthers(m: Mem, g: Ledger, m1: Mem, g1: Ledger, procs: map<nat, Proc>, space: map<nat, nat>, tf: nat, slot: nat)
    requires FrameTaken(m, g, m1, g1, tf, slot) && slot !in procs
    requires EveryOk(m, g, procs, space)
    ensures OthersOk(m1, g1, procs, space, slot)
  {
    hide Leaf, Pte, PageCount;
  }

  lemma FrameNames(m: Mem, g: Ledger, m1: Mem, g1: Ledger, tf: nat, slot: nat)
    requires FrameTaken(m, g, m1, g1, tf, slot)
    ensures g1.at == g.at
  {
  }

  lemma FrameProc(m: Mem, g: Ledger, m1: Mem, g1: Ledger, m2: Mem, g2: Ledger, p: Proc, sid: nat, slot: nat)
    requires FrameTaken(m, g, m1, g1, p.trapframe, slot) && Local(m1, g1, m2, g2, sid) && SpaceOk(m2, g2, p, sid)
    ensures ProcOk(m2, g2, p, sid, slot)
  {
    hide SpaceOk, SameLeaves;
  }

  lemma FrameAccounted(m: Mem, g: Ledger, m1: Mem, g1: Ledger, sids: set<nat>, procs: map<nat, Proc>, p: Proc, slot: nat)
    requires FrameTaken(m, g, m1, g1, p.trapframe, slot) && Accounted(g, sids, procs) && slot !in procs
    ensures Accounted(g1, sids, procs[slot := p])
  {
    hide SameLeaves;
  }

  /** freeproc() has given back the trapframe page. */
  lemma FrameGiven(m: Mem, g: Ledger, m1: Mem, g1: Ledger, procs: map<nat, Proc>, space: map<nat, nat>, next: nat, slot: nat)
    requires Ok(m, g, procs, space, next) && slot in procs && slot in space
    requires g1.own == g.own[procs[slot].trapframe := Free] && g1.at == g.at && SameLeaves(m, g, m1, g1)
    ensures OthersOk(m1, g1, procs, space, slot) && SpaceOk(m1, g1, procs[slot], space[slot]) && NoneHeld(g1)
    ensures Named(g1, procs, space, next) && Accounted(g1, space.Values, procs)
    ensures forall p :: p in g1.own ==> g1.own[p] != Frame(slot)
  {
    hide Inv, Leaf, PageCount, Pte;
  }

  /** What freeproc() does to each page. */
  ghost predicate Reclaimed(g: Ledger, g': Ledger, sid: nat, slot: nat) {
    && g'.own.Keys == g.own.Keys
    && forall p :: p in g.own ==>
         g'.own[p] == if g.own[p] == Frame(slot) || OfSpace(g.own[p], sid) then Free else g.own[p]
  }

  lemma ReclaimedBy(m: Mem, g: Ledger, g1: Ledger, g2: Ledger, procs: map<nat, Proc>, space: map<nat, nat>, next: nat, slot: nat)
    requires Ok(m, g, procs, space, next) && slot in procs && slot in space
    requires g1.own == g.own[procs[slot].trapframe := Free] && Gone(g1, g2, space[slot])
    ensures Reclaimed(g, g2, space[slot], slot)
  {
    hide Inv, SpaceOk;
  }

  /** Pages a new process has taken from the free list. */
  ghost predicate Acquired(g: Ledger, g': Ledger, sid: nat, slot: nat) {
    && g'.own.Keys == g.own.Keys
    && (forall p :: p in g.own && g.own[p] == Free ==>
          g'.own[p] == Free || g'.own[p] == Frame(slot) || OfSpace(g'.own[p], sid))
    && (forall p :: p in g.own && g.own[p] != Free ==> g'.own[p] == g.own[p])
  }

  lemma AcquiredBy(m: Mem, g: Ledger, m1: Mem, g1: Ledger, m2: Mem, g2: Ledger, tf: nat, slot: nat, sid: nat)
    requires FrameTaken(m, g, m1, g1, tf, slot) && Local(m1, g1, m2, g2, sid) && NoneHeld(g) && NoneHeld(g2) && Unused(g, sid)
    ensures Acquired(g, g2, sid, slot) && Intact(m, g, m2)
  {
    hide SameLeaves;
  }

  lemma AcquiredMore(m: Mem, g: Ledger, m1: Mem, g1: Ledger, m2: Mem, g2: Ledger, sid: nat, slot: nat)
    requires Acquired(g, g1, sid, slot) && Intact(m, g, m1) && Local(m1, g1, m2, g2, sid) && NoneHeld(g) && NoneHeld(g2)
    requires g1.own.Keys == m1.pages.Keys && Unused(g, sid)
    ensures Acquired(g, g2, sid, slot) && Intact(m, g, m2) && g2.own.Keys == g.own.Keys
  {
  }

  /** Taking and reclaiming cancel out. */
  lemma AcquiredReclaimed(g: Ledger, g1: Ledger, g2: Ledger, sid: nat, slot: nat)
    requires Acquired(g, g1, sid, slot) && Reclaimed(g1, g2, sid, slot) && Unused(g, sid)
    requires forall p :: p in g.own ==> g.own[p] != Frame(slot)
    ensures g2.own == g.own
  {
  }

  /** No process, no page in use. */
  lemma NothingLeaks(m: Mem, g: Ledger, procs: map<nat, Proc>, space: map<nat, nat>, next: nat)
    requires Ok(m, g, procs, space, next) && procs == map[]
    ensures forall p :: p in g.own ==> g.own[p] == Free && p in g.free
  {
    hide FreeOk, TreeOk, LeavesOk, PagesOk, TablesOk;
    assert space == map[];
    assert forall p :: p in g.own ==> g.own[p] == Free;
    AllFree(m, g);
  }

  lemma AllFree(m: Mem, g: Ledger)
    requires FreeOk(m, g)
    ensures forall p :: p in g.own && g.own[p] == Free ==> p in g.free
  {
  }
}
