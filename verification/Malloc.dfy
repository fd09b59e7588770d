/** The allocator of user/umalloc.c. */
module Malloc {
  import opened Basics
  import opened MallocState

  // ------------------------------------------------------------- walking the ring

  /** The position after i. */
  function Step(i: nat, n: nat): nat {
    if i + 1 < n then i + 1 else 0
  }

  /** Steps from i on to t. */
  function Dist(i: nat, t: nat, n: nat): nat
    requires i < n && t < n
  {
    if i <= t then t - i else t + n - i
  }

  lemma DistStep(i: nat, t: nat, n: nat)
    requires i < n && t < n && i != t
    ensures Step(i, n) < n && Dist(Step(i, n), t, n) < Dist(i, t, n)
  {
  }

  lemma LinkAt(h: Heap, i: nat)
    requires Ok(h) && i < |h.free|
    ensures h.free[i].addr in h.ptr && h.ptr[h.free[i].addr] == h.free[Step(i, |h.free|)].addr
    ensures h.free[i].addr in h.size && h.size[h.free[i].addr] == h.free[i].size
  {
    hide Sorted, LiveOk;
    assert h.free[i] in h.free;
  }

  lemma Ascending(h: Heap, i: nat, j: nat)
    requires Ok(h) && i < j < |h.free|
    ensures h.free[i].addr < h.free[j].addr
  {
    hide Links, Sizes, LiveOk;
    assert Before(h.free[i], h.free[j]);
  }

  /** The last free block below addr. */
  ghost function Target(bs: seq<Block>, addr: nat): (t: nat)
    requires bs != [] && bs[0].addr < addr
    ensures t < |bs| && bs[t].addr < addr && (t + 1 < |bs| ==> addr <= bs[t + 1].addr)
  {
    if bs[|bs| - 1].addr < addr then |bs| - 1 else Target(bs[..|bs| - 1], addr)
  }

  /** free()'s search stops at p. */
  predicate Stops(p: nat, next: nat, bp: nat) {
    (bp > p && bp < next) || (p >= next && (bp > p || bp < next))
  }

  lemma TargetFacts(h: Heap, x: Block)
    requires Ok(h) && x in h.live
    ensures h.free != [] && h.free[0].addr == 0 && x.addr > 0
    ensures var t := Target(h.free, x.addr); t + 1 < |h.free| ==> x.addr < h.free[t + 1].addr
  {
    hide Links, Sizes, Sorted;
    var t := Target(h.free, x.addr);
    if t + 1 < |h.free| {
      Ascending(h, 0, t + 1);
      assert h.free[t + 1] in h.free && Apart(x, h.free[t + 1]) && h.free[t + 1] != BASE;
    }
  }

  lemma StopsAtTarget(h: Heap, x: Block, i: nat)
    requires Ok(h) && x in h.live && i < |h.free|
    ensures h.free[0].addr < x.addr
    ensures Stops(h.free[i].addr, h.free[Step(i, |h.free|)].addr, x.addr) <==> i == Target(h.free, x.addr)
  {
    hide Ok;
    TargetFacts(h, x);
    var t, n := Target(h.free, x.addr), |h.free|;
    if i < t {
      if i + 1 < t { Ascending(h, i + 1, t); }
      Ascending(h, i, i + 1);
    } else if i > t {
      if i > t + 1 { Ascending(h, t + 1, i); }
      if i + 1 < n { Ascending(h, i, i + 1); }
    }
  }

  lemma FoundThere(h: Heap, x: Block)
    requires Ok(h) && x in h.live
    ensures h.free[0].addr < x.addr
    ensures var t := Target(h.free, x.addr);
      Found(h, h.free[..t], h.free[t], x, h.free[t + 1..]) && First(h.free[t + 1..], 0) == h.free[Step(t, |h.free|)].addr
  {
    hide Ok;
    TargetFacts(h, x);
    var t, n := Target(h.free, x.addr), |h.free|;
    assert h.free == h.free[..t] + [h.free[t]] + h.free[t + 1..];
    forall y | y in h.free[..t] + [h.free[t]]
      ensures y.addr < x.addr
    {
      if y != h.free[t] {
        var i :| 0 <= i < t && h.free[i] == y;
        Ascending(h, i, t);
      }
    }
    forall y | y in h.free[t + 1..]
      ensures x.addr < y.addr
    {
      var i :| t + 1 <= i < n && h.free[i] == y;
      if i > t + 1 { Ascending(h, t + 1, i); }
    }
  }

  // ----------------------------------------------------------------- morecore()

  const MIN_UNITS := 4096
  const HEADER := 16

  /** What reaches sbrk(), which takes a 32-bit signed number of bytes. */
  function SbrkArg(units: nat): int {
    (units * HEADER + 0x8000_0000) % 0x1_0000_0000 - 0x8000_0000
  }

  function Asked(units: nat): nat {
    if units < MIN_UNITS then MIN_UNITS else units
  }

  /** The break after sbrk(n): growproc() leaves it alone if it cannot go down that
      far. */
  function Moved(brk: nat, n: int): nat {
    if brk + n / HEADER >= 0 then brk + n / HEADER else brk
  }

  /** malloc()'s unit count for a 32-bit request. */
  function UnitsFor(nbytes: nat): nat {
    (nbytes + HEADER - 1) / HEADER + 1
  }

  /** The request survives the conversion exactly below 2^27 units. */
  lemma SbrkExact(nbytes: nat)
    requires nbytes < 0x1_0000_0000
    ensures SbrkArg(Asked(UnitsFor(nbytes))) == Asked(UnitsFor(nbytes)) * HEADER <==> nbytes <= 0x8000_0000 - 32
  {
    ArgIs(Asked(UnitsFor(nbytes)));
  }

  lemma ArgIs(u: nat)
    requires u < 0x1800_0000
    ensures SbrkArg(u) == if u < 0x800_0000 then u * HEADER else u * HEADER - 0x1_0000_0000
    ensures SbrkArg(u) % HEADER == 0 && SbrkArg(u) / HEADER == if u < 0x800_0000 then u else u - 0x1000_0000
  {
    if u < 0x800_0000 {
      assert (u * 16 + 0x8000_0000) % 0x1_0000_0000 == u * 16 + 0x8000_0000;
    } else {
      assert (u * 16 + 0x8000_0000) % 0x1_0000_0000 == u * 16 + 0x8000_0000 - 0x1_0000_0000;
    }
  }

  /** Where the break is after a request of u units: behind them, or short of it. */
  lemma BreakAfter(brk: nat, nbytes: nat)
    requires nbytes < 0x1_0000_0000
    ensures var u := Asked(UnitsFor(nbytes)); SbrkArg(u) % HEADER == 0 && -0x8000_0000 <= SbrkArg(u) < 0x8000_0000
    ensures var u := Asked(UnitsFor(nbytes)); if nbytes <= 0x8000_0000 - 32 then Moved(brk, SbrkArg(u)) == brk + u else Moved(brk, SbrkArg(u)) < brk + u
  {
    ArgIs(Asked(UnitsFor(nbytes)));
  }

  /** The largest request asks sbrk() for one unit. */
  lemma HugeRequest()
    ensures UnitsFor(0xFFFF_FFFF) == 0x1000_0001 && SbrkArg(Asked(UnitsFor(0xFFFF_FFFF))) == HEADER
  {
  }

  class Allocator {
    var ptr: map<nat, nat>
    var size: map<nat, nat>
    /** Null before the first call. */
    var freep: Option<nat>
    ghost var free: seq<Block>
    ghost var live: set<Block>
    ghost var top: nat
    /** The end of the process's memory, p->sz, and by how much we have moved it. */
    var brk: nat
    ghost var got: int

    ghost function H(): Heap
      reads this
    {
      Heap(ptr, size, free, live, top)
    }

    /** The list is sound and freep points into it. */
    ghost predicate Sound()
      reads this
    {
      match freep
      case None => live == {} && free == [] && ptr == map[] && size == map[]
      case Some(p) => Ok(H()) && exists i :: 0 <= i < |free| && free[i].addr == p
    }

    /** And the heap lies below the break, and every unit of it came from sbrk(). */
    ghost predicate Valid()
      reads this
    {
      Sound() && 0 < top <= brk && got == Units(H())
    }

    constructor (brk: nat)
      requires brk > 0
      ensures Valid() && live == {} && freep == None && free == [] && this.brk == brk
    {
      ptr, size, freep := map[], map[], None;
      free, live, top, got := [], {}, 1, 0;
      this.brk := brk;
    }

    /** sys_sbrk(): the old break, which moves by n bytes. There may be no memory to
        grow; shrinking cannot fail. The program may move it up for itself. */
    method Sbrk(n: int, memory: bool) returns (r: Option<nat>)
      modifies `brk
      ensures r == if n <= 0 || memory then Some(old(brk)) else None
      ensures brk == if r == None then old(brk) else Moved(old(brk), n)
      ensures n >= 0 && old(Valid()) ==> Valid()
    {
      if n > 0 && !memory {
        return None;
      }
      r := Some(brk);
      brk := Moved(brk, n);
    }

    /** free()'s search for the block before bp; it always ends. */
    method FindPlace(bp: nat, ghost x: Block) returns (p: nat)
      requires Sound() && x in live && x.addr == bp
      ensures free != [] && free[0].addr < bp && p == free[Target(free, bp)].addr
      ensures p in ptr && ptr[p] == free[Step(Target(free, bp), |free|)].addr
    {
      hide Ok;
      p := freep.value;
      ghost var i :| 0 <= i < |free| && free[i].addr == p;
      StopsAtTarget(H(), x, i);
      LinkAt(H(), i);
      while !Stops(p, ptr[p], bp)
        invariant 0 <= i < |free| && p == free[i].addr && p in ptr && ptr[p] == free[Step(i, |free|)].addr
        invariant Stops(p, ptr[p], bp) <==> i == Target(free, bp)
        decreases Dist(i, Target(free, bp), |free|)
      {
        DistStep(i, Target(free, bp), |free|);
        p := ptr[p];
        i := Step(i, |free|);
        StopsAtTarget(H(), x, i);
        LinkAt(H(), i);
      }
    }

    /** free(): x, the block with header bp, is live. */
    method Free(bp: nat, ghost x: Block)
      requires Sound() && x in live && x.addr == bp
      modifies this
      ensures Sound() && freep.Some? && live == old(live) - {x} && top == old(top) && got == old(got) && brk == old(brk)
      ensures Units(H()) == old(Units(H()))
      ensures forall y :: y in free ==> y in old(free) || (y.addr <= x.addr && x.addr + x.size <= y.addr + y.size)
      ensures forall u: nat :: Covers(free, u) <==> Covers(old(free), u) || In(x, u)
      ensures exists y :: y in free && y.size >= x.size
    {
      hide Ok, Units, Found, FreedPtr, FreedSize, Place, Joined, Covers, In;
      ghost var h0 := H();
      var p := FindPlace(bp, x);
      FoundThere(h0, x);
      ghost var t := Target(free, bp);
      ghost var a, b, pb := free[..t], free[t + 1..], free[t];
      FoundApart(h0, a, pb, x, b);
      FreedOk(h0, a, pb, x, b);
      Rewrite(p, bp, pb, x);
      KeepsP(a, pb, x, b);
      PlaceHolds(a, pb, x, b);
      FoundIs(h0, a, pb, x, b);
      forall y | y in Joined(Place(a, pb, x, b))
        ensures y in free || (y.addr <= x.addr && x.addr + x.size <= y.addr + y.size)
      {
        PlaceMembers(a, pb, x, b, y);
      }
      forall u: nat
        ensures Covers(Joined(Place(a, pb, x, b)), u) <==> Covers(free, u) || In(x, u)
      {
        PlaceCovers(a, pb, x, b, u);
      }
      free := Joined(Place(a, pb, x, b));
      live := live - {x};
      freep := Some(p);
    }

    /** The assignments of free(), once it has found p. */
    method Rewrite(p: nat, bp: nat, ghost pb: Block, ghost x: Block)
      requires p == pb.addr && bp == x.addr && p < bp && p in ptr && ptr[p] in ptr && ptr[p] in size && p in size && bp in size
      requires size[p] == pb.size && size[bp] == x.size
      modifies `ptr, `size
      ensures ptr == FreedPtr(old(ptr), old(size), pb, x, old(ptr)[p]) && size == FreedSize(old(size), pb, x, old(ptr)[p])
    {
      var next := ptr[p];
      if bp + size[bp] == next {
        size := size[bp := size[bp] + size[next]];
        ptr := ptr[bp := ptr[next]];
      } else {
        ptr := ptr[bp := next];
      }
      if p + size[p] == bp {
        size := size[p := size[p] + size[bp]];
        ptr := ptr[p := ptr[bp]];
      } else {
        ptr := ptr[p := bp];
      }
    }

    /** morecore(): the units it asks sbrk() for join the list, above all others. What
        sbrk() has been told is another matter. */
    method Morecore(nu: nat, memory: bool) returns (ok: bool)
      requires Sound() && freep.Some? && 0 < top <= brk
      modifies this
      ensures Sound() && freep.Some? && live == old(live)
      ensures ok <==> SbrkArg(Asked(nu)) <= 0 || memory
      ensures !ok ==> H() == old(H()) && got == old(got) && brk == old(brk)
      ensures ok ==> brk == Moved(old(brk), SbrkArg(Asked(nu))) && got == old(got) + brk - old(brk)
      ensures ok ==> Units(H()) == old(Units(H())) + Asked(nu)
      ensures ok ==> top == old(brk) + Asked(nu) && exists y :: y in free && y.size >= nu
      ensures ok ==> top - old(brk) >= 4096 && top - old(brk) >= nu && (top - old(brk) == 4096 || top - old(brk) == nu)
      ensures ok ==> forall y :: y in free ==> y in old(free) || y.addr + y.size == old(brk) + Asked(nu)
      ensures ok ==> forall u: nat :: Covers(free, u) <==> Covers(old(free), u) || In(Block(old(brk), Asked(nu)), u)
    {
      hide Ok, Units, SbrkArg, Moved, Covers, In;
      var n := Asked(nu);
      ghost var h0 := H();
      var s := Sbrk(SbrkArg(n), memory);
      if s == None {
        return false;
      }
      var hp := s.value;
      got := got + brk - hp;
      ghost var x := Block(hp, n);
      GrownOk(h0, x);
      NewBlock(h0, x);
      size := size[hp := n];
      live := live + {x};
      top := hp + n;
      Free(hp, x);
      assert live == old(live);
      BelowTop(H());
      ok := true;
    }

    /** malloc()'s first-fit scan, once round the list from freep on. */
    method FindFit(nunits: nat) returns (fits: bool, prevp: nat, p: nat, ghost k: nat)
      requires Sound() && freep.Some?
      ensures fits ==> k < |free| && prevp == free[k].addr && p == free[Step(k, |free|)].addr && free[Step(k, |free|)].size >= nunits
      ensures !fits ==> forall y :: y in free ==> y.size < nunits
    {
      hide Ok;
      var start := freep.value;
      ghost var f :| 0 <= f < |free| && free[f].addr == start;
      ghost var n := |free|;
      prevp := start;
      k := f;
      LinkAt(H(), f);
      p := ptr[prevp];
      ghost var i := Step(f, n);
      while true
        invariant 0 <= i < n && 0 <= k < n && i == Step(k, n) && p == free[i].addr && prevp == free[k].addr
        invariant forall j :: 0 <= j < n && Passed(j, f, i) ==> free[j].size < nunits
        decreases Dist(i, f, n)
      {
        LinkAt(H(), i);
        if size[p] >= nunits {
          return true, prevp, p, k;
        }
        if p == start {
          SamePlace(H(), i, f);
          assert forall j :: 0 <= j < n ==> free[j].size < nunits;
          return false, prevp, p, k;
        }
        DistStep(i, f, n);
        prevp, p := p, ptr[p];
        k, i := i, Step(i, n);
      }
    }

    /** malloc() takes nunits units from p, the block behind prevp. */
    method Take(prevp: nat, p: nat, nunits: nat, ghost k: nat) returns (r: nat)
      requires Sound() && freep.Some? && 0 < nunits && k < |free| && prevp == free[k].addr
      requires p == free[Step(k, |free|)].addr && free[Step(k, |free|)].size >= nunits
      modifies this
      ensures Sound() && freep.Some? && Units(H()) == old(Units(H())) && got == old(got) && top == old(top) && brk == old(brk)
      ensures Block(r, nunits) !in old(live) && live == old(live) + {Block(r, nunits)}
      ensures r + nunits == old(free[Step(k, |free|)].addr) + old(free[Step(k, |free|)].size)
      ensures forall u: nat :: Covers(old(free), u) <==> Covers(free, u) || In(Block(r, nunits), u)
    {
      hide Ok, Units, Covers, In;
      ghost var h0, n := H(), |free|;
      NotBase(h0, Step(k, n));
      ghost var x := free[k + 1];
      LinkAt(h0, k + 1);
      LinkAt(h0, k);
      Cut(free, k);
      ghost var a, pb, b := free[..k], free[k], free[k + 2..];
      if size[p] == nunits {
        TakenOk(h0, a, pb, x, b);
        CoverTaken(a, pb, x, b);
        ptr := ptr[prevp := ptr[p]];
        free := a + [pb] + b;
        live := live + {x};
        assert free[k] == pb;
        r := p;
      } else {
        CutOk(h0, a + [pb], x, b, nunits);
        CoverCut(a + [pb], x, b, nunits);
        size := size[p := size[p] - nunits];
        r := p + size[p];
        size := size[r := nunits];
        free := a + [pb] + [Block(x.addr, x.size - nunits)] + b;
        live := live + {Block(r, nunits)};
        assert free[k] == pb;
      }
      freep := Some(prevp);
    }

    /** malloc(): the header of a block big enough for nbytes, or None. After
        morecore() the scan starts again at the new freep. The heap stays below the
        break exactly unless it has to grow by a request that sbrk() cannot take; from
        then on it must not grow again. */
    method Malloc(nbytes: nat, memory: bool) returns (r: Option<nat>)
      requires Sound() && nbytes < 0x1_0000_0000 && (Fits(free, UnitsFor(nbytes)) || 0 < top <= brk)
      modifies this
      ensures Sound() && freep.Some?
      ensures r == None <==> !Fits(old(free), UnitsFor(nbytes)) && !Granted(nbytes, memory)
      ensures r == None ==> live == old(live) && Units(H()) == old(Units(H())) && brk == old(brk) && !Fits(free, UnitsFor(nbytes))
      ensures r.Some? ==> var x := Block(r.value, UnitsFor(nbytes)); x !in old(live) && live == old(live) + {x}
      ensures r.Some? ==> forall x :: x in live && x !in old(live) ==>
        x.addr == r.value && nbytes <= (x.size - 1) * HEADER < nbytes + HEADER
      ensures Fits(old(free), UnitsFor(nbytes)) ==>
        && r.Some? && Units(H()) == old(Units(H())) && brk == old(brk)
        && forall u: nat :: Covers(old(free), u) <==> Covers(free, u) || In(Block(r.value, UnitsFor(nbytes)), u)
      ensures !Fits(old(free), UnitsFor(nbytes)) && r.Some? ==>
        var n := Asked(UnitsFor(nbytes));
        && Units(H()) == old(Units(H())) + n && brk == Moved(old(brk), SbrkArg(n))
        && r.value + UnitsFor(nbytes) == old(brk) + n
        && forall u: nat :: Covers(old(free), u) || In(Block(old(brk), n), u) <==> Covers(free, u) || In(Block(r.value, UnitsFor(nbytes)), u)
      ensures old(Valid()) ==> (Valid() <==> Fits(old(free), UnitsFor(nbytes)) || !Granted(nbytes, memory) || nbytes <= 0x8000_0000 - 32)
    {
      hide Ok, Units, SbrkArg, Moved, UnitsFor, Covers, In;
      var nunits := UnitsFor(nbytes);
      AtLeastOne(nbytes);
      if freep == None {
        EmptyList(top);
        ptr, size := map[0 := 0], map[0 := 0];
        free := [BASE];
        freep := Some(0);
        assert free[0] == BASE;
        BaseCovers();
      }
      ghost var free1 := free;
      var fits, prevp, p, k := FindFit(nunits);
      assert fits <==> Fits(free1, nunits) by {
        if fits { assert free[Step(k, |free|)] in free; }
      }
      assert Fits(free1, nunits) <==> Fits(old(free), nunits);
      if !fits {
        BreakAfter(brk, nbytes);
        var ok := Morecore(nunits, memory);
        if !ok {
          return None;
        }
        fits, prevp, p, k := FindFit(nunits);
        assert fits;
        assert free[Step(k, |free|)] in free;
        assert free[Step(k, |free|)] !in free1;
      }
      var q := Take(prevp, p, nunits, k);
      r := Some(q);
    }
  }

  ghost predicate Fits(free: seq<Block>, n: nat) {
    exists y :: y in free && y.size >= n
  }

  /** sbrk() does not refuse what morecore() asks for. */
  predicate Granted(nbytes: nat, memory: bool) {
    SbrkArg(Asked(UnitsFor(nbytes))) <= 0 || memory
  }

  /** In any process that has not allocated yet, two requests of 2^32 - 1 bytes get
      blocks that overlap: the first moves the break by one unit only. For the code
      that first block does not exist, so it is dropped from the ghost state, in
      which the break is then again above everything. */
  method TwoHugeRequests(start: nat) returns (r1: nat, r2: nat)
    requires start > 0
    ensures var n := UnitsFor(0xFFFF_FFFF); !Apart(Block(r1, n), Block(r2, n))
    ensures r1 == start && r2 == start + 1
  {
    hide Ok, Units;
    HugeRequest();
    var a := new Allocator(start);
    var q1 := a.Malloc(0xFFFF_FFFF, true);
    r1 := q1.value;
    OnlyBase(a.H(), Block(r1, UnitsFor(0xFFFF_FFFF)));
    a.live, a.top, a.got := {}, 1, 0;
    var q2 := a.Malloc(0xFFFF_FFFF, true);
    r2 := q2.value;
  }

  /** freep is still in the list. */
  lemma KeepsP(a: seq<Block>, p: Block, x: Block, b: seq<Block>)
    ensures var bs := Joined(Place(a, p, x, b)); exists i :: 0 <= i < |bs| && bs[i].addr == p.addr
  {
    var f := Place(a, p, x, b);
    var bs := Joined(f);
    if p.addr + p.size == x.addr {
      assert bs[|a|] == f.x;
    } else {
      assert bs[|a|] == p;
    }
  }

  lemma FoundIs(h: Heap, a: seq<Block>, p: Block, x: Block, b: seq<Block>)
    requires Found(h, a, p, x, b)
    ensures h.free == a + [p] + b
  {
    hide Ok, Gap;
  }

  lemma NewBlock(h: Heap, x: Block)
    requires Ok(h) && x.addr >= h.top && x.size > 0
    ensures x !in h.live
  {
    hide ListOk;
  }

  /** The list before anything has been allocated. */
  lemma EmptyList(top: nat)
    ensures Ok(Heap(map[0 := 0], map[0 := 0], [BASE], {}, top))
    ensures Units(Heap(map[0 := 0], map[0 := 0], [BASE], {}, top)) == 0
    ensures Units(Heap(map[], map[], [], {}, top)) == 0
  {
    SumSeqOne(BASE);
  }

  /** All free memory lies in a live block, so there is none; without live blocks the
      heap would be empty. */
  lemma OnlyBase(h: Heap, x: Block)
    requires Ok(h) && x in h.live && forall u: nat :: Covers(h.free, u) ==> In(x, u)
    ensures h.free == [BASE] && Ok(Heap(h.ptr, h.size, h.free, {}, 1)) && Units(Heap(h.ptr, h.size, h.free, {}, 1)) == 0
  {
    hide Links, Sizes, Units;
    if |h.free| > 1 {
      SecondFree(h, x);
      assert false;
    }
    assert h.free == [BASE];
    OnlyBaseUnits(h);
  }

  lemma SecondFree(h: Heap, x: Block)
    requires Ok(h) && x in h.live && |h.free| > 1
    ensures Covers(h.free, h.free[1].addr) && !In(x, h.free[1].addr)
  {
    hide Links, Sizes;
    var y := h.free[1];
    assert Before(h.free[0], y) && y in h.free && Inside(y, h.top) && Apart(x, y);
    assert In(y, y.addr);
  }

  lemma OnlyBaseUnits(h: Heap)
    requires h.free == [BASE]
    ensures Units(Heap(h.ptr, h.size, h.free, {}, 1)) == 0
  {
    SumSeqOne(BASE);
  }

  lemma BelowTop(h: Heap)
    requires Ok(h)
    ensures forall y :: y in h.free ==> y.addr + y.size <= h.top
  {
    hide Sorted, Links, Sizes, LiveOk;
  }

  /** j has been passed on the way from f to i. */
  predicate Passed(j: nat, f: nat, i: nat) {
    if i > f then f < j < i else j > f || j < i
  }

  lemma SamePlace(h: Heap, i: nat, f: nat)
    requires Ok(h) && i < |h.free| && f < |h.free| && h.free[i].addr == h.free[f].addr
    ensures i == f
  {
    hide Ok;
    if i < f {
      Ascending(h, i, f);
    } else if f < i {
      Ascending(h, f, i);
    }
  }

  lemma NotBase(h: Heap, i: nat)
    requires Ok(h) && i < |h.free| && h.free[i].size > 0
    ensures i > 0
  {
    hide Links, Sorted, Sizes, LiveOk;
  }

  lemma Cut(bs: seq<Block>, k: nat)
    requires k + 1 < |bs|
    ensures bs == bs[..k] + [bs[k]] + [bs[k + 1]] + bs[k + 2..]
  {
  }

  lemma BaseCovers()
    ensures forall u: nat :: Covers([BASE], u) <==> Covers([], u)
  {
  }

  /** One unit is the header; the others just hold nbytes. */
  lemma AtLeastOne(nbytes: nat)
    ensures UnitsFor(nbytes) > 0 && nbytes <= (UnitsFor(nbytes) - 1) * HEADER < nbytes + HEADER
  {
  }

  lemma CoverTaken(a: seq<Block>, p: Block, x: Block, b: seq<Block>)
    ensures forall u: nat :: Covers(a + [p] + [x] + b, u) <==> Covers(a + [p] + b, u) || In(x, u)
  {
    hide Covers, In;
    forall u: nat
      ensures Covers(a + [p] + [x] + b, u) <==> Covers(a + [p] + b, u) || In(x, u)
    {
      CoversAround(a + [p], x, b, u);
      CoversConcat(a + [p], b, u);
    }
  }

  lemma CoverCut(a: seq<Block>, x: Block, b: seq<Block>, n: nat)
    requires n < x.size
    ensures forall u: nat :: Covers(a + [x] + b, u) <==>
      Covers(a + [Block(x.addr, x.size - n)] + b, u) || In(Block(x.addr + (x.size - n), n), u)
  {
    hide Covers;
    forall u: nat
      ensures Covers(a + [x] + b, u) <==> Covers(a + [Block(x.addr, x.size - n)] + b, u) || In(Block(x.addr + (x.size - n), n), u)
    {
      CoversAround(a, x, b, u);
      CoversAround(a, Block(x.addr, x.size - n), b, u);
    }
  }
}
