/** The heap of user/umalloc.c as a value.

    Addresses and sizes are in units of one Header. `base` is at address 0, below
    the heap, and has size 0. */
module MallocState {

  datatype Block = Block(addr: nat, size: nat)

  const BASE := Block(0, 0)

  /** The headers in memory, and which blocks are free, in address order from base
      on, and which are live. `top` is the end of the heap. */
  datatype Heap = Heap(ptr: map<nat, nat>, size: map<nat, nat>, free: seq<Block>, live: set<Block>, top: nat)

  /** x ends before y, with a gap. */
  predicate Before(x: Block, y: Block) {
    x.addr + x.size < y.addr
  }

  predicate Apart(x: Block, y: Block) {
    x.addr + x.size <= y.addr || y.addr + y.size <= x.addr
  }

  // ------------------------------------------------------------ sorted blocks

  ghost predicate Sorted(bs: seq<Block>) {
    forall i, j :: 0 <= i < j < |bs| ==> Before(bs[i], bs[j])
  }

  ghost predicate AllBefore(a: seq<Block>, b: seq<Block>) {
    forall x, y :: x in a && y in b ==> Before(x, y)
  }

  lemma SortedConcat(a: seq<Block>, b: seq<Block>)
    requires Sorted(a) && Sorted(b) && AllBefore(a, b)
    ensures Sorted(a + b)
  {
    hide Before;
    forall i, j | 0 <= i < j < |a + b|
      ensures Before((a + b)[i], (a + b)[j])
    {
      if i < |a| <= j {
        assert a[i] in a && b[j - |a|] in b;
      } else if i >= |a| {
        assert Before(b[i - |a|], b[j - |a|]);
      } else {
        assert Before(a[i], a[j]);
      }
    }
  }

  lemma SortedSplit(a: seq<Block>, b: seq<Block>)
    requires Sorted(a + b)
    ensures Sorted(a) && Sorted(b) && AllBefore(a, b)
  {
    hide Before;
    forall i, j | 0 <= i < j < |a|
      ensures Before(a[i], a[j])
    {
      assert Before((a + b)[i], (a + b)[j]);
    }
    forall i, j | 0 <= i < j < |b|
      ensures Before(b[i], b[j])
    {
      assert Before((a + b)[|a| + i], (a + b)[|a| + j]);
    }
    forall x, y | x in a && y in b
      ensures Before(x, y)
    {
      var i, j :| 0 <= i < |a| && a[i] == x && 0 <= j < |b| && b[j] == y;
      assert Before((a + b)[i], (a + b)[|a| + j]);
    }
  }

  /** a, then x, then b. */
  lemma SortedAround(a: seq<Block>, x: Block, b: seq<Block>)
    requires Sorted(a) && Sorted(b) && (forall y :: y in a ==> Before(y, x)) && (forall y :: y in b ==> Before(x, y))
    requires AllBefore(a, b)
    ensures Sorted(a + [x] + b)
  {
    hide Before, Sorted;
    SortedOne(x);
    SortedConcat(a, [x]);
    SortedConcat(a + [x], b);
  }

  lemma SortedOne(x: Block)
    ensures Sorted([x])
  {
  }

  // ------------------------------------------------------------------- links

  /** The headers of bs are linked in order, and the last one leads to end. */
  ghost predicate Links(ptr: map<nat, nat>, bs: seq<Block>, end: nat) {
    forall i {:trigger bs[i]} :: 0 <= i < |bs| ==>
      bs[i].addr in ptr && ptr[bs[i].addr] == (if i + 1 < |bs| then bs[i + 1].addr else end)
  }

  function First(bs: seq<Block>, end: nat): nat {
    if bs == [] then end else bs[0].addr
  }

  lemma LinksConcat(ptr: map<nat, nat>, a: seq<Block>, b: seq<Block>, end: nat)
    requires Links(ptr, a, First(b, end)) && Links(ptr, b, end)
    ensures Links(ptr, a + b, end)
  {
    forall i {:trigger (a + b)[i]} | 0 <= i < |a + b|
      ensures (a + b)[i].addr in ptr && ptr[(a + b)[i].addr] == (if i + 1 < |a + b| then (a + b)[i + 1].addr else end)
    {
      if i < |a| {
        assert (a + b)[i] == a[i];
      } else {
        assert (a + b)[i] == b[i - |a|];
      }
    }
  }

  lemma LinksSplit(ptr: map<nat, nat>, a: seq<Block>, b: seq<Block>, end: nat)
    requires Links(ptr, a + b, end)
    ensures Links(ptr, a, First(b, end)) && Links(ptr, b, end)
  {
    forall i {:trigger a[i]} | 0 <= i < |a|
      ensures a[i].addr in ptr && ptr[a[i].addr] == (if i + 1 < |a| then a[i + 1].addr else First(b, end))
    {
      assert (a + b)[i] == a[i];
    }
    forall i {:trigger b[i]} | 0 <= i < |b|
      ensures b[i].addr in ptr && ptr[b[i].addr] == (if i + 1 < |b| then b[i + 1].addr else end)
    {
      assert (a + b)[|a| + i] == b[i];
    }
  }

  /** A write to the header at p does not matter to blocks elsewhere. */
  lemma LinksFrame(ptr: map<nat, nat>, bs: seq<Block>, end: nat, p: nat, v: nat)
    requires Links(ptr, bs, end) && forall x :: x in bs ==> x.addr != p
    ensures Links(ptr[p := v], bs, end)
  {
    forall i {:trigger bs[i]} | 0 <= i < |bs|
      ensures bs[i].addr in ptr[p := v] && ptr[p := v][bs[i].addr] == (if i + 1 < |bs| then bs[i + 1].addr else end)
    {
      assert bs[i] in bs;
    }
  }

  /** Redirecting the last link. */
  lemma LinksLast(ptr: map<nat, nat>, a: seq<Block>, x: Block, end: nat, v: nat)
    requires Links(ptr, a + [x], end) && forall y :: y in a ==> y.addr != x.addr
    ensures Links(ptr[x.addr := v], a + [x], v)
  {
    LinksSplit(ptr, a, [x], end);
    LinksFrame(ptr, a, x.addr, x.addr, v);
    LinksConcat(ptr[x.addr := v], a, [x], v);
  }

  // ------------------------------------------------------------------- sizes

  ghost predicate Sizes(size: map<nat, nat>, bs: seq<Block>) {
    forall x :: x in bs ==> x.addr in size && size[x.addr] == x.size
  }

  // ------------------------------------------------------------------- units

  function SumSeq(bs: seq<Block>): nat {
    if bs == [] then 0 else bs[|bs| - 1].size + SumSeq(bs[..|bs| - 1])
  }

  ghost function SumSet(s: set<Block>): nat {
    if s == {} then 0 else
      var x :| x in s;
      x.size + SumSet(s - {x})
  }

  lemma {:induction false} SumSeqConcat(a: seq<Block>, b: seq<Block>)
    ensures SumSeq(a + b) == SumSeq(a) + SumSeq(b)
  {
    if b == [] {
      assert a + b == a;
    } else {
      assert (a + b)[..|a + b| - 1] == a + b[..|b| - 1];
      SumSeqConcat(a, b[..|b| - 1]);
    }
  }

  lemma SumSeqAround(a: seq<Block>, x: Block, b: seq<Block>)
    ensures SumSeq(a + [x] + b) == SumSeq(a) + x.size + SumSeq(b)
  {
    SumSeqConcat(a + [x], b);
    SumSeqConcat(a, [x]);
    assert [x][..0] == [];
  }

  lemma {:induction false} SumSetRemove(s: set<Block>, x: Block)
    requires x in s
    ensures SumSet(s) == x.size + SumSet(s - {x})
    decreases |s|
  {
    var y :| y in s && SumSet(s) == y.size + SumSet(s - {y});
    if x != y {
      SumSetRemove(s - {y}, x);
      SumSetRemove(s - {x}, y);
      assert s - {y} - {x} == s - {x} - {y};
    }
  }

  lemma SumSetAdd(s: set<Block>, x: Block)
    requires x !in s
    ensures SumSet(s + {x}) == SumSet(s) + x.size
  {
    SumSetRemove(s + {x}, x);
    assert s + {x} - {x} == s;
  }

  /** Free and live units together. */
  ghost function Units(h: Heap): nat {
    SumSeq(h.free) + SumSet(h.live)
  }

  // ------------------------------------------------------------- the invariant

  predicate Inside(x: Block, top: nat) {
    x.size > 0 && x.addr > 0 && x.addr + x.size <= top
  }

  /** One circular list of the free blocks, in address order, no two touching. */
  ghost predicate ListOk(h: Heap) {
    && h.free != [] && h.free[0] == BASE
    && Sorted(h.free)
    && Links(h.ptr, h.free, BASE.addr)
    && Sizes(h.size, h.free)
    && (forall x :: x in h.free && x != BASE ==> Inside(x, h.top))
  }

  /** Live blocks keep their sizes, and overlap nothing. */
  ghost predicate LiveOk(h: Heap) {
    && (forall x :: x in h.live ==> Inside(x, h.top) && x.addr in h.size && h.size[x.addr] == x.size)
    && (forall x, y :: x in h.live && y in h.live && x != y ==> Apart(x, y))
    && (forall x, y :: x in h.live && y in h.free ==> Apart(x, y))
  }

  ghost predicate Ok(h: Heap) {
    ListOk(h) && LiveOk(h)
  }

  // ------------------------------------------------------------------- free()

  /** bp lies after the blocks of a and before those of b. */
  ghost predicate Gap(a: seq<Block>, x: Block, b: seq<Block>) {
    && (forall y :: y in a ==> y.addr < x.addr)
    && (forall y :: y in b ==> x.addr < y.addr)
  }

  /** Freeing x between a + [p] and b: it may grow at either end. */
  datatype Freeing = Freeing(a: seq<Block>, x: Block, b: seq<Block>)

  function Place(a: seq<Block>, p: Block, x: Block, b: seq<Block>): Freeing {
    var joins := b != [] && x.addr + x.size == b[0].addr;
    var x1 := if joins then Block(x.addr, x.size + b[0].size) else x;
    var b1 := if joins then b[1..] else b;
    if p.addr + p.size == x.addr then Freeing(a, Block(p.addr, p.size + x1.size), b1)
    else Freeing(a + [p], x1, b1)
  }

  function Joined(f: Freeing): seq<Block> {
    f.a + [f.x] + f.b
  }

  lemma SumSeqOne(x: Block)
    ensures SumSeq([x]) == x.size && SumSeq([]) == 0
  {
    assert [x][..0] == [];
  }

  lemma PlaceSum(a: seq<Block>, p: Block, x: Block, b: seq<Block>)
    ensures SumSeq(Joined(Place(a, p, x, b))) == SumSeq(a + [p] + b) + x.size
  {
    hide SumSeq;
    var f := Place(a, p, x, b);
    SumSeqAround(f.a, f.x, f.b);
    SumSeqAround(a, p, b);
    SumSeqConcat(a, [p]);
    SumSeqOne(p);
    if b != [] {
      SumSeqConcat([b[0]], b[1..]);
      SumSeqOne(b[0]);
      assert [b[0]] + b[1..] == b;
    }
  }

  lemma PlaceSorted(a: seq<Block>, p: Block, x: Block, b: seq<Block>)
    requires Sorted(a + [p] + b) && Gap(a + [p], x, b) && x.size > 0
    requires Apart(x, p) && (b != [] ==> Apart(x, b[0]))
    requires b != [] ==> b[0].size > 0
    ensures Sorted(Joined(Place(a, p, x, b)))
  {
    var f := Place(a, p, x, b);
    SortedSplit(a + [p], b);
    SortedSplit(a, [p]);
    assert p in a + [p];
    if b != [] {
      assert b == [b[0]] + b[1..];
      SortedSplit([b[0]], b[1..]);
      assert b[0] in b;
    }
    forall y | y in f.a
      ensures Before(y, f.x)
    {
      assert y in a || y == p;
      assert y in a ==> Before(y, p);
    }
    forall y | y in f.b
      ensures Before(f.x, y)
    {
      assert y in b;
      assert b[0] in [b[0]] && (y in b[1..] ==> Before(b[0], y)) && (y == b[0] || y in b[1..]);
    }
    assert AllBefore(f.a, f.b) by {
      assert forall y :: y in f.a ==> y in a + [p];
      assert forall y :: y in f.b ==> y in b;
    }
    SortedAround(f.a, f.x, f.b);
  }

  /** The headers after free() has linked x in behind p. */
  function FreedPtr(ptr: map<nat, nat>, size: map<nat, nat>, p: Block, x: Block, next: nat): map<nat, nat>
    requires next in ptr && x.addr > 0
  {
    var after := if x.addr + x.size == next then ptr[next] else next;
    if p.addr + p.size == x.addr then ptr[x.addr := after][p.addr := after] else ptr[x.addr := after][p.addr := x.addr]
  }

  function FreedSize(size: map<nat, nat>, p: Block, x: Block, next: nat): map<nat, nat>
    requires next in size
  {
    var n := if x.addr + x.size == next then x.size + size[next] else x.size;
    var size1 := if x.addr + x.size == next then size[x.addr := n] else size;
    if p.addr + p.size == x.addr then size1[p.addr := p.size + n] else size1
  }

  lemma LinksResized(ptr: map<nat, nat>, a: seq<Block>, p: Block, p': Block, end: nat)
    requires Links(ptr, a + [p], end) && p'.addr == p.addr
    ensures Links(ptr, a + [p'], end)
  {
    LinksSplit(ptr, a, [p], end);
    LinksConcat(ptr, a, [p'], end);
  }

  /** What free() relies on when it has found its place. */
  ghost predicate Found(h: Heap, a: seq<Block>, p: Block, x: Block, b: seq<Block>) {
    Ok(h) && x in h.live && h.free == a + [p] + b && Gap(a + [p], x, b)
  }

  ghost predicate Elsewhere(bs: seq<Block>, addr: nat) {
    forall y :: y in bs ==> y.addr != addr
  }

  lemma SortedAddrs(a: seq<Block>, p: Block, b: seq<Block>)
    requires Sorted(a + [p] + b)
    ensures Elsewhere(a, p.addr) && Elsewhere(b, p.addr)
    ensures b != [] ==> Elsewhere(b[1..], b[0].addr)
  {
    hide Sorted;
    SortedSplit(a + [p], b);
    SortedSplit(a, [p]);
    assert p in a + [p] && p in [p];
    if b != [] {
      assert b == [b[0]] + b[1..];
      SortedSplit([b[0]], b[1..]);
      assert b[0] in [b[0]];
    }
  }

  lemma Members(a: seq<Block>, p: Block, b: seq<Block>)
    ensures forall y :: y in a + [p] + b <==> y in a || y == p || y in b
    ensures p in a + [p] + b && (b != [] ==> b[0] in a + [p] + b)
    ensures (a + [p] + b)[0] == (if a == [] then p else a[0])
  {
  }

  lemma FoundApart(h: Heap, a: seq<Block>, p: Block, x: Block, b: seq<Block>)
    requires Found(h, a, p, x, b)
    ensures Elsewhere(a, p.addr) && Elsewhere(b, p.addr) && Elsewhere(a, x.addr) && Elsewhere(b, x.addr) && p.addr < x.addr
    ensures x.size > 0 && x.addr > 0 && Apart(x, p) && (b != [] ==> Apart(x, b[0]) && b[0].size > 0 && b[0].addr > 0)
    ensures b != [] ==> Elsewhere(b[1..], b[0].addr)
    ensures p.addr + p.size == x.addr ==> p.size > 0
    ensures x.addr in h.size && h.size[x.addr] == x.size && p.addr in h.size && h.size[p.addr] == p.size
    ensures First(b, 0) in h.ptr && First(b, 0) in h.size && (b != [] ==> h.size[b[0].addr] == b[0].size)
  {
    hide Sorted, Links;
    SortedAddrs(a, p, b);
    Members(a, p, b);
    FirstLinked(h.ptr, a, p, b);
    assert BASE in h.free;
    assert p in a + [p] && forall y :: y in a ==> y in a + [p];
    assert b != [] ==> b[0] in b;
  }

  lemma FirstLinked(ptr: map<nat, nat>, a: seq<Block>, p: Block, b: seq<Block>)
    requires Links(ptr, a + [p] + b, 0) && (a + [p] + b)[0].addr == 0
    ensures First(b, 0) in ptr
  {
    var r := a + [p] + b;
    assert r[0].addr in ptr;
    if b != [] {
      assert r[|a| + 1] == b[0];
    }
  }

  lemma FreedLinks(h: Heap, a: seq<Block>, p: Block, x: Block, b: seq<Block>)
    requires Found(h, a, p, x, b)
    requires First(b, 0) in h.ptr && x.addr > 0
    ensures Links(FreedPtr(h.ptr, h.size, p, x, First(b, 0)), Joined(Place(a, p, x, b)), 0)
  {
    hide Links, Sorted, Sizes, LiveOk, Gap, Apart, Elsewhere;
    FoundApart(h, a, p, x, b);
    LinksSplit(h.ptr, a + [p], b, 0);
    var f := Place(a, p, x, b);
    if b != [] {
      NextBlock(h.ptr, b);
    }
    ElsewhereTail(b, x.addr);
    ElsewhereTail(b, p.addr);
    if p.addr + p.size == x.addr {
      LinkMerged(h.ptr, a, p, f.x, f.b, x.addr, First(b, 0));
    } else {
      LinkInserted(h.ptr, a, p, f.x, f.b, First(b, 0));
    }
  }

  lemma NextBlock(ptr: map<nat, nat>, b: seq<Block>)
    requires Links(ptr, b, 0) && b != []
    ensures Links(ptr, b[1..], 0) && b[0].addr in ptr && ptr[b[0].addr] == First(b[1..], 0)
  {
    assert b == [b[0]] + b[1..];
    LinksSplit(ptr, [b[0]], b[1..], 0);
    LinkOf(ptr, b[0], First(b[1..], 0));
  }

  lemma ElsewhereTail(b: seq<Block>, addr: nat)
    requires Elsewhere(b, addr)
    ensures b != [] ==> Elsewhere(b[1..], addr)
  {
  }

  /** x takes its place between a + [p] and b. */
  lemma LinkInserted(ptr: map<nat, nat>, a: seq<Block>, p: Block, x: Block, b: seq<Block>, end: nat)
    requires Links(ptr, a + [p], end) && Links(ptr, b, 0) && Elsewhere(a, p.addr) && Elsewhere(b, p.addr)
    requires Elsewhere(a, x.addr) && Elsewhere(b, x.addr) && p.addr != x.addr
    ensures Links(ptr[x.addr := First(b, 0)][p.addr := x.addr], a + [p] + [x] + b, 0)
  {
    hide Links;
    var ptr1 := ptr[x.addr := First(b, 0)];
    var ptr2 := ptr1[p.addr := x.addr];
    LinksFrame(ptr, b, 0, x.addr, First(b, 0));
    LinksFrame(ptr1, b, 0, p.addr, x.addr);
    LinksFrame(ptr, a + [p], end, x.addr, First(b, 0));
    LinksLast(ptr1, a, p, end, x.addr);
    LinkTo(ptr2, x, First(b, 0));
    LinksConcat(ptr2, [x], b, 0);
    LinksConcat(ptr2, a + [p], [x] + b, 0);
    assert a + [p] + ([x] + b) == a + [p] + [x] + b;
  }

  /** p, now larger, leads to b; the header at addr is garbage. */
  lemma LinkMerged(ptr: map<nat, nat>, a: seq<Block>, p: Block, p': Block, b: seq<Block>, addr: nat, end: nat)
    requires Links(ptr, a + [p], end) && Links(ptr, b, 0) && Elsewhere(a, p.addr) && Elsewhere(b, p.addr)
    requires Elsewhere(a, addr) && Elsewhere(b, addr) && p.addr != addr && p'.addr == p.addr
    ensures Links(ptr[addr := First(b, 0)][p.addr := First(b, 0)], a + [p'] + b, 0)
  {
    hide Links;
    var ptr1 := ptr[addr := First(b, 0)];
    var ptr2 := ptr1[p.addr := First(b, 0)];
    LinksFrame(ptr, b, 0, addr, First(b, 0));
    LinksFrame(ptr1, b, 0, p.addr, First(b, 0));
    LinksFrame(ptr, a + [p], end, addr, First(b, 0));
    LinksLast(ptr1, a, p, end, First(b, 0));
    LinksResized(ptr2, a, p, p', First(b, 0));
    LinksConcat(ptr2, a + [p'], b, 0);
  }

  lemma LinkOf(ptr: map<nat, nat>, x: Block, end: nat)
    requires Links(ptr, [x], end)
    ensures x.addr in ptr && ptr[x.addr] == end
  {
    assert [x][0] == x;
  }

  lemma LinkTo(ptr: map<nat, nat>, x: Block, end: nat)
    requires x.addr in ptr && ptr[x.addr] == end
    ensures Links(ptr, [x], end)
  {
  }

  lemma FreedSizes(h: Heap, a: seq<Block>, p: Block, x: Block, b: seq<Block>)
    requires Found(h, a, p, x, b)
    requires First(b, 0) in h.size
    ensures Sizes(FreedSize(h.size, p, x, First(b, 0)), Joined(Place(a, p, x, b)))
  {
    hide Links, Sorted, LiveOk, Gap;
    FoundApart(h, a, p, x, b);
    var f := Place(a, p, x, b);
    forall y | y in Joined(f)
      ensures y.addr in FreedSize(h.size, p, x, First(b, 0)) && FreedSize(h.size, p, x, First(b, 0))[y.addr] == y.size
    {
      assert y == f.x || y in f.a || y in f.b;
      assert y in f.a ==> y in a || y == p;
      assert y in f.b ==> y in b;
      assert y in a || y == p || y in b ==> y in h.free;
    }
  }

  /** Next to its neighbours a live block is next to all of them joined. */
  lemma FreedLive(h: Heap, a: seq<Block>, p: Block, x: Block, b: seq<Block>, y: Block, z: Block)
    requires Found(h, a, p, x, b) && y in h.live && y != x && z in Joined(Place(a, p, x, b))
    ensures Apart(y, z)
  {
    hide Links, Sorted, Sizes, Gap;
    FoundApart(h, a, p, x, b);
    var f := Place(a, p, x, b);
    assert z == f.x || z in f.a || z in f.b;
    assert z in f.a ==> z in a || z == p;
    assert z in f.b ==> z in b;
    assert z in a || z == p || z in b ==> z in h.free;
    assert p in h.free && Apart(y, p) && Apart(y, x);
    if b != [] {
      assert b[0] in h.free && Apart(y, b[0]);
    }
  }

  /** free() gives x back: the list stays sorted, linked and without neighbours,
      and no unit is lost. */
  lemma FreedOk(h: Heap, a: seq<Block>, p: Block, x: Block, b: seq<Block>)
    requires Found(h, a, p, x, b)
    ensures First(b, 0) in h.ptr && First(b, 0) in h.size && x.addr > 0
    ensures var h' := Heap(FreedPtr(h.ptr, h.size, p, x, First(b, 0)), FreedSize(h.size, p, x, First(b, 0)),
                           Joined(Place(a, p, x, b)), h.live - {x}, h.top);
      Ok(h') && Units(h') == Units(h)
  {
    hide Links, Sorted, Sizes, LiveOk, Gap, SumSeq, Place, FreedPtr, FreedSize;
    FoundApart(h, a, p, x, b);
    PlaceSorted(a, p, x, b);
    FreedLinks(h, a, p, x, b);
    FreedSizes(h, a, p, x, b);
    PlaceSum(a, p, x, b);
    SumSetRemove(h.live, x);
    FreedInside(h, a, p, x, b);
    FreedLiveOk(h, a, p, x, b);
  }

  lemma FreedInside(h: Heap, a: seq<Block>, p: Block, x: Block, b: seq<Block>)
    requires Found(h, a, p, x, b)
    ensures Joined(Place(a, p, x, b)) != [] && Joined(Place(a, p, x, b))[0] == BASE
    ensures forall y :: y in Joined(Place(a, p, x, b)) && y != BASE ==> Inside(y, h.top)
  {
    hide Links, Sorted, Sizes;
    FoundApart(h, a, p, x, b);
    var f := Place(a, p, x, b);
    assert p in h.free;
    if b != [] {
      assert b[0] in h.free;
    }
    forall y | y in Joined(f) && y != BASE
      ensures Inside(y, h.top)
    {
      assert y == f.x || y in f.a || y in f.b;
      assert y in f.a ==> y in a || y == p;
      assert y in f.b ==> y in b;
      assert y in a || y == p || y in b ==> y in h.free;
    }
    assert h.free[0] == (if a == [] then p else a[0]);
  }

  lemma FreedLiveOk(h: Heap, a: seq<Block>, p: Block, x: Block, b: seq<Block>)
    requires Found(h, a, p, x, b) && First(b, 0) in h.ptr && First(b, 0) in h.size && x.addr > 0
    ensures LiveOk(Heap(FreedPtr(h.ptr, h.size, p, x, First(b, 0)), FreedSize(h.size, p, x, First(b, 0)),
                        Joined(Place(a, p, x, b)), h.live - {x}, h.top))
  {
    hide Links, Sorted, Sizes, Gap, Joined, Place, FreedPtr;
    FoundApart(h, a, p, x, b);
    assert p in h.free;
    forall y | y in h.live - {x}
      ensures y.addr in FreedSize(h.size, p, x, First(b, 0)) && FreedSize(h.size, p, x, First(b, 0))[y.addr] == y.size
    {
      assert Apart(y, x) && Apart(y, p);
    }
    forall y, z | y in h.live - {x} && z in Joined(Place(a, p, x, b))
      ensures Apart(y, z)
    {
      FreedLive(h, a, p, x, b, y, z);
    }
  }

  // ------------------------------------------------------------------ malloc()

  /** The whole block x, behind p, goes to the caller. */
  lemma TakenOk(h: Heap, a: seq<Block>, p: Block, x: Block, b: seq<Block>)
    requires Ok(h) && h.free == a + [p] + [x] + b
    ensures x.addr in h.ptr && p.addr in h.ptr
    ensures var h' := Heap(h.ptr[p.addr := h.ptr[x.addr]], h.size, a + [p] + b, h.live + {x}, h.top);
      Ok(h') && Units(h') == Units(h) && x !in h.live && x != BASE
  {
    hide Links, Before, SumSeq, Sorted;
    TakenSorted(a, p, x, b);
    TakenFacts(h, a, p, x, b);
    TakenLinks(h, a, p, x, b);
    SumSeqAround(a + [p], x, b);
    SumSeqConcat(a + [p], b);
    SumSetAdd(h.live, x);
  }

  lemma TakenSorted(a: seq<Block>, p: Block, x: Block, b: seq<Block>)
    requires Sorted(a + [p] + [x] + b)
    ensures Sorted(a + [p] + b)
  {
    hide Before, Sorted;
    SortedSplit(a + [p] + [x], b);
    SortedSplit(a + [p], [x]);
    assert AllBefore(a + [p], b) by {
      assert forall y :: y in a + [p] ==> y in a + [p] + [x];
    }
    SortedConcat(a + [p], b);
  }

  lemma TakenFacts(h: Heap, a: seq<Block>, p: Block, x: Block, b: seq<Block>)
    requires Ok(h) && h.free == a + [p] + [x] + b
    ensures x in h.free && p in h.free && x != BASE && x !in h.live && (a + [p] + b)[0] == BASE
    ensures forall y :: y in a + [p] + b ==> y in h.free && Apart(x, y)
  {
    hide Links;
    assert h.free[|a| + 1] == x && h.free[|a|] == p;
    assert Before(h.free[0], h.free[|a| + 1]);
    forall y | y in a + [p] + b
      ensures y in h.free && Apart(x, y)
    {
      if y in b {
        var j :| 0 <= j < |b| && b[j] == y;
        assert h.free[|a| + 2 + j] == y;
        assert Before(x, y);
      } else {
        var j :| 0 <= j < |a + [p]| && (a + [p])[j] == y;
        assert h.free[j] == y;
        assert Before(y, x);
      }
    }
    assert h.free[0] == (a + [p] + b)[0];
  }

  lemma TakenLinks(h: Heap, a: seq<Block>, p: Block, x: Block, b: seq<Block>)
    requires Links(h.ptr, h.free, 0) && Sorted(h.free) && h.free == a + [p] + [x] + b
    ensures x.addr in h.ptr && p.addr in h.ptr && Links(h.ptr[p.addr := h.ptr[x.addr]], a + [p] + b, 0)
  {
    hide Links, Sorted, Elsewhere;
    LinksSplit(h.ptr, a + [p] + [x], b, 0);
    LinksSplit(h.ptr, a + [p], [x], First(b, 0));
    LinkOf(h.ptr, x, First(b, 0));
    LinksSplit(h.ptr, a, [p], x.addr);
    LinkOf(h.ptr, p, x.addr);
    assert h.free == a + [p] + ([x] + b);
    SortedAddrs(a, p, [x] + b);
    ElsewhereTail([x] + b, p.addr);
    assert ([x] + b)[1..] == b;
    RelinkLast(h.ptr, a, p, b, x.addr);
  }

  lemma RelinkLast(ptr: map<nat, nat>, a: seq<Block>, p: Block, b: seq<Block>, end: nat)
    requires Links(ptr, a + [p], end) && Links(ptr, b, 0) && Elsewhere(a, p.addr) && Elsewhere(b, p.addr)
    ensures Links(ptr[p.addr := First(b, 0)], a + [p] + b, 0)
  {
    hide Links;
    LinksLast(ptr, a, p, end, First(b, 0));
    LinksFrame(ptr, b, 0, p.addr, First(b, 0));
    LinksConcat(ptr[p.addr := First(b, 0)], a + [p], b, 0);
  }

  /** The tail end of block x, n units, goes to the caller. */
  lemma CutOk(h: Heap, a: seq<Block>, x: Block, b: seq<Block>, n: nat)
    requires Ok(h) && h.free == a + [x] + b && 0 < n < x.size
    ensures var y, z := Block(x.addr, x.size - n), Block(x.addr + (x.size - n), n);
      var h' := Heap(h.ptr, h.size[x.addr := y.size][z.addr := n], a + [y] + b, h.live + {z}, h.top);
      Ok(h') && Units(h') == Units(h) && z !in h.live
  {
    hide Links, SumSeq;
    var y, z := Block(x.addr, x.size - n), Block(x.addr + (x.size - n), n);
    CutFacts(h, a, x, b);
    CutSorted(a, x, y, b);
    CutLinks(h.ptr, a, x, y, b);
    SumSeqAround(a, x, b);
    SumSeqAround(a, y, b);
    assert Apart(z, x) ==> false;
    SumSetAdd(h.live, z);
    CutSizes(h, a, x, y, z, b);
    CutLive(h, a, x, y, z, b);
  }

  lemma CutFacts(h: Heap, a: seq<Block>, x: Block, b: seq<Block>)
    requires Ok(h) && h.free == a + [x] + b && x.size > 0
    ensures x in h.free && x != BASE && a != [] && a[0] == BASE && Inside(x, h.top)
    ensures forall y :: y in a || y in b ==> y in h.free && y.addr != x.addr && Apart(x, y) && (y != BASE ==> Inside(y, h.top))
  {
    assert h.free[|a|] == x;
    assert h.free[0] == BASE;
    forall y | y in a || y in b
      ensures y in h.free && y.addr != x.addr && Apart(x, y)
    {
      if y in b {
        var j :| 0 <= j < |b| && b[j] == y;
        assert h.free[|a| + 1 + j] == y;
        assert Before(x, y);
      } else {
        var j :| 0 <= j < |a| && a[j] == y;
        assert h.free[j] == y;
        assert Before(y, x);
      }
    }
  }

  lemma CutSorted(a: seq<Block>, x: Block, y: Block, b: seq<Block>)
    requires Sorted(a + [x] + b) && y.addr == x.addr && y.size <= x.size
    ensures Sorted(a + [y] + b)
  {
    SortedSplit(a + [x], b);
    SortedSplit(a, [x]);
    assert x in a + [x] && x in [x];
    assert forall w :: w in a ==> w in a + [x];
    SortedAround(a, y, b);
  }

  lemma CutLinks(ptr: map<nat, nat>, a: seq<Block>, x: Block, y: Block, b: seq<Block>)
    requires Links(ptr, a + [x] + b, 0) && y.addr == x.addr
    ensures Links(ptr, a + [y] + b, 0)
  {
    hide Links;
    LinksSplit(ptr, a + [x], b, 0);
    LinksResized(ptr, a, x, y, First(b, 0));
    LinksConcat(ptr, a + [y], b, 0);
  }

  lemma CutSizes(h: Heap, a: seq<Block>, x: Block, y: Block, z: Block, b: seq<Block>)
    requires Ok(h) && h.free == a + [x] + b && y.addr == x.addr && 0 < y.size < x.size && z == Block(x.addr + y.size, x.size - y.size)
    ensures Sizes(h.size[x.addr := y.size][z.addr := z.size], a + [y] + b)
  {
    hide Links, Sorted, LiveOk;
    CutFacts(h, a, x, b);
    forall w | w in a + [y] + b
      ensures var s := h.size[x.addr := y.size][z.addr := z.size]; w.addr in s && s[w.addr] == w.size
    {
      assert w in a || w == y || w in b;
    }
  }

  lemma CutLive(h: Heap, a: seq<Block>, x: Block, y: Block, z: Block, b: seq<Block>)
    requires Ok(h) && h.free == a + [x] + b && y.addr == x.addr && 0 < y.size < x.size && z == Block(x.addr + y.size, x.size - y.size)
    ensures LiveOk(Heap(h.ptr, h.size[x.addr := y.size][z.addr := z.size], a + [y] + b, h.live + {z}, h.top))
    ensures forall w :: w in a + [y] + b && w != BASE ==> Inside(w, h.top)
  {
    hide Links, Sorted, Sizes;
    CutFacts(h, a, x, b);
    forall v, w | v in h.live + {z} && w in a + [y] + b
      ensures Apart(v, w)
    {
      assert w in a || w == y || w in b;
      assert v != z ==> Apart(v, x);
    }
    forall v | v in h.live
      ensures Apart(v, z) && v.addr != z.addr && v.addr != x.addr
    {
      assert Apart(v, x);
    }
  }

  // ---------------------------------------------------------------- morecore()

  /** New units above the heap, for the moment as a live block. */
  lemma GrownOk(h: Heap, x: Block)
    requires Ok(h) && x.addr >= h.top && x.addr > 0 && x.size > 0
    ensures var h' := Heap(h.ptr, h.size[x.addr := x.size], h.free, h.live + {x}, x.addr + x.size);
      Ok(h') && Units(h') == Units(h) + x.size
  {
    hide Links, Sorted, SumSeq;
    assert h.free[0] in h.free;
    assert x !in h.live;
    SumSetAdd(h.live, x);
  }

  // ----------------------------------------------------------------- coverage

  predicate In(x: Block, u: nat) {
    x.addr <= u < x.addr + x.size
  }

  /** Unit u is in one of the blocks. */
  ghost predicate Covers(bs: seq<Block>, u: nat) {
    exists y :: y in bs && In(y, u)
  }

  lemma CoversConcat(a: seq<Block>, b: seq<Block>, u: nat)
    ensures Covers(a + b, u) <==> Covers(a, u) || Covers(b, u)
  {
    if Covers(a, u) {
      var y :| y in a && In(y, u);
      assert y in a + b;
    }
    if Covers(b, u) {
      var y :| y in b && In(y, u);
      assert y in a + b;
    }
  }

  lemma CoversOne(x: Block, u: nat)
    ensures Covers([x], u) <==> In(x, u)
  {
    assert x in [x];
  }

  lemma CoversAround(a: seq<Block>, x: Block, b: seq<Block>, u: nat)
    ensures Covers(a + [x] + b, u) <==> Covers(a, u) || In(x, u) || Covers(b, u)
  {
    hide Covers;
    CoversConcat(a + [x], b, u);
    CoversConcat(a, [x], u);
    CoversOne(x, u);
  }

  /** free() adds the units of x to the list, and no others. */
  lemma PlaceCovers(a: seq<Block>, p: Block, x: Block, b: seq<Block>, u: nat)
    requires p.addr < x.addr
    ensures Covers(Joined(Place(a, p, x, b)), u) <==> Covers(a + [p] + b, u) || In(x, u)
  {
    hide Covers;
    var f := Place(a, p, x, b);
    CoversAround(f.a, f.x, f.b, u);
    CoversAround(a, p, b, u);
    CoversConcat(a, [p], u);
    CoversOne(p, u);
    if b != [] {
      assert b == [b[0]] + b[1..];
      CoversConcat([b[0]], b[1..], u);
      CoversOne(b[0], u);
    }
  }

  /** A free block is one that was free before, or holds what was freed. */
  lemma PlaceMembers(a: seq<Block>, p: Block, x: Block, b: seq<Block>, y: Block)
    requires p.addr < x.addr && y in Joined(Place(a, p, x, b))
    ensures y in a + [p] + b || (y.addr <= x.addr && x.addr + x.size <= y.addr + y.size)
  {
    var f := Place(a, p, x, b);
    Members(f.a, f.x, f.b);
    if y != f.x {
      assert y in f.a ==> y in a + [p];
      assert y in f.b ==> y in b;
    }
  }

  /** What was freed is inside one free block. */
  lemma PlaceHolds(a: seq<Block>, p: Block, x: Block, b: seq<Block>)
    requires p.addr < x.addr
    ensures exists y :: y in Joined(Place(a, p, x, b)) && y.size >= x.size
  {
    var f := Place(a, p, x, b);
    Members(f.a, f.x, f.b);
    assert f.x in Joined(f);
  }
}
