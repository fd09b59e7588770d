/** The buffer cache of kernel/bio.c: NBUF buffers on a doubly linked ring kept
    in order of last release, with reference counts.

    Buffers live in a static array, so a `struct buf *` is an index; the list head
    is the index one past the last buffer. The ghost fields say what clients may
    rely on: `view[b]` is what bread() returns for block b, `refs[b]` its reference
    count, and `history` records the disk after every block write. */
module BufferCache {
  import opened DiskLog
  import opened Basics

  const ROOTDEV := 1

  datatype Buf = Buf(valid: bool, dev: int, blockno: int, refcnt: nat, data: Block)

  /** Buffer i caches block b of the root device. */
  predicate Caches(bufs: seq<Buf>, i: int, b: int)
    requires 0 <= i < |bufs|
  {
    bufs[i].dev == ROOTDEV && bufs[i].blockno == b
  }

  // ------------------------------------------------------------------ ring

  /** The k-th element of the circular list; positions -1 and |ring| are the head. */
  function At(n: nat, ring: seq<nat>, k: int): nat {
    if 0 <= k < |ring| then ring[k] else n
  }

  ghost predicate Linked(n: nat, next: seq<nat>, prev: seq<nat>, ring: seq<nat>) {
    && |next| == |prev| == n + 1
    && (forall k :: 0 <= k < |ring| ==> ring[k] < n)
    && next[n] == At(n, ring, 0) && prev[n] == At(n, ring, |ring| - 1)
    && (forall k {:trigger next[ring[k]]} :: 0 <= k < |ring| ==> next[ring[k]] == At(n, ring, k + 1))
    && (forall k {:trigger prev[ring[k]]} :: 0 <= k < |ring| ==> prev[ring[k]] == At(n, ring, k - 1))
  }

  /** One ring holding every one of the n buffers once. */
  ghost predicate IsRing(n: nat, next: seq<nat>, prev: seq<nat>, ring: seq<nat>) {
    && Linked(n, next, prev, ring)
    && Distinct(ring)
    && |ring| == n
    && forall b :: 0 <= b < n ==> b in ring
  }

  function Position(ring: seq<nat>, b: nat): (k: nat)
    requires b in ring
    ensures k < |ring| && ring[k] == b
  {
    if ring[0] == b then 0 else 1 + Position(ring[1..], b)
  }

  function Without<T>(s: seq<T>, k: nat): (r: seq<T>)
    requires k < |s|
    ensures |r| == |s| - 1
    ensures forall i :: 0 <= i < |r| ==> r[i] == s[if i < k then i else i + 1]
  {
    s[..k] + s[k + 1..]
  }

  function ToFront(ring: seq<nat>, k: nat): (r: seq<nat>)
    requires k < |ring|
  {
    [ring[k]] + Without(ring, k)
  }

  lemma AtWithout(n: nat, ring: seq<nat>, k: nat, i: int)
    requires k < |ring| && -1 <= i < |ring|
    ensures At(n, Without(ring, k), i) == At(n, ring, if i < k then i else i + 1)
  {
  }

  lemma AtFront(n: nat, ring: seq<nat>, b: nat, k: int)
    requires -1 <= k <= |ring| + 1
    ensures At(n, [b] + ring, k) == if k == 0 then b else At(n, ring, k - 1)
  {
  }

  lemma UnlinkNext(n: nat, next: seq<nat>, prev: seq<nat>, ring: seq<nat>, k: nat, i: nat)
    requires Linked(n, next, prev, ring) && Distinct(ring) && k < |ring| && i < |ring| - 1
    ensures var b, rest := ring[k], Without(ring, k);
      && prev[b] <= n
      && next[prev[b] := next[b]][rest[i]] == At(n, rest, i + 1)
  {
    var b, rest := ring[k], Without(ring, k);
    var j := if i < k then i else i + 1;
    assert prev[b] == At(n, ring, k - 1);
    assert next[b] == At(n, ring, k + 1);
    assert next[ring[j]] == At(n, ring, j + 1);
    AtWithout(n, ring, k, i + 1);
  }

  lemma UnlinkPrev(n: nat, next: seq<nat>, prev: seq<nat>, ring: seq<nat>, k: nat, i: nat)
    requires Linked(n, next, prev, ring) && Distinct(ring) && k < |ring| && i < |ring| - 1
    ensures var b, rest := ring[k], Without(ring, k);
      && next[b] <= n
      && prev[next[b] := prev[b]][rest[i]] == At(n, rest, i - 1)
  {
    var b, rest := ring[k], Without(ring, k);
    var j := if i < k then i else i + 1;
    assert prev[b] == At(n, ring, k - 1);
    assert next[b] == At(n, ring, k + 1);
    assert prev[ring[j]] == At(n, ring, j - 1);
    AtWithout(n, ring, k, i - 1);
  }

  lemma UnlinkHead(n: nat, next: seq<nat>, prev: seq<nat>, ring: seq<nat>, k: nat)
    requires Linked(n, next, prev, ring) && Distinct(ring) && k < |ring|
    ensures var b, rest := ring[k], Without(ring, k);
      && next[b] <= n && prev[b] <= n
      && next[prev[b] := next[b]][n] == At(n, rest, 0)
      && prev[next[b] := prev[b]][n] == At(n, rest, |rest| - 1)
  {
    var b, rest := ring[k], Without(ring, k);
    assert next[b] == At(n, ring, k + 1) && prev[b] == At(n, ring, k - 1);
    AtWithout(n, ring, k, 0);
    AtWithout(n, ring, k, |rest| - 1);
  }

  /** Unlinking the k-th element leaves the list of the others. */
  lemma Unlink(n: nat, next: seq<nat>, prev: seq<nat>, ring: seq<nat>, k: nat)
    requires Linked(n, next, prev, ring) && Distinct(ring) && k < |ring|
    ensures var b := ring[k];
      && next[b] <= n && prev[b] <= n
      && Linked(n, next[prev[b] := next[b]], prev[next[b] := prev[b]], Without(ring, k))
  {
    hide At;
    UnlinkHead(n, next, prev, ring, k);
    var b, rest := ring[k], Without(ring, k);
    var next', prev' := next[prev[b] := next[b]], prev[next[b] := prev[b]];
    forall i | 0 <= i < |rest|
      ensures next'[rest[i]] == At(n, rest, i + 1)
      ensures prev'[rest[i]] == At(n, rest, i - 1)
    {
      UnlinkNext(n, next, prev, ring, k, i);
      UnlinkPrev(n, next, prev, ring, k, i);
    }
  }

  lemma PushFrontAt(n: nat, next: seq<nat>, prev: seq<nat>, ring: seq<nat>, b: nat, i: nat)
    requires Linked(n, next, prev, ring) && Distinct(ring) && b < n && b !in ring
    requires i <= |ring|
    ensures next[n] == At(n, ring, 0)
    ensures next[b := next[n]][n := b][([b] + ring)[i]] == At(n, [b] + ring, i + 1)
    ensures prev[b := n][next[n] := b][([b] + ring)[i]] == At(n, [b] + ring, i - 1)
  {
    AtFront(n, ring, b, i + 1);
    AtFront(n, ring, b, i - 1);
    if i > 0 {
      assert next[ring[i - 1]] == At(n, ring, i);
      assert prev[ring[i - 1]] == At(n, ring, i - 2);
    }
  }

  lemma PushFrontHead(n: nat, next: seq<nat>, prev: seq<nat>, ring: seq<nat>, b: nat)
    requires Linked(n, next, prev, ring) && Distinct(ring) && b < n && b !in ring
    ensures next[n] == At(n, ring, 0) <= n
    ensures next[b := next[n]][n := b][n] == At(n, [b] + ring, 0)
    ensures prev[b := n][next[n] := b][n] == At(n, [b] + ring, |ring|)
  {
    AtFront(n, ring, b, |ring|);
  }

  /** Linking b in after the head puts it in front. */
  lemma PushFront(n: nat, next: seq<nat>, prev: seq<nat>, ring: seq<nat>, b: nat)
    requires Linked(n, next, prev, ring) && Distinct(ring) && b < n && b !in ring
    ensures next[n] <= n
    ensures var first := next[n];
      Linked(n, next[b := first][n := b], prev[b := n][first := b], [b] + ring)
  {
    PushFrontHead(n, next, prev, ring, b);
    hide At;
    var first := next[n];
    var next', prev', ring' := next[b := first][n := b], prev[b := n][first := b], [b] + ring;
    forall i | 0 <= i < |ring'|
      ensures next'[ring'[i]] == At(n, ring', i + 1)
      ensures prev'[ring'[i]] == At(n, ring', i - 1)
    {
      PushFrontAt(n, next, prev, ring, b, i);
    }
  }

  /** Moving the k-th buffer to the front keeps the ring whole. */
  lemma MoveToFront(n: nat, next: seq<nat>, prev: seq<nat>, ring: seq<nat>, k: nat)
    requires IsRing(n, next, prev, ring) && k < |ring|
    ensures var b := ring[k];
      && next[b] <= n && prev[b] <= n
      && var next1, prev1 := next[prev[b] := next[b]], prev[next[b] := prev[b]];
      && var first := next1[n];
      && first <= n
      && IsRing(n, next1[b := first][n := b], prev1[b := n][first := b], ToFront(ring, k))
  {
    var b, rest := ring[k], Without(ring, k);
    Unlink(n, next, prev, ring, k);
    hide At, Linked;
    assert Distinct(rest) && b !in rest;
    PushFront(n, next[prev[b] := next[b]], prev[next[b] := prev[b]], rest, b);
    forall c | 0 <= c < n
      ensures c in ToFront(ring, k)
    {
      var i := Position(ring, c);
      if i != k {
        assert rest[if i < k then i else i - 1] == c;
      }
    }
  }

  // -------------------------------------------------------------- contents

  ghost predicate IsCached(bufs: seq<Buf>, b: int) {
    exists i :: 0 <= i < |bufs| && Caches(bufs, i, b)
  }

  /** `view` and `refs` describe the buffers: no two hold the same block, and an
      unreferenced block reads as it is on disk. Buffers start zeroed, so before
      their first use they all claim block 0 of device 0. */
  ghost predicate Consistent(bufs: seq<Buf>, disk: Disk, view: seq<Block>, refs: seq<nat>) {
    && |view| == |refs| == |disk|
    && (forall i :: 0 <= i < |bufs| ==>
          if bufs[i].dev == ROOTDEV then
            && 0 <= bufs[i].blockno < |disk|
            && refs[bufs[i].blockno] == bufs[i].refcnt
            && view[bufs[i].blockno] == (if bufs[i].valid then bufs[i].data else disk[bufs[i].blockno])
          else bufs[i].dev == 0 && bufs[i].refcnt == 0)
    && (forall i, j :: 0 <= i < j < |bufs| && bufs[i].dev == ROOTDEV == bufs[j].dev ==>
          bufs[i].blockno != bufs[j].blockno)
    && (forall b :: 0 <= b < |disk| && refs[b] == 0 ==> view[b] == disk[b])
    && (forall b :: 0 <= b < |disk| && refs[b] > 0 ==> IsCached(bufs, b))
  }

  /** The blocks that someone holds or has pinned. */
  ghost function Referenced(refs: seq<nat>): set<int> {
    set b | 0 <= b < |refs| && refs[b] > 0
  }

  ghost function Held(bufs: seq<Buf>, k: nat): set<int>
    requires k <= |bufs|
  {
    if k == 0 then {} else Held(bufs, k - 1) + {bufs[k - 1].blockno}
  }

  lemma {:induction false} HeldSize(bufs: seq<Buf>, k: nat)
    requires k <= |bufs|
    requires forall i, j :: 0 <= i < j < k ==> bufs[i].blockno != bufs[j].blockno
    ensures |Held(bufs, k)| == k
    ensures forall b :: b in Held(bufs, k) ==> exists i :: 0 <= i < k && bufs[i].blockno == b
  {
    if k > 0 {
      HeldSize(bufs, k - 1);
    }
  }

  /** When every buffer is in use, that many blocks are referenced. */
  lemma AllBusy(bufs: seq<Buf>, disk: Disk, view: seq<Block>, refs: seq<nat>)
    requires Consistent(bufs, disk, view, refs)
    requires forall i :: 0 <= i < |bufs| ==> bufs[i].refcnt > 0
    ensures |Referenced(refs)| >= |bufs|
  {
    assert forall i :: 0 <= i < |bufs| ==> bufs[i].dev == ROOTDEV;
    HeldSize(bufs, |bufs|);
    SubsetSize(Held(bufs, |bufs|), Referenced(refs));
  }

  /** Changing buffer i to hold block b: what must hold for consistency. */
  lemma Updated(bufs: seq<Buf>, disk: Disk, view: seq<Block>, refs: seq<nat>, i: nat, buf: Buf,
                view': seq<Block>, refs': seq<nat>)
    requires Consistent(bufs, disk, view, refs) && i < |bufs|
    requires buf.dev == ROOTDEV && 0 <= buf.blockno < |disk|
    requires Caches(bufs, i, buf.blockno) || (!IsCached(bufs, buf.blockno) && bufs[i].refcnt == 0)
    requires view' == view[buf.blockno := if buf.valid then buf.data else disk[buf.blockno]]
    requires refs' == refs[buf.blockno := buf.refcnt]
    requires buf.refcnt == 0 ==> view'[buf.blockno] == disk[buf.blockno]
    ensures Consistent(bufs[i := buf], disk, view', refs')
  {
    var bufs' := bufs[i := buf];
    forall j | 0 <= j < |bufs| && j != i && bufs[j].dev == ROOTDEV
      ensures bufs[j].blockno != buf.blockno
    {
      assert Caches(bufs, j, bufs[j].blockno);
    }
    forall b | 0 <= b < |disk| && refs'[b] > 0
      ensures IsCached(bufs', b)
    {
      if b == buf.blockno {
        assert Caches(bufs', i, b);
      } else {
        var j :| 0 <= j < |bufs| && Caches(bufs, j, b);
        assert j != i;
        assert Caches(bufs', j, b);
      }
    }
  }

  /** Taking or dropping a reference to the block in buffer i. */
  lemma Recounted(bufs: seq<Buf>, disk: Disk, view: seq<Block>, refs: seq<nat>, i: nat, count: nat)
    requires Consistent(bufs, disk, view, refs) && i < |bufs| && bufs[i].dev == ROOTDEV
    ensures 0 <= bufs[i].blockno < |disk| && refs[bufs[i].blockno] == bufs[i].refcnt
    ensures count > 0 || view[bufs[i].blockno] == disk[bufs[i].blockno] ==>
      Consistent(bufs[i := bufs[i].(refcnt := count)], disk, view, refs[bufs[i].blockno := count])
  {
    var buf := bufs[i].(refcnt := count);
    assert Caches(bufs, i, buf.blockno);
    assert view == view[buf.blockno := if buf.valid then buf.data else disk[buf.blockno]];
    if count > 0 || view[buf.blockno] == disk[buf.blockno] {
      Updated(bufs, disk, view, refs, i, buf, view, refs[buf.blockno := count]);
    }
  }

  /** Every buffer further down the ring than c is referenced. */
  ghost predicate IsLeastRecent(bufs: seq<Buf>, ring: seq<nat>, c: int) {
    exists k :: 0 <= k < |ring| && ring[k] == c &&
      forall j :: k < j < |ring| && ring[j] < |bufs| ==> bufs[ring[j]].refcnt > 0
  }

  /** What bget() does: r is the buffer it returns, -1 if it panics. */
  ghost predicate Got(ring: seq<nat>, bufs: seq<Buf>, refs: seq<nat>, bufs': seq<Buf>, refs': seq<nat>, b: int, r: int)
  {
    && |bufs'| == |bufs| && -1 <= r < |bufs|
    && (r == -1 ==>
          && bufs' == bufs && refs' == refs
          && !IsCached(bufs, b) && forall i :: 0 <= i < |bufs| ==> bufs[i].refcnt > 0)
    && (r >= 0 ==>
          && 0 <= b < |refs| && refs' == refs[b := refs[b] + 1]
          && if IsCached(bufs, b)
             then Caches(bufs, r, b) && bufs' == bufs[r := bufs[r].(refcnt := bufs[r].refcnt + 1)]
             else (&& bufs[r].refcnt == 0 && IsLeastRecent(bufs, ring, r)
                   && bufs' == bufs[r := Buf(false, ROOTDEV, b, 1, bufs[r].data)]))
  }

  lemma Hit(ring: seq<nat>, bufs: seq<Buf>, disk: Disk, view: seq<Block>, refs: seq<nat>, r: nat, b: int)
    requires Consistent(bufs, disk, view, refs) && r < |bufs| && Caches(bufs, r, b)
    ensures 0 <= b < |refs|
    ensures var bufs' := bufs[r := bufs[r].(refcnt := bufs[r].refcnt + 1)];
      var refs' := refs[b := bufs[r].refcnt + 1];
      Consistent(bufs', disk, view, refs') && Got(ring, bufs, refs, bufs', refs', b, r)
  {
    Recounted(bufs, disk, view, refs, r, bufs[r].refcnt + 1);
    assert IsCached(bufs, b);
  }

  /** Giving an unreferenced buffer to block b, which no buffer holds. */
  lemma Miss(ring: seq<nat>, bufs: seq<Buf>, disk: Disk, view: seq<Block>, refs: seq<nat>, r: nat, b: int)
    requires Consistent(bufs, disk, view, refs) && r < |bufs| && bufs[r].refcnt == 0
    requires 0 <= b < |disk| && !IsCached(bufs, b) && IsLeastRecent(bufs, ring, r)
    ensures |refs| == |disk|
    ensures var bufs' := bufs[r := Buf(false, ROOTDEV, b, 1, bufs[r].data)];
      Consistent(bufs', disk, view, refs[b := 1]) && Got(ring, bufs, refs, bufs', refs[b := 1], b, r)
  {
    assert refs[b] == 0 && view == view[b := disk[b]];
    Updated(bufs, disk, view, refs, r, Buf(false, ROOTDEV, b, 1, bufs[r].data), view, refs[b := 1]);
  }

  lemma Full(ring: seq<nat>, bufs: seq<Buf>, refs: seq<nat>, b: int)
    requires !IsCached(bufs, b) && forall i :: 0 <= i < |bufs| ==> bufs[i].refcnt > 0
    ensures Got(ring, bufs, refs, bufs, refs, b, -1)
  {
  }

  class Cache {
    var disk: Disk
    var bufs: seq<Buf>
    var next: seq<nat>
    var prev: seq<nat>
    ghost var ring: seq<nat>
    ghost var view: seq<Block>
    ghost var refs: seq<nat>
    ghost var history: seq<Disk>

    ghost predicate Valid()
      reads this
    {
      && |view| == |refs| == |disk|
      && IsRing(|bufs|, next, prev, ring)
      && Consistent(bufs, disk, view, refs)
    }

    /** binit(), on a machine whose disk holds `d`. */
    constructor (nbuf: nat, d: Disk)
      ensures Valid()
      ensures |bufs| == nbuf && disk == d && view == d && history == []
      ensures forall b :: 0 <= b < |refs| ==> refs[b] == 0
    {
      disk, view, refs := d, d, seq(|d|, i => 0);
      bufs := seq(nbuf, i => Buf(false, 0, 0, 0, []));
      history := [];
      var nx: seq<nat>, pv: seq<nat> := seq(nbuf + 1, i => nbuf), seq(nbuf + 1, i => nbuf);
      ghost var r: seq<nat> := [];
      var b := 0;
      while b < nbuf
        invariant 0 <= b <= nbuf
        invariant |nx| == |pv| == nbuf + 1
        invariant Linked(nbuf, nx, pv, r) && Distinct(r) && |r| == b
        invariant forall c :: 0 <= c < nbuf ==> (c in r <==> c < b)
      {
        PushFront(nbuf, nx, pv, r, b);
        var first := nx[nbuf];
        nx := nx[b := first][nbuf := b];
        pv := pv[b := nbuf][first := b];
        r := [b] + r;
        b := b + 1;
      }
      next, prev, ring := nx, pv, r;
    }

    /** bget()'s first loop: look for block b along the ring. */
    method FindCached(b: int) returns (c: int)
      requires Valid()
      ensures -1 <= c < |bufs|
      ensures c >= 0 ==> Caches(bufs, c, b)
      ensures c == -1 ==> !IsCached(bufs, b)
    {
      var head := |bufs|;
      c := next[head];
      ghost var k: int := 0;
      while c != head
        invariant 0 <= k <= |ring| && c == At(head, ring, k)
        invariant forall j :: 0 <= j < k ==> !Caches(bufs, ring[j], b)
        decreases |ring| - k
      {
        if bufs[c].dev == ROOTDEV && bufs[c].blockno == b {
          return;
        }
        assert next[ring[k]] == At(head, ring, k + 1);
        c := next[c];
        k := k + 1;
      }
      forall i | 0 <= i < |bufs| ensures !Caches(bufs, i, b) {
        var j := Position(ring, i);
      }
      c := -1;
    }

    /** bget()'s second loop: the last buffer of the ring that nobody references. */
    method FindUnused() returns (c: int)
      requires Valid()
      ensures -1 <= c < |bufs|
      ensures c == -1 ==> forall i :: 0 <= i < |bufs| ==> bufs[i].refcnt > 0
      ensures c >= 0 ==> bufs[c].refcnt == 0 && IsLeastRecent(bufs, ring, c)
    {
      var head := |bufs|;
      c := prev[head];
      ghost var k: int := |ring| - 1;
      while c != head
        invariant -1 <= k < |ring| && c == At(head, ring, k)
        invariant forall j :: k < j < |ring| ==> bufs[ring[j]].refcnt > 0
        decreases k
      {
        if bufs[c].refcnt == 0 {
          return;
        }
        assert prev[ring[k]] == At(head, ring, k - 1);
        c := prev[c];
        k := k - 1;
      }
      forall i | 0 <= i < |bufs| ensures bufs[i].refcnt > 0 {
        var j := Position(ring, i);
      }
      c := -1;
    }

    /** bget(): the buffer that already holds block b, or else the least recently
        released buffer that nobody references; -1 stands for the panic. */
    method Bget(b: int) returns (r: int)
      requires Valid() && 0 <= b < |disk|
      modifies this`bufs, this`refs
      ensures Valid() && Got(ring, old(bufs), old(refs), bufs, refs, b, r)
    {
      hide Consistent, IsRing, IsCached, Got, IsLeastRecent;
      r := FindCached(b);
      if r >= 0 {
        Hit(ring, bufs, disk, view, refs, r, b);
        refs := refs[b := bufs[r].refcnt + 1];
        bufs := bufs[r := bufs[r].(refcnt := bufs[r].refcnt + 1)];
      } else {
        r := FindUnused();
        if r >= 0 {
          Miss(ring, bufs, disk, view, refs, r, b);
          bufs := bufs[r := Buf(false, ROOTDEV, b, 1, bufs[r].data)];
          refs := refs[b := 1];
        } else {
          Full(ring, bufs, refs, b);
        }
      }
    }

    /** bread(): a referenced buffer holding the current contents of block b. No
        other block's contents or reference count change. */
    method Bread(b: int) returns (r: int)
      requires Valid() && 0 <= b < |disk|
      modifies this`bufs, this`refs
      ensures Valid() && |bufs| == |old(bufs)| && -1 <= r < |bufs|
      ensures r == -1 ==> refs == old(refs) && |Referenced(refs)| >= |bufs|
      ensures old(refs)[b] > 0 ==> r != -1
      ensures r >= 0 ==>
        && refs == old(refs)[b := old(refs)[b] + 1]
        && Caches(bufs, r, b) && bufs[r].valid && bufs[r].data == view[b] && bufs[r].refcnt == refs[b]
      ensures forall i :: 0 <= i < |bufs| && old(bufs)[i].refcnt > 0 ==>
        if i == r then Caches(old(bufs), i, b) else bufs[i] == old(bufs)[i]
    {
      r := Bget(b);
      if r == -1 {
        AllBusy(bufs, disk, view, refs);
      }
      if r >= 0 && !bufs[r].valid {
        var buf := bufs[r].(valid := true, data := disk[b]);
        assert Caches(bufs, r, b) && view == view[b := disk[b]] && refs == refs[b := buf.refcnt];
        Updated(bufs, disk, view, refs, r, buf, view, refs);
        bufs := bufs[r := buf];
      }
    }

    /** The holder of buffer i overwrites its data (memmove, memset). */
    method Store(i: nat, data: Block)
      requires Valid() && i < |bufs| && bufs[i].dev == ROOTDEV && bufs[i].valid && bufs[i].refcnt > 0
      modifies this`bufs, this`view
      ensures Valid() && bufs == old(bufs)[i := old(bufs)[i].(data := data)]
      ensures view == old(view)[bufs[i].blockno := data]
    {
      var buf := bufs[i].(data := data);
      assert Caches(bufs, i, buf.blockno) && refs == refs[buf.blockno := buf.refcnt];
      Updated(bufs, disk, view, refs, i, buf, view[buf.blockno := data], refs);
      bufs := bufs[i := buf];
      view := view[buf.blockno := data];
    }

    /** bwrite(): one block write, recorded in the history. */
    method Bwrite(i: nat)
      requires Valid() && i < |bufs| && bufs[i].dev == ROOTDEV && bufs[i].valid && bufs[i].refcnt > 0
      modifies this`disk, this`history
      ensures Valid() && disk == old(disk)[bufs[i].blockno := bufs[i].data]
      ensures history == old(history) + [disk]
    {
      disk := disk[bufs[i].blockno := bufs[i].data];
      history := history + [disk];
      forall b | 0 <= b < |disk| && refs[b] > 0
        ensures IsCached(bufs, b)
      {
      }
    }

    /** brelse(): the last release moves the buffer to the front of the ring. A
        buffer released for the last time must agree with the disk. */
    method Brelse(i: nat)
      requires Valid() && i < |bufs| && bufs[i].dev == ROOTDEV && bufs[i].refcnt > 0
      requires bufs[i].refcnt == 1 ==> view[bufs[i].blockno] == disk[bufs[i].blockno]
      modifies this`bufs, this`refs, this`next, this`prev, this`ring
      ensures Valid() && bufs == old(bufs)[i := old(bufs)[i].(refcnt := old(bufs)[i].refcnt - 1)]
      ensures refs == old(refs)[bufs[i].blockno := bufs[i].refcnt]
      ensures if bufs[i].refcnt == 0
              then exists k :: 0 <= k < |old(ring)| && old(ring)[k] == i && ring == [i] + old(ring)[..k] + old(ring)[k + 1..]
              else ring == old(ring)
    {
      Recounted(bufs, disk, view, refs, i, bufs[i].refcnt - 1);
      hide IsRing, Consistent;
      bufs := bufs[i := bufs[i].(refcnt := bufs[i].refcnt - 1)];
      refs := refs[bufs[i].blockno := bufs[i].refcnt];
      if bufs[i].refcnt == 0 {
        MakeMostRecent(i);
      }
    }

    /** Unlink buffer i and link it in after the head. */
    method MakeMostRecent(i: nat)
      requires IsRing(|bufs|, next, prev, ring) && i < |bufs|
      modifies this`next, this`prev, this`ring
      ensures IsRing(|bufs|, next, prev, ring)
      ensures exists k :: 0 <= k < |old(ring)| && old(ring)[k] == i && ring == [i] + old(ring)[..k] + old(ring)[k + 1..]
    {
      ghost var k := Position(ring, i);
      MoveToFront(|bufs|, next, prev, ring, k);
      var head := |bufs|;
      assert prev[i] != i && next[i] != i;
      prev := prev[next[i] := prev[i]];
      next := next[prev[i] := next[i]];
      next := next[i := next[head]];
      prev := prev[i := head];
      prev := prev[next[head] := i];
      next := next[head := i];
      ring := ToFront(ring, k);
      assert ring == [i] + old(ring)[..k] + old(ring)[k + 1..];
    }

    method Bpin(i: nat)
      requires Valid() && i < |bufs| && bufs[i].dev == ROOTDEV && bufs[i].refcnt > 0
      modifies this`bufs, this`refs
      ensures Valid() && bufs == old(bufs)[i := old(bufs)[i].(refcnt := old(bufs)[i].refcnt + 1)]
      ensures refs == old(refs)[bufs[i].blockno := bufs[i].refcnt]
    {
      Recounted(bufs, disk, view, refs, i, bufs[i].refcnt + 1);
      hide IsRing, Consistent;
      bufs := bufs[i := bufs[i].(refcnt := bufs[i].refcnt + 1)];
      refs := refs[bufs[i].blockno := bufs[i].refcnt];
    }

    method Bunpin(i: nat)
      requires Valid() && i < |bufs| && bufs[i].dev == ROOTDEV && bufs[i].refcnt > 1
      modifies this`bufs, this`refs
      ensures Valid() && bufs == old(bufs)[i := old(bufs)[i].(refcnt := old(bufs)[i].refcnt - 1)]
      ensures refs == old(refs)[bufs[i].blockno := bufs[i].refcnt]
    {
      Recounted(bufs, disk, view, refs, i, bufs[i].refcnt - 1);
      hide IsRing, Consistent;
      bufs := bufs[i := bufs[i].(refcnt := bufs[i].refcnt - 1)];
      refs := refs[bufs[i].blockno := bufs[i].refcnt];
    }
  }
}
