/** kernel/pipe.c. Each method is a section that runs under pi->lock; readers and
    writers take turns in any order, so what every method keeps holds over every
    interleaving. */
module Pipe {

  const PIPESIZE := 512
  const WRAP := 0x1_0000_0000

  /** A byte; the values do not matter here. */
  type Byte = nat

  /** How a turn ends: with a result, with -1, or asleep. */
  datatype Outcome = Returns | Fails | Sleeps

  /** The bytes in the ring are those put in and not yet taken out, and the 32-bit
      counters count both modulo 2^32. */
  ghost predicate RingOk(data: seq<Byte>, nread: nat, nwrite: nat, put: seq<Byte>, got: seq<Byte>) {
    && |data| == PIPESIZE
    && got <= put && |put| <= |got| + PIPESIZE
    && nread == |got| % WRAP && nwrite == |put| % WRAP
    && forall k :: |got| <= k < |put| ==> data[k % PIPESIZE] == put[k]
  }

  lemma FullIff(nread: nat, nwrite: nat, put: nat, got: nat)
    requires got <= put <= got + PIPESIZE && nread == got % WRAP && nwrite == put % WRAP
    ensures nwrite == (nread + PIPESIZE) % WRAP <==> put == got + PIPESIZE
    ensures nwrite == nread <==> put == got
  {
  }

  lemma SlotOf(n: nat)
    ensures n % WRAP % PIPESIZE == n % PIPESIZE && (n % WRAP + 1) % WRAP == (n + 1) % WRAP
  {
  }

  /** The slot written is not one that waits to be read. */
  lemma PutOk(data: seq<Byte>, nread: nat, nwrite: nat, put: seq<Byte>, got: seq<Byte>, ch: Byte)
    requires RingOk(data, nread, nwrite, put, got) && |put| < |got| + PIPESIZE
    ensures RingOk(data[nwrite % PIPESIZE := ch], nread, (nwrite + 1) % WRAP, put + [ch], got)
  {
    SlotOf(|put|);
    var data', put' := data[nwrite % PIPESIZE := ch], put + [ch];
    forall k | |got| <= k < |put'|
      ensures data'[k % PIPESIZE] == put'[k]
    {
      if k < |put| {
        Apart(k, |put|);
      }
    }
  }

  lemma Apart(j: nat, k: nat)
    requires j < k < j + PIPESIZE
    ensures j % PIPESIZE != k % PIPESIZE
  {
  }

  lemma GetOk(data: seq<Byte>, nread: nat, nwrite: nat, put: seq<Byte>, got: seq<Byte>)
    requires RingOk(data, nread, nwrite, put, got) && |got| < |put|
    ensures data[nread % PIPESIZE] == put[|got|]
    ensures RingOk(data, (nread + 1) % WRAP, nwrite, put, got + [put[|got|]])
  {
    SlotOf(|got|);
  }

  class Ring {
    var data: seq<Byte>
    var nread: nat
    var nwrite: nat
    var readopen: bool
    var writeopen: bool
    /** All bytes ever put in and taken out, and how often the page was freed. */
    ghost var put: seq<Byte>
    ghost var got: seq<Byte>
    ghost var frees: nat

    ghost predicate Valid()
      reads this
    {
      && RingOk(data, nread, nwrite, put, got)
      && frees == if readopen || writeopen then 0 else 1
    }

    ghost function Room(): nat
      requires Valid()
      reads this
    {
      |got| + PIPESIZE - |put|
    }

    /** pipealloc() */
    constructor ()
      ensures Valid() && put == [] && got == [] && readopen && writeopen && frees == 0
    {
      data := seq(PIPESIZE, i => 0);
      nread, nwrite := 0, 0;
      readopen, writeopen := true, true;
      put, got, frees := [], [], 0;
    }

    /** pipeclose(): called once for each end. */
    method Close(writable: bool)
      requires Valid() && (if writable then writeopen else readopen)
      modifies this
      ensures Valid() && put == old(put) && got == old(got)
      ensures writeopen == (old(writeopen) && !writable) && readopen == (old(readopen) && writable)
      ensures frees == old(frees) + if readopen || writeopen then 0 else 1
    {
      if writable {
        writeopen := false;
      } else {
        readopen := false;
      }
      if !readopen && !writeopen {
        frees := frees + 1;
      }
    }

    /** A turn of pipewrite(), with the i0 bytes before src[i0] already written;
        copyin() fails at byte `fault`, and from byte `killAt` on killed() says yes. */
    method Write(src: seq<Byte>, i0: nat, killAt: nat, fault: nat) returns (o: Outcome, i: nat)
      requires Valid() && i0 <= |src| && writeopen
      modifies this
      ensures Valid() && got == old(got) && readopen == old(readopen) && writeopen
      ensures i == WriteStop(|src|, i0, readopen, killAt, fault, old(Room()))
      ensures o == WriteOutcome(|src|, i0, readopen, killAt, fault, old(Room()))
      ensures i0 <= i <= |src| && put == old(put) + src[i0..i]
      ensures o == Fails <==> i < |src| && (!readopen || killAt <= i)
      ensures o == Sleeps <==> i < |src| && readopen && i < killAt && |put| == |got| + PIPESIZE
      ensures o == Returns <==> i == |src| || (i == fault && readopen && i < killAt && |put| < |got| + PIPESIZE)
    {
      i := i0;
      ghost var put0, room := put, Room();
      while i < |src|
        invariant i0 <= i <= WriteStop(|src|, i0, readopen, killAt, fault, room) <= |src|
        invariant Valid() && got == old(got) && readopen == old(readopen) && writeopen
        invariant put == put0 + src[i0..i]
      {
        if !readopen || killAt <= i {
          return Fails, i;
        }
        FullIff(nread, nwrite, |put|, |got|);
        if nwrite == (nread + PIPESIZE) % WRAP {
          return Sleeps, i;
        }
        if i == fault {
          return Returns, i;
        }
        PutOk(data, nread, nwrite, put, got, src[i]);
        data := data[nwrite % PIPESIZE := src[i]];
        nwrite := (nwrite + 1) % WRAP;
        put := put + [src[i]];
        i := i + 1;
      }
      o := Returns;
    }

    /** A turn of piperead(): up to n bytes, unless there are none and more may come.
        When copyout() fails at byte `fault`, that byte is taken out of the ring all
        the same, and lost. */
    method Read(n: nat, killed: bool, fault: nat) returns (o: Outcome, dst: seq<Byte>)
      requires Valid() && readopen
      modifies this
      ensures Valid() && put == old(put) && writeopen == old(writeopen) && readopen && |old(got)| <= |put|
      ensures o == if old(got) != put || !writeopen then Returns else if killed then Fails else Sleeps
      ensures o != Returns ==> dst == [] && got == old(got)
      ensures o == Returns ==> (got != old(got) + dst <==> fault < n && |old(got)| + fault < |put|)
      ensures o == Returns ==>
        if fault < n && |old(got)| + fault < |put|
        then dst == put[|old(got)|..|old(got)| + fault] && got == put[..|old(got)| + fault + 1]
        else dst == put[|old(got)|..|old(got)| + Min(n, |put| - |old(got)|)] && got == old(got) + dst
    {
      dst := [];
      FullIff(nread, nwrite, |put|, |got|);
      if nread == nwrite && writeopen {
        if killed {
          return Fails, [];
        }
        return Sleeps, [];
      }
      ghost var got0 := got;
      var i := 0;
      while i < n
        invariant 0 <= i <= n && i == |dst| && Valid() && readopen && put == old(put) && writeopen == old(writeopen)
        invariant got == got0 + dst && |got| <= |put| && dst == put[|got0|..|got|] && got <= put && i <= fault
      {
        FullIff(nread, nwrite, |put|, |got|);
        if nread == nwrite {
          break;
        }
        GetOk(data, nread, nwrite, put, got);
        var ch := data[nread % PIPESIZE];
        nread := (nread + 1) % WRAP;
        got := got + [put[|got|]];
        if i == fault {
          assert got == put[..|got0| + |dst| + 1];
          return Returns, dst;
        }
        dst := dst + [ch];
        i := i + 1;
      }
      o := Returns;
    }
  }

  function Min(a: int, b: int): int {
    if a < b then a else b
  }

  /** The byte at which pipewrite() finds that it is no use going on. */
  function KillPoint(i0: nat, readopen: bool, killAt: nat): nat {
    if !readopen || killAt < i0 then i0 else killAt
  }

  /** Where a turn of pipewrite() on n bytes, from i0 on, comes to an end. */
  function WriteStop(n: nat, i0: nat, readopen: bool, killAt: nat, fault: nat, room: nat): int {
    var stop := Min(Min(n, KillPoint(i0, readopen, killAt)), i0 + room);
    if i0 <= fault then Min(stop, fault) else stop
  }

  function WriteOutcome(n: nat, i0: nat, readopen: bool, killAt: nat, fault: nat, room: nat): Outcome {
    var i := WriteStop(n, i0, readopen, killAt, fault, room);
    if i == n then Returns
    else if i == KillPoint(i0, readopen, killAt) then Fails
    else if i == i0 + room then Sleeps
    else Returns
  }

  /** pipewrite() returns -1 although bytes have gone in exactly if it gets to a later
      byte than the first, and there finds the reader gone or itself killed, before
      its bytes, the room or its memory come to an end. */
  lemma FailsAfterSome(n: nat, i0: nat, readopen: bool, killAt: nat, fault: nat, room: nat)
    requires i0 <= n
    ensures WriteOutcome(n, i0, readopen, killAt, fault, room) == Fails && WriteStop(n, i0, readopen, killAt, fault, room) > 0 <==>
      var k := KillPoint(i0, readopen, killAt); 0 < k < n && k <= i0 + room && (i0 <= fault ==> k <= fault)
  {
  }

  /** Such a write: the ring fills up, and while the writer sleeps the reader closes. */
  method WriteThenClose(src: seq<Byte>) returns (o: Outcome, i: nat)
    requires |src| > PIPESIZE
    ensures o == Fails && i == PIPESIZE
  {
    var p := new Ring();
    o, i := p.Write(src, 0, |src|, |src|);
    p.Close(false);
    o, i := p.Write(src, i, |src|, |src|);
  }

  /** And a read that loses a byte: it is neither delivered nor there any more. */
  method LoseByte(b: Byte) returns (o: Outcome, dst: seq<Byte>, again: Outcome)
    ensures o == Returns && dst == [] && again == Sleeps
  {
    var p := new Ring();
    var w, i := p.Write([b], 0, 1, 1);
    assert p.put == [b];
    o, dst := p.Read(1, false, 0);
    var none;
    again, none := p.Read(1, false, 1);
  }

  lemma SlotAhead(n: nat, k: nat)
    ensures (n % WRAP + k) % PIPESIZE == (n + k) % PIPESIZE
  {
    var q := n / WRAP;
    assert n + k == PIPESIZE * (0x80_0000 * q) + (n % WRAP + k);
  }

  /** What Valid() says about the order of bytes: taken out followed by still in the
      ring is put in, and no more than PIPESIZE of them are in the ring. */
  lemma InOrder(p: Ring, ring: seq<Byte>)
    requires p.Valid() && ring == p.put[|p.got|..]
    ensures p.got + ring == p.put && |ring| <= PIPESIZE
    ensures forall k :: 0 <= k < |ring| ==> p.data[(p.nread + k) % PIPESIZE] == ring[k]
  {
    forall k | 0 <= k < |ring|
      ensures p.data[(p.nread + k) % PIPESIZE] == ring[k]
    {
      SlotAhead(|p.got|, k);
      assert p.data[(|p.got| + k) % PIPESIZE] == p.put[|p.got| + k];
    }
  }
}
