/** The virtio queue shared by kernel/virtio_disk.c and the device, as a value.

    The format of a request is that of section 5.2 of VIRTIO 1.1, the rings are
    those of section 2.6. */
module VirtioState {
  import opened Basics

  const BSIZE := 1024
  const HEADER_LEN := 16
  const WRAP := 0x1_0000

  /** What a descriptor points to: a command header, a buffer, a status byte. */
  datatype Target = Null | Op(i: nat) | Data(b: nat) | StatusOf(i: nat)

  datatype Desc = Desc(addr: Target, len: nat, write: bool, more: bool, next: nat)

  const ZERO := Desc(Null, 0, false, false, 0)

  datatype Info = Info(b: Option<nat>, status: nat)

  /** A command header: VIRTIO_BLK_T_IN or VIRTIO_BLK_T_OUT, and the first of the
      512-byte sectors. */
  datatype Command = Command(kind: nat, sector: nat)

  const T_IN := 0
  const T_OUT := 1

  /** A request: its three descriptors, its buffer and the block of the disk. */
  datatype Req = Req(head: nat, data: nat, status: nat, buf: nat, blockno: nat, write: bool)

  /** In the avail ring; with the device; in the used ring; seen by the driver. */
  datatype Phase = Posted | Flight | Used | Done

  datatype Queue = Queue(
    num: nat,
    free: seq<bool>, desc: seq<Desc>, ops: seq<Command>, info: seq<Info>, busy: set<nat>,
    availRing: seq<nat>, availIdx: nat, takenIdx: nat, usedRing: seq<nat>, usedIdx: nat, seenIdx: nat,
    taken: nat, postedQ: seq<nat>, seen: nat, usedQ: seq<nat>,
    reqs: map<nat, Req>, phase: map<nat, Phase>, own: map<nat, nat>)

  predicate Member(r: Req, i: nat) {
    i == r.head || i == r.data || i == r.status
  }

  // ------------------------------------------------------------------ counting

  function CountFree(free: seq<bool>): nat {
    if free == [] then 0 else CountFree(free[..|free| - 1]) + if free[|free| - 1] then 1 else 0
  }

  lemma {:induction false} CountSet(free: seq<bool>, i: nat, v: bool)
    requires i < |free|
    ensures CountFree(free[i := v]) + (if free[i] then 1 else 0) == CountFree(free) + if v then 1 else 0
  {
    var n := |free| - 1;
    if i == n {
      assert free[i := v][..n] == free[..n];
    } else {
      assert free[i := v][..n] == free[..n][i := v];
      CountSet(free[..n], i, v);
    }
  }

  lemma {:induction false} CountNone(free: seq<bool>)
    requires forall i :: 0 <= i < |free| ==> !free[i]
    ensures CountFree(free) == 0
  {
    if free != [] {
      CountNone(free[..|free| - 1]);
    }
  }

  lemma {:induction false} CountAll(free: seq<bool>)
    requires forall i :: 0 <= i < |free| ==> free[i]
    ensures CountFree(free) == |free|
  {
    if free != [] {
      CountAll(free[..|free| - 1]);
    }
  }

  lemma {:induction false} DistinctSize(s: seq<nat>, t: set<nat>)
    requires Distinct(s) && forall i :: 0 <= i < |s| ==> s[i] in t
    ensures |s| <= |t|
  {
    if s != [] {
      DistinctSize(s[1..], t - {s[0]});
    }
  }

  // --------------------------------------------------------------- ring indices

  /** Indices less than a round apart are different slots. */
  lemma SlotsDiffer(n: nat, a: nat, b: nat)
    requires a < b < a + n
    ensures a % n != b % n
  {
    var d := b / n - a / n;
    assert b - a == n * d + (b % n - a % n) by {
      Whole(n, a);
      Whole(n, b);
    }
    MulBound(n, d);
  }

  lemma Whole(n: nat, x: nat)
    requires n > 0
    ensures x == n * (x / n) + x % n
  {
  }

  /** A 16-bit index finds the slot of the count it stands for. */
  lemma WrapSlot(n: nat, x: nat)
    requires n > 0 && WRAP % n == 0
    ensures x % WRAP % n == x % n
  {
    var k, q, r := WRAP / n, x / WRAP, x % WRAP;
    assert WRAP == n * k;
    var q2, r2 := r / n, r % n;
    assert x == n * (k * q + q2) + r2 by {
      assert x == WRAP * q + r == n * k * q + (n * q2 + r2);
    }
    DivUnique(n, k * q + q2, r2);
  }

  /** Two counts less than 2^16 apart have the same 16-bit index only if equal. */
  lemma WrapEqual(a: nat, b: nat)
    requires a <= b < a + WRAP
    ensures a % WRAP == b % WRAP <==> a == b
  {
    if a < b {
      SlotsDiffer(WRAP, a, b);
    }
  }

  // -------------------------------------------------------------- the invariant

  ghost predicate Sized(q: Queue) {
    && q.num > 0 && WRAP % q.num == 0
    && |q.free| == |q.desc| == |q.ops| == |q.info| == |q.availRing| == |q.usedRing| == q.num
  }

  /** Free descriptors are blank, the others are owned. */
  ghost predicate FreeOk(q: Queue)
    requires Sized(q)
  {
    && (forall i :: 0 <= i < q.num && q.free[i] ==> q.desc[i] == ZERO)
    && (forall i :: 0 <= i < q.num ==> (q.free[i] <==> i !in q.own))
    && (forall i :: i in q.own ==> i < q.num)
  }

  /** Each owned descriptor is in its owner's chain, and in no other. */
  ghost predicate OwnOk(q: Queue) {
    && (forall i {:trigger q.own[i]} :: i in q.own ==> q.own[i] in q.reqs && Member(q.reqs[q.own[i]], i))
    && (forall h, i {:trigger Member(q.reqs[h], i)} :: h in q.reqs && Member(q.reqs[h], i) ==> i in q.own && q.own[i] == h)
  }

  /** The descriptors are divided into free ones and chains of three. */
  ghost predicate Partition(q: Queue) {
    Sized(q) && FreeOk(q) && OwnOk(q) && CountFree(q.free) + 3 * |q.reqs| == q.num
  }

  /** A request is a chain of three, laid out as the device expects it. */
  ghost predicate Formatted(q: Queue, r: Req)
    requires Sized(q)
  {
    && r.head < q.num && r.data < q.num && r.status < q.num
    && r.head != r.data && r.head != r.status && r.data != r.status
    && q.ops[r.head] == Command(if r.write then T_OUT else T_IN, r.blockno * (BSIZE / 512))
    && q.desc[r.head] == Desc(Op(r.head), HEADER_LEN, false, true, r.data)
    && q.desc[r.data] == Desc(Data(r.buf), BSIZE, !r.write, true, r.status)
    && q.desc[r.status] == Desc(StatusOf(r.head), 1, true, false, 0)
  }

  ghost predicate ChainAt(q: Queue, h: nat)
    requires Sized(q) && h in q.reqs
  {
    h < q.num && q.reqs[h].head == h && Formatted(q, q.reqs[h]) && q.info[h].b == Some(q.reqs[h].buf)
  }

  /** No two requests are for the same buffer. */
  ghost predicate BufsApart(q: Queue) {
    forall g, h :: g in q.reqs && h in q.reqs && g != h ==> q.reqs[g].buf != q.reqs[h].buf
  }

  ghost predicate Chains(q: Queue) {
    Sized(q) && BufsApart(q) && forall h :: h in q.reqs ==> ChainAt(q, h)
  }

  ghost predicate Phases(q: Queue) {
    && Sized(q)
    && q.phase.Keys == q.reqs.Keys
    && Distinct(q.postedQ) && Distinct(q.usedQ)
    && (forall h :: h in q.postedQ <==> h in q.phase && q.phase[h] == Posted)
    && (forall h :: h in q.usedQ <==> h in q.phase && q.phase[h] == Used)
    && (forall h :: h in q.reqs ==> (q.reqs[h].buf in q.busy <==> q.phase[h] != Done))
    && (forall h :: h in q.reqs && h < q.num && q.phase[h] == Used ==> q.info[h].status == 0)
  }

  /** The rings hold the queues, at indices that count modulo 2^16. */
  ghost predicate Rings(q: Queue) {
    && Sized(q)
    && q.takenIdx == q.taken % WRAP && q.availIdx == (q.taken + |q.postedQ|) % WRAP
    && (forall k :: 0 <= k < |q.postedQ| ==> q.availRing[(q.taken + k) % q.num] == q.postedQ[k])
    && q.seenIdx == q.seen % WRAP && q.usedIdx == (q.seen + |q.usedQ|) % WRAP
    && (forall k :: 0 <= k < |q.usedQ| ==> q.usedRing[(q.seen + k) % q.num] == q.usedQ[k])
  }

  ghost predicate Ok(q: Queue) {
    Partition(q) && Chains(q) && Phases(q) && Rings(q)
  }

  /** There are never more than num / 3 requests, so never a full ring. */
  lemma InFlight(q: Queue)
    requires Ok(q)
    ensures |q.reqs| * 3 <= q.num && |q.postedQ| <= |q.reqs| && |q.usedQ| <= |q.reqs|
  {
    hide Chains, Rings;
    DistinctSize(q.postedQ, q.reqs.Keys);
    DistinctSize(q.usedQ, q.reqs.Keys);
    assert |q.reqs| == |q.reqs.Keys|;
  }

  // ------------------------------------------------------------------ the steps

  /** Three descriptors taken and filled in, and the head put in the avail ring. */
  function Submitted(q: Queue, r: Req): Queue
    requires Sized(q) && r.head < q.num && r.data < q.num && r.status < q.num
  {
    q.(free := q.free[r.head := false][r.data := false][r.status := false],
       desc := q.desc[r.head := Desc(Op(r.head), HEADER_LEN, false, true, r.data)]
                     [r.data := Desc(Data(r.buf), BSIZE, !r.write, true, r.status)]
                     [r.status := Desc(StatusOf(r.head), 1, true, false, 0)],
       ops := q.ops[r.head := Command(if r.write then T_OUT else T_IN, r.blockno * (BSIZE / 512))],
       info := q.info[r.head := Info(Some(r.buf), 0xff)],
       busy := q.busy + {r.buf},
       availRing := q.availRing[(q.taken + |q.postedQ|) % q.num := r.head],
       availIdx := (q.availIdx + 1) % WRAP,
       postedQ := q.postedQ + [r.head],
       reqs := q.reqs[r.head := r], phase := q.phase[r.head := Posted],
       own := q.own[r.head := r.head][r.data := r.head][r.status := r.head])
  }

  /** r can be submitted. */
  ghost predicate Fresh(q: Queue, r: Req) {
    && Sized(q) && r.head < q.num && r.data < q.num && r.status < q.num
    && r.head != r.data && r.head != r.status && r.data != r.status
    && q.free[r.head] && q.free[r.data] && q.free[r.status]
    && forall h :: h in q.reqs ==> q.reqs[h].buf != r.buf
  }

  lemma SubmittedOk(q: Queue, r: Req)
    requires Ok(q) && Fresh(q, r)
    ensures Ok(Submitted(q, r))
  {
    hide Partition, Chains, Phases, Rings;
    NewHead(q, r);
    SubmittedPartition(q, r);
    SubmittedChains(q, r);
    SubmittedPhases(q, r);
    SubmittedRings(q, r);
  }

  lemma NewHead(q: Queue, r: Req)
    requires Ok(q) && Fresh(q, r)
    ensures r.head !in q.reqs && r.head !in q.phase
  {
    hide Rings, Formatted;
    assert forall h :: h in q.reqs ==> ChainAt(q, h) && Member(q.reqs[h], h);
  }

  lemma SubmittedPartition(q: Queue, r: Req)
    requires Partition(q) && Fresh(q, r) && r.head !in q.reqs
    ensures Partition(Submitted(q, r))
  {
    hide OwnOk, FreeOk, CountFree;
    SubmittedFree(q, r);
    SubmittedOwn(q, r);
    CountSet(q.free, r.head, false);
    CountSet(q.free[r.head := false], r.data, false);
    CountSet(q.free[r.head := false][r.data := false], r.status, false);
  }

  lemma SubmittedFree(q: Queue, r: Req)
    requires Sized(q) && FreeOk(q) && Fresh(q, r)
    ensures FreeOk(Submitted(q, r))
  {
  }

  lemma SubmittedOwn(q: Queue, r: Req)
    requires Sized(q) && FreeOk(q) && OwnOk(q) && Fresh(q, r) && r.head !in q.reqs
    ensures OwnOk(Submitted(q, r))
  {
    var q' := Submitted(q, r);
    assert r.head !in q.own && r.data !in q.own && r.status !in q.own;
    forall i {:trigger q'.own[i]} | i in q'.own
      ensures q'.own[i] in q'.reqs && Member(q'.reqs[q'.own[i]], i)
    {
      if !Member(r, i) {
        assert q'.own[i] == q.own[i];
      }
    }
    forall h, i {:trigger Member(q'.reqs[h], i)} | h in q'.reqs && Member(q'.reqs[h], i)
      ensures i in q'.own && q'.own[i] == h
    {
      if h != r.head {
        assert Member(q.reqs[h], i);
      }
    }
  }

  lemma SubmittedChains(q: Queue, r: Req)
    requires Partition(q) && Chains(q) && Fresh(q, r) && r.head !in q.reqs
    ensures Chains(Submitted(q, r))
  {
    hide Formatted, OwnOk, FreeOk, ChainAt, BufsApart;
    var q' := Submitted(q, r);
    SubmittedBufs(q, r);
    NewChain(q, r);
    forall h | h in q'.reqs
      ensures ChainAt(q', h)
    {
      if h != r.head {
        OldChain(q, r, h);
      }
    }
  }

  lemma SubmittedBufs(q: Queue, r: Req)
    requires BufsApart(q) && Fresh(q, r)
    ensures BufsApart(Submitted(q, r))
  {
  }

  lemma OldChain(q: Queue, r: Req, h: nat)
    requires Partition(q) && Fresh(q, r) && h in q.reqs && ChainAt(q, h) && h != r.head
    ensures ChainAt(Submitted(q, r), h)
  {
    hide FreeOk, OwnOk;
    Owned(q, h);
  }

  lemma NewChain(q: Queue, r: Req)
    requires Fresh(q, r)
    ensures ChainAt(Submitted(q, r), r.head)
  {
  }

  lemma SubmittedPhases(q: Queue, r: Req)
    requires Phases(q) && Fresh(q, r) && r.head !in q.reqs
    ensures Phases(Submitted(q, r))
  {
  }

  lemma SubmittedRings(q: Queue, r: Req)
    requires Ok(q) && Fresh(q, r)
    ensures Rings(Submitted(q, r))
  {
    hide Partition, Chains, Phases, Rings;
    InFlight(q);
    RingAdded(q, Submitted(q, r), r.head);
  }

  /** The slot that is written is not one the device has yet to read. */
  lemma RingAdded(q: Queue, q': Queue, h: nat)
    requires Rings(q) && Sized(q') && q'.num == q.num && |q.postedQ| * 3 <= q.num
    requires q'.taken == q.taken && q'.takenIdx == q.takenIdx && q'.postedQ == q.postedQ + [h]
    requires q'.availRing == q.availRing[(q.taken + |q.postedQ|) % q.num := h] && q'.availIdx == (q.availIdx + 1) % WRAP
    requires q'.seen == q.seen && q'.seenIdx == q.seenIdx && q'.usedQ == q.usedQ && q'.usedRing == q.usedRing && q'.usedIdx == q.usedIdx
    ensures Rings(q')
  {
    var n := |q.postedQ|;
    WrapNext(q.taken + n);
    forall k | 0 <= k < |q'.postedQ|
      ensures q'.availRing[(q'.taken + k) % q'.num] == q'.postedQ[k]
    {
      if k < n {
        SlotsDiffer(q.num, q.taken + k, q.taken + n);
      }
    }
  }

  lemma WrapNext(x: nat)
    ensures (x % WRAP + 1) % WRAP == (x + 1) % WRAP
  {
  }

  /** The device takes the next entry of the avail ring. */
  function DeviceTook(q: Queue): Queue
    requires q.postedQ != []
  {
    q.(taken := q.taken + 1, takenIdx := (q.takenIdx + 1) % WRAP, postedQ := q.postedQ[1..], phase := q.phase[q.postedQ[0] := Flight])
  }

  lemma DeviceTookOk(q: Queue)
    requires Ok(q) && q.postedQ != []
    ensures Ok(DeviceTook(q)) && q.postedQ[0] in q.reqs
    ensures q.num > 0 && |q.availRing| == q.num && q.availRing[q.taken % q.num] == q.postedQ[0]
  {
    hide Chains, Partition, Phases, Rings;
    var q' := DeviceTook(q);
    TookRings(q);
    TookPhases(q);
    FirstPosted(q);
    SameChains(q, q');
    SamePartition(q, q');
  }

  lemma FirstPosted(q: Queue)
    requires Phases(q) && q.postedQ != []
    ensures q.postedQ[0] in q.reqs && Sized(q)
  {
    assert q.postedQ[0] in q.postedQ;
  }

  lemma TookRings(q: Queue)
    requires Rings(q) && q.postedQ != []
    ensures Rings(DeviceTook(q)) && q.availRing[q.taken % q.num] == q.postedQ[0]
  {
    var q' := DeviceTook(q);
    assert q.availRing[(q.taken + 0) % q.num] == q.postedQ[0];
    forall k | 0 <= k < |q'.postedQ|
      ensures q'.availRing[(q'.taken + k) % q'.num] == q'.postedQ[k]
    {
      assert q.availRing[(q.taken + (k + 1)) % q.num] == q.postedQ[k + 1];
      assert q.taken + (k + 1) == q'.taken + k;
    }
    WrapNext(q.taken);
  }

  lemma SameChains(q: Queue, q': Queue)
    requires Chains(q) && Sized(q') && q'.num == q.num && q'.reqs == q.reqs && q'.desc == q.desc && q'.ops == q.ops
    requires forall h :: h in q.reqs && h < q.num ==> q'.info[h].b == q.info[h].b
    ensures Chains(q')
  {
  }

  lemma TookPhases(q: Queue)
    requires Phases(q) && q.postedQ != []
    ensures Phases(DeviceTook(q))
  {
    var h0 := q.postedQ[0];
    assert h0 in q.postedQ;
    assert forall h :: h in q.postedQ[1..] <==> h in q.postedQ && h != h0;
  }

  /** It finishes any request it has, in any order, with success. */
  function Completed(q: Queue, h: nat): Queue
    requires Sized(q) && h < q.num
  {
    q.(usedRing := q.usedRing[(q.seen + |q.usedQ|) % q.num := h], usedIdx := (q.usedIdx + 1) % WRAP,
       usedQ := q.usedQ + [h], phase := q.phase[h := Used], info := q.info[h := q.info[h].(status := 0)])
  }

  lemma CompletedOk(q: Queue, h: nat)
    requires Ok(q) && h in q.phase && q.phase[h] == Flight
    ensures h < q.num && Ok(Completed(q, h))
  {
    hide Partition, Phases, Chains, Rings;
    HeadBelow(q, h);
    CompletedRings(q, h);
    CompletedPhases(q, h);
    SameChains(q, Completed(q, h));
    SamePartition(q, Completed(q, h));
  }

  lemma HeadBelow(q: Queue, h: nat)
    requires Ok(q) && h in q.phase
    ensures Sized(q) && h in q.reqs && h < q.num && ChainAt(q, h)
  {
    hide Partition, Rings, Formatted;
  }

  lemma SamePartition(q: Queue, q': Queue)
    requires Partition(q) && Sized(q') && q'.num == q.num && q'.free == q.free && q'.desc == q.desc && q'.own == q.own && q'.reqs == q.reqs
    ensures Partition(q')
  {
  }

  lemma CompletedRings(q: Queue, h: nat)
    requires Ok(q) && h < q.num
    ensures Rings(Completed(q, h))
  {
    hide Partition, Chains, Phases;
    InFlight(q);
    var q' := Completed(q, h);
    var n := |q.usedQ|;
    WrapNext(q.seen + n);
    forall k | 0 <= k < |q'.usedQ|
      ensures q'.usedRing[(q'.seen + k) % q'.num] == q'.usedQ[k]
    {
      if k < n {
        SlotsDiffer(q.num, q.seen + k, q.seen + n);
      }
    }
  }

  lemma CompletedPhases(q: Queue, h: nat)
    requires Phases(q) && h in q.phase && q.phase[h] == Flight && h < q.num
    ensures Phases(Completed(q, h))
  {
  }

  /** virtio_disk_intr() handles one entry of the used ring. */
  function Noticed(q: Queue): Queue
    requires q.usedQ != [] && q.usedQ[0] in q.reqs
  {
    q.(seen := q.seen + 1, seenIdx := (q.seenIdx + 1) % WRAP, usedQ := q.usedQ[1..],
       phase := q.phase[q.usedQ[0] := Done], busy := q.busy - {q.reqs[q.usedQ[0]].buf})
  }

  /** The entry names a live request that succeeded, and its buffer. */
  lemma NoticedOk(q: Queue)
    requires Ok(q) && q.usedQ != []
    ensures var h := q.usedQ[0];
      h in q.reqs && h < |q.info| && q.info[h] == Info(Some(q.reqs[h].buf), 0)
    ensures q.num > 0 && |q.usedRing| == q.num && q.usedRing[q.seen % q.num] == q.usedQ[0]
    ensures Ok(Noticed(q))
  {
    hide Partition, Rings, Phases, Chains;
    FirstUsed(q);
    var q' := Noticed(q);
    NoticedRings(q);
    NoticedPhases(q);
    SamePartition(q, q');
    SameChains(q, q');
  }

  lemma FirstUsed(q: Queue)
    requires Phases(q) && Chains(q) && q.usedQ != []
    ensures var h := q.usedQ[0]; h in q.reqs && h < |q.info| && q.info[h] == Info(Some(q.reqs[h].buf), 0)
    ensures Sized(q)
  {
    assert q.usedQ[0] in q.usedQ;
    assert ChainAt(q, q.usedQ[0]);
  }

  lemma NoticedRings(q: Queue)
    requires Rings(q) && q.usedQ != [] && q.usedQ[0] in q.reqs
    ensures Rings(Noticed(q)) && q.usedRing[q.seen % q.num] == q.usedQ[0]
  {
    var q' := Noticed(q);
    assert q.usedRing[(q.seen + 0) % q.num] == q.usedQ[0];
    forall k | 0 <= k < |q'.usedQ|
      ensures q'.usedRing[(q'.seen + k) % q'.num] == q'.usedQ[k]
    {
      assert q.usedRing[(q.seen + (k + 1)) % q.num] == q.usedQ[k + 1];
      assert q.seen + (k + 1) == q'.seen + k;
    }
    WrapNext(q.seen);
  }

  lemma NoticedPhases(q: Queue)
    requires Phases(q) && Chains(q) && q.usedQ != [] && q.usedQ[0] in q.reqs
    ensures Phases(Noticed(q))
  {
    hide Formatted;
    var h0 := q.usedQ[0];
    assert h0 in q.usedQ;
    assert forall h :: h in q.usedQ[1..] <==> h in q.usedQ && h != h0;
  }

  /** There is an entry exactly when the two 16-bit indices differ. */
  lemma AnyUsed(q: Queue)
    requires Ok(q)
    ensures q.seenIdx != q.usedIdx <==> q.usedQ != []
  {
    hide Partition, Chains, Phases;
    InFlight(q);
    NumBelow(q.num);
    WrapEqual(q.seen, q.seen + |q.usedQ|);
  }

  /** The same for the avail ring, as the device sees it. */
  lemma AnyPosted(q: Queue)
    requires Ok(q)
    ensures q.takenIdx != q.availIdx <==> q.postedQ != []
  {
    hide Partition, Chains, Phases;
    InFlight(q);
    NumBelow(q.num);
    WrapEqual(q.taken, q.taken + |q.postedQ|);
  }

  lemma NumBelow(n: nat)
    requires n > 0 && WRAP % n == 0
    ensures n <= WRAP
  {
  }

  /** The three descriptors go back. */
  function Finished(q: Queue, h: nat): Queue
    requires Sized(q) && h in q.reqs && Formatted(q, q.reqs[h])
  {
    var r := q.reqs[h];
    q.(free := q.free[r.head := true][r.data := true][r.status := true],
       desc := q.desc[r.head := ZERO][r.data := ZERO][r.status := ZERO],
       info := q.info[r.head := Info(None, q.info[r.head].status)],
       reqs := q.reqs - {h}, phase := q.phase - {h}, own := q.own - {r.head, r.data, r.status})
  }

  lemma FinishedOk(q: Queue, h: nat)
    requires Ok(q) && h in q.phase && q.phase[h] == Done
    ensures h in q.reqs && Formatted(q, q.reqs[h]) && q.reqs[h].head == h && Ok(Finished(q, h))
  {
    hide Partition, Rings, Formatted, Phases;
    HeadBelow(q, h);
    assert ChainAt(q, h);
    FinishedPartition(q, h);
    FinishedChains(q, h);
    FinishedPhases(q, h);
    FinishedRings(q, h);
  }

  lemma FinishedPartition(q: Queue, h: nat)
    requires Partition(q) && h in q.reqs && Formatted(q, q.reqs[h])
    ensures Partition(Finished(q, h))
  {
    hide OwnOk, FreeOk, Finished, Formatted, CountFree;
    var r := q.reqs[h];
    Owned(q, h);
    FinishedFree(q, h);
    FinishedOwn(q, h);
    FinishedIs(q, h);
    Threefold(q, r);
    CountSet(q.free, r.head, true);
    CountSet(q.free[r.head := true], r.data, true);
    CountSet(q.free[r.head := true][r.data := true], r.status, true);
    OneLess(q.reqs, h);
  }

  lemma Threefold(q: Queue, r: Req)
    requires Sized(q) && Formatted(q, r)
    ensures r.head != r.data && r.head != r.status && r.data != r.status
  {
  }

  lemma OneLess(m: map<nat, Req>, h: nat)
    requires h in m
    ensures |m - {h}| + 1 == |m|
  {
    assert m.Keys == (m - {h}).Keys + {h};
    assert |m - {h}| == |(m - {h}).Keys|;
    assert |m| == |m.Keys|;
  }

  lemma Owned(q: Queue, h: nat)
    requires Sized(q) && FreeOk(q) && OwnOk(q) && h in q.reqs
    ensures var r := q.reqs[h];
      && r.head in q.own && r.data in q.own && r.status in q.own
      && r.head < q.num && r.data < q.num && r.status < q.num
      && !q.free[r.head] && !q.free[r.data] && !q.free[r.status]
      && q.own[r.head] == h && q.own[r.data] == h && q.own[r.status] == h
  {
    var r := q.reqs[h];
    assert Member(q.reqs[h], r.head) && Member(q.reqs[h], r.data) && Member(q.reqs[h], r.status);
  }

  lemma FinishedFree(q: Queue, h: nat)
    requires Sized(q) && FreeOk(q) && h in q.reqs && Formatted(q, q.reqs[h])
    ensures FreeOk(Finished(q, h))
  {
  }

  lemma FinishedOwn(q: Queue, h: nat)
    requires Sized(q) && FreeOk(q) && OwnOk(q) && h in q.reqs && Formatted(q, q.reqs[h])
    ensures OwnOk(Finished(q, h))
  {
    hide FreeOk;
    Owned(q, h);
    var q' := Finished(q, h);
    forall i {:trigger q'.own[i]} | i in q'.own
      ensures q'.own[i] in q'.reqs && Member(q'.reqs[q'.own[i]], i)
    {
      assert q'.own[i] == q.own[i];
      assert !Member(q.reqs[h], i);
    }
    forall g, i {:trigger Member(q'.reqs[g], i)} | g in q'.reqs && Member(q'.reqs[g], i)
      ensures i in q'.own && q'.own[i] == g
    {
      assert Member(q.reqs[g], i);
    }
  }

  lemma FinishedChains(q: Queue, h: nat)
    requires Partition(q) && Chains(q) && h in q.reqs
    ensures Formatted(q, q.reqs[h]) && Chains(Finished(q, h))
  {
    hide Formatted, OwnOk, FreeOk, Finished;
    assert ChainAt(q, h);
    FinishedIs(q, h);
    var q' := Finished(q, h);
    forall g | g in q'.reqs
      ensures ChainAt(q', g)
    {
      assert ChainAt(q, g);
      OtherChain(q, h, g);
    }
    assert BufsApart(q');
  }

  lemma FinishedIs(q: Queue, h: nat)
    requires Sized(q) && h in q.reqs && Formatted(q, q.reqs[h])
    ensures Sized(Finished(q, h)) && Finished(q, h).reqs == q.reqs - {h}
    ensures var r := q.reqs[h]; Finished(q, h).free == q.free[r.head := true][r.data := true][r.status := true]
    ensures Finished(q, h).num == q.num
  {
  }

  lemma OtherChain(q: Queue, h: nat, g: nat)
    requires Partition(q) && h in q.reqs && g in q.reqs && g != h && ChainAt(q, h) && ChainAt(q, g)
    ensures ChainAt(Finished(q, h), g)
  {
    hide FreeOk, OwnOk;
    Owned(q, h);
    Owned(q, g);
  }

  lemma FinishedPhases(q: Queue, h: nat)
    requires Phases(q) && h in q.phase && q.phase[h] == Done && Formatted(q, q.reqs[h]) && q.reqs[h].head == h
    ensures Phases(Finished(q, h))
  {
  }

  lemma FinishedRings(q: Queue, h: nat)
    requires Rings(q) && h in q.reqs && Formatted(q, q.reqs[h])
    ensures Rings(Finished(q, h))
  {
  }
}
