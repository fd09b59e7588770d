/** kernel/virtio_disk.c. Each method is a section that runs under vdisk_lock; the
    device acts between them, in any order. */
module Virtio {
  import opened Basics
  import opened VirtioState

  class Driver {
    const num: nat
    var free: seq<bool>
    var desc: seq<Desc>
    var ops: seq<Command>
    var info: seq<Info>
    /** The buffers with b->disk set. */
    var busy: set<nat>
    var availRing: seq<nat>
    var availIdx: nat
    /** The device's own count of what it has taken. */
    var takenIdx: nat
    var usedRing: seq<nat>
    var usedIdx: nat
    var seenIdx: nat
    ghost var taken: nat
    ghost var postedQ: seq<nat>
    ghost var seen: nat
    ghost var usedQ: seq<nat>
    ghost var reqs: map<nat, Req>
    ghost var phase: map<nat, Phase>
    ghost var own: map<nat, nat>

    ghost function Q(): Queue
      reads this
    {
      Queue(num, free, desc, ops, info, busy, availRing, availIdx, takenIdx, usedRing, usedIdx, seenIdx,
            taken, postedQ, seen, usedQ, reqs, phase, own)
    }

    ghost predicate Valid()
      reads this
    {
      Ok(Q())
    }

    /** virtio_disk_init(), for any queue size that divides 2^16. */
    constructor (num: nat)
      requires num > 0 && WRAP % num == 0
      ensures Valid() && this.num == num && reqs == map[] && busy == {}
    {
      this.num := num;
      free := seq(num, i => true);
      desc := seq(num, i => ZERO);
      ops := seq(num, i => Command(0, 0));
      info := seq(num, i => Info(None, 0));
      busy := {};
      availRing, usedRing := seq(num, i => 0), seq(num, i => 0);
      availIdx, takenIdx, usedIdx, seenIdx := 0, 0, 0, 0;
      taken, postedQ, seen, usedQ := 0, [], 0, [];
      reqs, phase, own := map[], map[], map[];
      new;
      CountAll(free);
    }

    /** alloc_desc(): the first free descriptor, or num. */
    method AllocDesc() returns (i: nat)
      requires |free| == num
      modifies `free
      ensures i <= num
      ensures i == num ==> free == old(free) && CountFree(free) == 0
      ensures i < num ==> old(free)[i] && free == old(free)[i := false] && CountFree(free) + 1 == CountFree(old(free))
    {
      i := 0;
      while i < num
        invariant i <= num && free == old(free)
        invariant forall j :: 0 <= j < i ==> !free[j]
      {
        if free[i] {
          CountSet(free, i, false);
          free := free[i := false];
          return;
        }
        i := i + 1;
      }
      CountNone(free);
    }

    /** free_desc(): the descriptor must be in use. */
    method FreeDesc(i: nat)
      requires |free| == |desc| == num && i < num && !free[i]
      modifies `free, `desc
      ensures free == old(free)[i := true] && desc == old(desc)[i := ZERO]
      ensures CountFree(free) == CountFree(old(free)) + 1
    {
      CountSet(free, i, true);
      desc := desc[i := ZERO];
      free := free[i := true];
    }

    /** alloc3_desc(): three descriptors, or, if there are not three, none. */
    method Alloc3Desc() returns (ok: bool, idx: seq<nat>)
      requires Valid()
      modifies `free, `desc
      ensures ok <==> CountFree(old(free)) >= 3
      ensures !ok ==> Q() == old(Q())
      ensures ok ==> |idx| == 3 && idx[0] < num && idx[1] < num && idx[2] < num
      ensures ok ==> idx[0] != idx[1] && idx[0] != idx[2] && idx[1] != idx[2]
      ensures ok ==> old(free)[idx[0]] && old(free)[idx[1]] && old(free)[idx[2]]
      ensures ok ==> free == old(free)[idx[0] := false][idx[1] := false][idx[2] := false] && desc == old(desc)
    {
      hide Chains, Phases, Rings, OwnOk, CountFree;
      idx := [];
      var i := 0;
      while i < 3
        invariant 0 <= i <= 3 && |idx| == i && desc == old(desc)
        invariant Marked(old(free), idx) && free == Cleared(old(free), idx)
        invariant CountFree(free) + i == CountFree(old(free))
      {
        var d := AllocDesc();
        if d == num {
          GiveBack(idx, old(free), old(desc));
          return false, [];
        }
        NextMarked(old(free), idx, d);
        idx := idx + [d];
        i := i + 1;
      }
      ok := true;
      ThreeMarked(old(free), idx);
    }

    /** The failure path of alloc3_desc(). */
    method GiveBack(idx: seq<nat>, ghost free0: seq<bool>, ghost desc0: seq<Desc>)
      requires |free0| == |desc0| == num && |idx| <= 3 && Marked(free0, idx) && free == Cleared(free0, idx) && desc == desc0
      requires forall i :: 0 <= i < num && free0[i] ==> desc0[i] == ZERO
      modifies `free, `desc
      ensures free == free0 && desc == desc0
    {
      var j := 0;
      assert idx[0..] == idx;
      while j < |idx|
        invariant 0 <= j <= |idx| && desc == desc0 && free == Cleared(free0, idx[j..])
      {
        RestoreOne(free0, idx, j);
        FreeDesc(idx[j]);
        assert desc == desc0;
        j := j + 1;
      }
    }

    /** virtio_disk_rw() until it waits for the device. If there are no descriptors
        it sleeps and tries again. The caller holds b's lock, so b is not in use. */
    method Submit(b: nat, blockno: nat, write: bool) returns (ok: bool)
      requires Valid() && forall h :: h in reqs ==> reqs[h].buf != b
      modifies this
      ensures Valid() && ok == (CountFree(old(free)) >= 3)
      ensures !ok ==> Q() == old(Q())
      ensures ok ==> |postedQ| > 0 && var h := postedQ[|postedQ| - 1];
        && h !in old(reqs) && h in reqs && reqs == old(reqs)[h := reqs[h]] && reqs[h].buf == b && reqs[h].blockno == blockno && reqs[h].write == write
        && phase == old(phase)[h := Posted] && postedQ == old(postedQ) + [h] && b in busy
    {
      hide Partition, Chains, Phases, Rings, OwnOk, CountFree, Submitted;
      ghost var q0 := Q();
      SizedIs(q0);
      var idx;
      ok, idx := Alloc3Desc();
      if !ok {
        return;
      }
      ghost var r := Req(idx[0], idx[1], idx[2], b, blockno, write);
      NewHead(q0, r);
      SubmittedOk(q0, r);
      Slot(q0);
      Post(idx, b, blockno, write, q0, r);
      SubmittedIs(q0, r);
    }

    /** The rest of virtio_disk_rw(), with its descriptors. */
    method Post(idx: seq<nat>, b: nat, blockno: nat, write: bool, ghost q0: Queue, ghost r: Req)
      requires |idx| == 3 && r == Req(idx[0], idx[1], idx[2], b, blockno, write) && Fresh(q0, r)
      requires Q() == q0.(free := q0.free[r.head := false][r.data := false][r.status := false])
      requires q0.availIdx % q0.num == (q0.taken + |q0.postedQ|) % q0.num
      modifies this
      ensures Q() == Submitted(q0, r)
    {
      Format(idx, b, blockno, write);
      Offer(idx[0]);
      reqs := reqs[r.head := r];
      phase := phase[r.head := Posted];
      own := own[r.head := r.head][r.data := r.head][r.status := r.head];
    }

    /** The three descriptors and the record for the interrupt handler. */
    method Format(idx: seq<nat>, b: nat, blockno: nat, write: bool)
      requires |idx| == 3 && |desc| == |ops| == |info| == num && idx[0] < num && idx[1] < num && idx[2] < num
      modifies `desc, `ops, `info, `busy
      ensures desc == old(desc)[idx[0] := Desc(Op(idx[0]), HEADER_LEN, false, true, idx[1])]
                               [idx[1] := Desc(Data(b), BSIZE, !write, true, idx[2])]
                               [idx[2] := Desc(StatusOf(idx[0]), 1, true, false, 0)]
      ensures ops == old(ops)[idx[0] := Command(if write then T_OUT else T_IN, blockno * (BSIZE / 512))]
      ensures info == old(info)[idx[0] := Info(Some(b), 0xff)] && busy == old(busy) + {b}
    {
      var sector := blockno * (BSIZE / 512);
      ops := ops[idx[0] := Command(if write then T_OUT else T_IN, sector)];
      desc := desc[idx[0] := Desc(Op(idx[0]), HEADER_LEN, false, true, idx[1])];
      desc := desc[idx[1] := Desc(Data(b), BSIZE, !write, true, idx[2])];
      info := info[idx[0] := Info(info[idx[0]].b, 0xff)];
      desc := desc[idx[2] := Desc(StatusOf(idx[0]), 1, true, false, 0)];
      busy := busy + {b};
      info := info[idx[0] := Info(Some(b), 0xff)];
    }

    /** The avail ring. */
    method Offer(h: nat)
      requires num > 0 && |availRing| == num
      modifies `availRing, `availIdx, `postedQ
      ensures availRing == old(availRing)[old(availIdx) % num := h] && availIdx == (old(availIdx) + 1) % WRAP
      ensures postedQ == old(postedQ) + [h]
    {
      availRing := availRing[availIdx % num := h];
      availIdx := (availIdx + 1) % WRAP;
      postedQ := postedQ + [h];
    }

    /** The device takes the next request it has been offered. */
    method DeviceTake() returns (h: nat)
      requires Valid() && takenIdx != availIdx
      modifies this
      ensures Valid() && |old(postedQ)| > 0 && h == old(postedQ)[0] && h in reqs && Q() == DeviceTook(old(Q()))
      ensures reqs[h].head == h && Sized(Q()) && Formatted(Q(), reqs[h])
    {
      hide Partition, Chains, Phases, Rings, Formatted;
      ghost var q0 := Q();
      AnyPosted(q0);
      DeviceTookOk(q0);
      TakenSlot(q0);
      h := availRing[takenIdx % num];
      takenIdx := (takenIdx + 1) % WRAP;
      phase := phase[postedQ[0] := Flight];
      taken := taken + 1;
      postedQ := postedQ[1..];
      ChainOf(Q(), h);
    }

    /** The device finishes any of the requests it has taken. */
    method DeviceComplete(h: nat)
      requires Valid() && h in phase && phase[h] == Flight
      modifies this
      ensures Valid() && reqs == old(reqs) && phase == old(phase)[h := Used] && usedQ == old(usedQ) + [h]
    {
      hide Partition, Chains, Phases, Rings;
      ghost var q0 := Q();
      CompletedOk(q0, h);
      SizedIs(q0);
      UsedSlot(q0);
      usedRing := usedRing[usedIdx % num := h];
      usedIdx := (usedIdx + 1) % WRAP;
      usedQ := usedQ + [h];
      phase := phase[h := Used];
      info := info[h := info[h].(status := 0)];
      assert Q() == Completed(q0, h);
    }

    /** One entry of the used ring: its id names a live request, with its buffer. */
    method Notice()
      requires Valid() && usedQ != []
      modifies this
      ensures Valid() && |old(usedQ)| > 0 && old(usedQ)[0] in old(reqs) && Q() == Noticed(old(Q()))
    {
      hide Partition, Chains, Phases, Rings;
      ghost var q0 := Q();
      NoticedOk(q0);
      SeenSlot(q0);
      var id := usedRing[seenIdx % num];
      assert info[id].status == 0;
      var b := info[id].b.value;
      busy := busy - {b};
      seenIdx := (seenIdx + 1) % WRAP;
      seen := seen + 1;
      phase := phase[usedQ[0] := Done];
      usedQ := usedQ[1..];
      assert Q() == Noticed(q0);
    }

    /** virtio_disk_intr(): every finished request is noticed, and the buffer of each
        is marked ready. */
    method Intr()
      requires Valid()
      modifies this
      ensures Valid() && usedQ == [] && reqs == old(reqs) && phase.Keys == old(phase).Keys
      ensures forall h :: h in phase ==> phase[h] == if old(phase)[h] == Used then Done else old(phase)[h]
      ensures forall h :: h in reqs && old(phase)[h] == Used ==> reqs[h].buf !in busy
    {
      hide Partition, Chains, Phases, Rings;
      PhaseKeys(Q());
      AnyUsed(Q());
      while seenIdx != usedIdx
        invariant Valid() && reqs == old(reqs) && phase.Keys == reqs.Keys == old(phase).Keys
        invariant seenIdx != usedIdx <==> usedQ != []
        invariant forall h :: h in phase ==> phase[h] == old(phase)[h] || (old(phase)[h] == Used && phase[h] == Done)
        decreases |usedQ|
      {
        WasUsed(Q());
        Notice();
        AnyUsed(Q());
      }
      NoneUsed(Q());
    }

    /** virtio_disk_rw() once b->disk is clear: the chain goes back. */
    method Finish(h: nat)
      requires Valid() && h in reqs && reqs[h].buf !in busy
      modifies this
      ensures Valid() && reqs == old(reqs) - {h} && CountFree(free) == CountFree(old(free)) + 3
    {
      hide Partition, Chains, Phases, Rings, CountFree;
      ghost var q0 := Q();
      IsDone(q0, h);
      FinishedOk(q0, h);
      SizedIs(q0);
      InUse(q0, h);
      info := info[h := Info(None, info[h].status)];
      FreeChain(h, reqs[h]);
      ghost var r := reqs[h];
      reqs := reqs - {h};
      phase := phase - {h};
      own := own - {r.head, r.data, r.status};
      assert Q() == Finished(q0, h);
    }

    /** free_chain(): follows the links of the three descriptors of r. */
    method FreeChain(head: nat, ghost r: Req)
      requires Sized(Q()) && Formatted(Q(), r) && r.head == head && !free[r.head] && !free[r.data] && !free[r.status]
      modifies `free, `desc
      ensures free == old(free)[r.head := true][r.data := true][r.status := true]
      ensures desc == old(desc)[r.head := ZERO][r.data := ZERO][r.status := ZERO]
      ensures CountFree(free) == CountFree(old(free)) + 3
    {
      hide CountFree;
      var i := head;
      ghost var n := 0;
      while true
        invariant 0 <= n <= 2 && i == (if n == 0 then r.head else if n == 1 then r.data else r.status)
        invariant |free| == |desc| == num && CountFree(free) == CountFree(old(free)) + n
        invariant free == (if n == 0 then old(free) else if n == 1 then old(free)[r.head := true] else old(free)[r.head := true][r.data := true])
        invariant desc == (if n == 0 then old(desc) else if n == 1 then old(desc)[r.head := ZERO] else old(desc)[r.head := ZERO][r.data := ZERO])
        decreases 2 - n
      {
        var more, nxt := desc[i].more, desc[i].next;
        FreeDesc(i);
        if more {
          i := nxt;
        } else {
          break;
        }
        n := n + 1;
      }
    }
  }

  // --------------------------------------------------------------- small facts

  /** idx are different free descriptors. */
  ghost predicate Marked(free: seq<bool>, idx: seq<nat>) {
    && (forall i :: 0 <= i < |idx| ==> idx[i] < |free| && free[idx[i]])
    && Distinct(idx)
  }

  ghost function Cleared(free: seq<bool>, idx: seq<nat>): (r: seq<bool>)
    requires forall i :: 0 <= i < |idx| ==> idx[i] < |free|
    ensures |r| == |free|
  {
    if idx == [] then free else Cleared(free, idx[..|idx| - 1])[idx[|idx| - 1] := false]
  }

  lemma {:induction false} ClearedAt(free: seq<bool>, idx: seq<nat>, k: nat)
    requires (forall i :: 0 <= i < |idx| ==> idx[i] < |free|) && k < |free|
    ensures Cleared(free, idx)[k] == (free[k] && k !in idx)
  {
    if idx != [] {
      ClearedAt(free, idx[..|idx| - 1], k);
      assert idx == idx[..|idx| - 1] + [idx[|idx| - 1]];
    }
  }

  lemma NextMarked(free: seq<bool>, idx: seq<nat>, d: nat)
    requires Marked(free, idx) && d < |free| && Cleared(free, idx)[d]
    ensures Marked(free, idx + [d]) && Cleared(free, idx + [d]) == Cleared(free, idx)[d := false]
  {
    ClearedAt(free, idx, d);
    assert (idx + [d])[..|idx|] == idx;
  }

  lemma RestoreOne(free: seq<bool>, idx: seq<nat>, j: nat)
    requires Marked(free, idx) && j < |idx|
    ensures !Cleared(free, idx[j..])[idx[j]]
    ensures Cleared(free, idx[j..])[idx[j] := true] == Cleared(free, idx[j + 1..])
  {
    var a, b := Cleared(free, idx[j..]), Cleared(free, idx[j + 1..]);
    forall k | 0 <= k < |free|
      ensures a[k] == (free[k] && k !in idx[j..]) && b[k] == (free[k] && k !in idx[j + 1..])
    {
      ClearedAt(free, idx[j..], k);
      ClearedAt(free, idx[j + 1..], k);
    }
    assert idx[j..][0] == idx[j];
    assert idx[j..] == [idx[j]] + idx[j + 1..];
  }

  lemma ThreeMarked(free: seq<bool>, idx: seq<nat>)
    requires Marked(free, idx) && |idx| == 3
    ensures Cleared(free, idx) == free[idx[0] := false][idx[1] := false][idx[2] := false]
  {
    assert idx[..2][..1] == idx[..1] && idx[..1][..0] == [];
    assert Cleared(free, idx[..1]) == free[idx[0] := false];
    assert Cleared(free, idx[..2]) == free[idx[0] := false][idx[1] := false];
  }

  lemma SubmittedIs(q: Queue, r: Req)
    requires Fresh(q, r)
    ensures var q' := Submitted(q, r);
      && q'.postedQ == q.postedQ + [r.head] && q'.reqs == q.reqs[r.head := r] && q'.phase == q.phase[r.head := Posted]
      && r.buf in q'.busy
  {
  }

  lemma SizedIs(q: Queue)
    requires Ok(q)
    ensures Sized(q)
  {
    hide OwnOk, Chains, Phases, Rings;
  }

  lemma Slot(q: Queue)
    requires Ok(q)
    ensures Sized(q) && q.availIdx % q.num == (q.taken + |q.postedQ|) % q.num
  {
    hide Partition, Chains, Phases;
    WrapSlot(q.num, q.taken + |q.postedQ|);
  }

  lemma TakenSlot(q: Queue)
    requires Ok(q)
    ensures Sized(q) && q.takenIdx % q.num == q.taken % q.num
  {
    hide Partition, Chains, Phases;
    WrapSlot(q.num, q.taken);
  }

  lemma UsedSlot(q: Queue)
    requires Ok(q)
    ensures Sized(q) && q.usedIdx % q.num == (q.seen + |q.usedQ|) % q.num
  {
    hide Partition, Chains, Phases;
    WrapSlot(q.num, q.seen + |q.usedQ|);
  }

  lemma SeenSlot(q: Queue)
    requires Ok(q)
    ensures Sized(q) && q.seenIdx % q.num == q.seen % q.num
  {
    hide Partition, Chains, Phases;
    WrapSlot(q.num, q.seen);
  }

  lemma ChainOf(q: Queue, h: nat)
    requires Ok(q) && h in q.reqs
    ensures Sized(q) && q.reqs[h].head == h && Formatted(q, q.reqs[h])
  {
    hide Partition, Phases, Rings, Formatted;
    assert ChainAt(q, h);
  }

  lemma PhaseKeys(q: Queue)
    requires Ok(q)
    ensures q.phase.Keys == q.reqs.Keys
  {
    hide Partition, Chains, Rings;
  }

  lemma WasUsed(q: Queue)
    requires Ok(q) && q.usedQ != []
    ensures q.usedQ[0] in q.phase && q.phase[q.usedQ[0]] == Used
  {
    hide Partition, Chains, Rings;
    assert q.usedQ[0] in q.usedQ;
  }

  lemma NoneUsed(q: Queue)
    requires Ok(q) && q.usedQ == []
    ensures forall h :: h in q.phase ==> q.phase[h] != Used
    ensures forall h :: h in q.reqs && q.phase[h] == Done ==> q.reqs[h].buf !in q.busy
  {
    hide Partition, Chains, Rings;
  }

  lemma IsDone(q: Queue, h: nat)
    requires Ok(q) && h in q.reqs && q.reqs[h].buf !in q.busy
    ensures h in q.phase && q.phase[h] == Done
  {
    hide Partition, Chains, Rings;
  }

  lemma InUse(q: Queue, h: nat)
    requires Ok(q) && h in q.reqs
    ensures var r := q.reqs[h];
      && Sized(q) && r.head < q.num && r.data < q.num && r.status < q.num
      && !q.free[r.head] && !q.free[r.data] && !q.free[r.status]
  {
    hide FreeOk, OwnOk, Chains, Rings, Phases;
    Owned(q, h);
  }
}
