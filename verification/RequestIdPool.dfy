/** The request-ID fields of `struct ena_ring`, updated in place. */
module RequestIdPool {
  import opened Bits
  import opened IdFifo
  import opened RingTypes
  import opened RequestIds

  class Pool {
    const depth: nat
    const freeIds: array<nat>
    var head: nat
    var tail: nat
    var count: nat
    const owned: array<bool>   // req_allocated

    ghost function Repr(): set<object> {
      {this, freeIds, owned}
    }

    ghost function Abs(): IdPool
      reads Repr()
    {
      IdPool(Fifo(freeIds[..], head, tail, count), owned[..])
    }

    ghost predicate Wf()
      reads Repr()
    {
      IsPow2(depth) && |Abs().owned| == depth && Abs().Shape()
    }

    constructor (depth: nat)
      requires IsPow2(depth)
      ensures Wf() && fresh(Repr()) && Abs() == FullPool(depth) && this.depth == depth
    {
      var marks := NewFilled(depth, false);
      this.depth, owned := depth, marks;
      freeIds := new nat[depth](i => i);
      head, tail, count := 0, 0, depth;
      new;
      assert freeIds[..] == FullPool(depth).free.ids && owned[..] == FullPool(depth).owned;
    }

    /** `ena_ring_req_id_alloc`. */
    method Alloc() returns (r: SubmitResult)
      requires Wf()
      modifies Repr()
      ensures (r, Abs()) == old(Abs()).Alloc() && Wf()
    {
      ghost var p := Abs();
      if count == 0 { return Failed(EBUSY); }
      var id := freeIds[head];
      head := Mask(head + 1, depth);
      count := count - 1;
      owned[id] := true;
      assert owned[..] == p.owned[id := true];
      PopContents(p.free);
      return Sent(id);
    }

    /** `ena_ring_req_id_free`, up to the slot it clears. */
    method Free(id: nat) returns (res: FreeResult)
      requires Wf()
      modifies Repr()
      ensures (res, Abs()) == old(Abs()).Free(id) && Wf()
    {
      ghost var p := Abs();
      if id >= depth { return Rejected; }
      if !owned[id] { return AlreadyFree; }
      if count >= depth { return Rejected; }
      owned[id] := false;
      freeIds[tail] := id;
      tail := Mask(tail + 1, depth);
      count := count + 1;
      assert owned[..] == p.owned[id := false] && freeIds[..] == p.free.ids[p.free.tail := id];
      PushContents(p.free, id);
      return Freed;
    }

    /** The part of `ena_ring_reset_sw_state` that re-arms the pool. */
    method Refill()
      requires Wf()
      modifies Repr()
      ensures Abs() == FullPool(depth) && Wf()
    {
      for i := 0 to depth
        invariant freeIds.Length == owned.Length == depth
        invariant forall k :: 0 <= k < i ==> freeIds[k] == k && !owned[k]
      {
        freeIds[i] := i;
        owned[i] := false;
      }
      head, tail, count := 0, 0, depth;
      assert freeIds[..] == FullPool(depth).free.ids && owned[..] == FullPool(depth).owned;
    }
  }
}
