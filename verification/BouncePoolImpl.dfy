/** The bounce-slot fields that the TX and RX queue structures share, updated
    in place. */
module BouncePoolImpl {
  import opened Bits
  import opened IdFifo
  import opened RingTypes
  import B = BounceSlots

  class BouncePool {
    const nbDesc: nat
    const freeIds: array<nat>    // bounce_free_ids
    var head: nat
    var tail: nat
    var count: nat
    const slotOf: array<int>     // bounce_map

    ghost function Repr(): set<object> {
      {this, freeIds, slotOf}
    }

    ghost function Abs(): B.Slots
      reads Repr()
    {
      B.Slots(Fifo(freeIds[..], head, tail, count), slotOf[..])
    }

    ghost predicate Wf()
      reads Repr()
    {
      IsPow2(nbDesc) && slotOf.Length == nbDesc && B.Shape(Abs())
    }

    constructor (nbDesc: nat)
      requires IsPow2(nbDesc)
      ensures Wf() && fresh(Repr()) && Abs() == B.Init(nbDesc) && this.nbDesc == nbDesc
    {
      var none := NewFilled(nbDesc, -1);
      this.nbDesc, slotOf := nbDesc, none;
      freeIds := new nat[nbDesc](i => i);
      head, tail, count := 0, 0, nbDesc;
      new;
      assert freeIds[..] == B.Init(nbDesc).free.ids && slotOf[..] == B.Init(nbDesc).map_;
    }

    /** Pop the oldest free slot. */
    method Take() returns (slot: nat)
      requires Wf() && 0 < count
      modifies `head, `count
      ensures (slot, Abs()) == B.Take(old(Abs())) && Wf()
    {
      ghost var f := Abs().free;
      slot := freeIds[head];
      head := Mask(head + 1, nbDesc);
      count := count - 1;
      PopContents(f);
    }

    /** Push a slot. */
    method Give(slot: nat)
      requires Wf() && count < nbDesc && slot < nbDesc
      modifies `tail, `count, freeIds
      ensures Abs() == B.Give(old(Abs()), slot) && Wf()
    {
      ghost var f := Abs().free;
      freeIds[tail] := slot;
      tail := Mask(tail + 1, nbDesc);
      count := count + 1;
      PushContents(f, slot);
      assert freeIds[..] == f.ids[f.tail := slot];
    }

    /** Name a slot, or none, for a request. */
    method Name(req: nat, slot: int)
      requires Wf() && req < nbDesc && -1 <= slot < nbDesc
      modifies slotOf
      ensures Abs() == old(Abs()).(map_ := old(Abs()).map_[req := slot]) && Wf()
    {
      ghost var was := Abs();
      slotOf[req] := slot;
      assert Abs() == was.(map_ := was.map_[req := slot]);
    }

    /** Unmap a request and push its slot, if it has one. */
    method Unmap(req: nat)
      requires Wf() && B.Apart(Abs())
      modifies `tail, `count, freeIds, slotOf
      ensures Abs() == B.Unmap(old(Abs()), req) && Wf() && B.Apart(Abs())
    {
      ghost var q := Abs();
      B.UnmapMoves(q, req);
      if req < nbDesc && slotOf[req] >= 0 {
        var slot := slotOf[req];
        B.UnmapRoom(q, req);
        hide B.Apart;
        Name(req, -1);
        Give(slot);
      }
    }
  }
}
