/** The bounce state of `struct uk_netdev_tx_queue`, updated in place. */
module TxQueueImpl {
  import opened Bits
  import opened BouncePoolImpl
  import opened TxNetdev
  import B = BounceSlots

  class TxQueue {
    const pool: BouncePool
    var inUse: bool
    var waitPolls: nat

    ghost function Repr(): set<object> {
      {this} + pool.Repr()
    }

    ghost function Abs(): Txq
      reads Repr()
    {
      Txq(pool.Abs(), inUse, waitPolls)
    }

    ghost predicate Valid()
      reads Repr()
    {
      this !in pool.Repr() && pool.Wf() && B.Apart(pool.Abs())
    }

    constructor (nbDesc: nat)
      requires IsPow2(nbDesc)
      ensures Valid() && fresh(Repr()) && Abs() == Txq(B.Init(nbDesc), false, 0) && pool.nbDesc == nbDesc
    {
      pool := new BouncePool(nbDesc);
      inUse, waitPolls := false, 0;
      new;
      B.InitWhole(nbDesc);
    }

    /** `ena_netdev_txq_reclaim_slot`. */
    method ReclaimSlotOf(req: nat)
      requires Valid()
      modifies Repr()
      ensures Valid() && Abs() == ReclaimSlot(old(Abs()), req)
    {
      if req < pool.nbDesc && pool.slotOf[req] >= 0 {
        pool.Unmap(req);
        waitPolls := 0;
        inUse := pool.count < pool.nbDesc;
      }
    }
  }
}
