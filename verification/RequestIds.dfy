/** Types shared by both directions of an IO ring, and the request-ID pool
    (`ena_ring_req_id_alloc` / `ena_ring_req_id_free`). */
module RingTypes {
  import opened Bits

  const EBUSY := 16
  const ENODEV := 19
  const EINVAL := 22

  /** A network buffer: its identity, the core whose heap it came from and
      its capacity in bytes. */
  datatype Netbuf = Netbuf(id: nat, home: nat, size: nat)

  datatype Ptr = Null | Buf(nb: Netbuf)

  /** A completion-queue entry. `phase` is its phase bit; `body` holds the
      direction-specific fields. */
  datatype Cdesc<B> = Cdesc(phase: nat, reqId: nat, body: B)

  /** The largest depth `ena_is_power_of_two` can accept in a `uint16_t`. */
  const MAX_DEPTH := 0x8000

  /** The depths `ena_ring_alloc` accepts. */
  ghost predicate DepthOk(d: nat) {
    4 <= d <= MAX_DEPTH && IsPow2(d)
  }

  datatype SubmitResult = Sent(reqId: nat) | Failed(errno: nat)

  /** n copies of x: an array after `calloc` or `memset`. */
  function Fill<T>(n: nat, x: T): (s: seq<T>)
    ensures |s| == n
    ensures forall i :: 0 <= i < n ==> s[i] == x
  {
    seq(n, i requires 0 <= i < n => x)
  }

  method NewFilled<T>(n: nat, x: T) returns (a: array<T>)
    ensures fresh(a) && a[..] == Fill(n, x)
  {
    a := new T[n](i => x);
    assert a[..] == Fill(n, x);
  }

  /** What n successive reads at the consumer head see when the completion
      memory does not change meanwhile. */
  function Window<B>(cq: seq<Cdesc<B>>, head: nat, n: nat): (w: seq<Cdesc<B>>)
    requires 0 < |cq|
    ensures |w| == n
  {
    seq(n, i requires 0 <= i < n => cq[(head + i) % |cq|])
  }

  /** What the device does to the completion memory during a call: before each
      of the first reads it replaces the contents. */
  ghost predicate WritesOk<B>(writes: seq<seq<Cdesc<B>>>, depth: nat) {
    forall k :: 0 <= k < |writes| ==> |writes[k]| == depth
  }

  /** The memory at the k-th read. */
  function MemoryAt<B>(cq: seq<Cdesc<B>>, writes: seq<seq<Cdesc<B>>>, k: nat): (m: seq<Cdesc<B>>)
    requires WritesOk(writes, |cq|)
    ensures |m| == |cq| && (writes == [] ==> m == cq)
  {
    if k < |writes| then writes[k] else if writes == [] then cq else writes[|writes| - 1]
  }

  /** What successive reads at the consumer head see; one read more than a call
      can make. */
  function Reads<B>(cq: seq<Cdesc<B>>, writes: seq<seq<Cdesc<B>>>, head: nat): (obs: seq<Cdesc<B>>)
    requires 0 < |cq| && WritesOk(writes, |cq|)
    ensures |obs| == |writes| + |cq| + 1
  {
    seq(|writes| + |cq| + 1, k requires 0 <= k < |writes| + |cq| + 1 => MemoryAt(cq, writes, k)[(head + k) % |cq|])
  }

  lemma ReadsAt<B>(cq: seq<Cdesc<B>>, writes: seq<seq<Cdesc<B>>>, head: nat, n: nat)
    requires 0 < |cq| && WritesOk(writes, |cq|) && n <= |writes| + |cq|
    ensures Reads(cq, writes, head)[n] == MemoryAt(cq, writes, n)[(head + n) % |cq|]
  {
  }

  /** The device's turn before the n-th read. */
  method DeviceWrites<B>(cq: array<Cdesc<B>>, ghost memory: seq<Cdesc<B>>, writes: seq<seq<Cdesc<B>>>, n: nat)
    requires cq.Length == |memory| && WritesOk(writes, |memory|)
    requires n >= |writes| ==> cq[..] == MemoryAt(memory, writes, n)
    modifies cq
    ensures cq[..] == MemoryAt(memory, writes, n)
    ensures n + 1 >= |writes| ==> cq[..] == MemoryAt(memory, writes, n + 1)
  {
    if n < |writes| {
      forall i | 0 <= i < cq.Length { cq[i] := writes[n][i]; }
      assert cq[..] == writes[n];
    }
  }

  /** The buffers in a list of pointers, in order. */
  function Held(slots: seq<Ptr>): (bufs: seq<Netbuf>)
  {
    if slots == [] then [] else Held(slots[..|slots| - 1]) + One(slots[|slots| - 1])
  }

  function One(p: Ptr): seq<Netbuf> {
    if p.Null? then [] else [p.nb]
  }

  /** The same buffers as a multiset. */
  function Bag(slots: seq<Ptr>): multiset<Netbuf>
  {
    if slots == [] then multiset{} else Bag(slots[..|slots| - 1]) + Unit(slots[|slots| - 1])
  }

  function Unit(p: Ptr): multiset<Netbuf> {
    if p.Null? then multiset{} else multiset{p.nb}
  }

  lemma {:induction false} HeldBag(slots: seq<Ptr>)
    ensures multiset(Held(slots)) == Bag(slots)
  {
    if slots != [] { HeldBag(slots[..|slots| - 1]); }
  }

  lemma AddBoth<T>(a: multiset<T>, b: multiset<T>, x: multiset<T>, y: multiset<T>, z: multiset<T>)
    requires a + x == b + y
    ensures (a + z) + x == (b + z) + y
  {
    assert (a + z) + x == (a + x) + z;
  }

  /** Overwriting one pointer exchanges what it held for what it holds. */
  lemma {:induction false} BagUpdate(slots: seq<Ptr>, i: nat, p: Ptr)
    requires i < |slots|
    ensures Bag(slots[i := p]) + Unit(slots[i]) == Bag(slots) + Unit(p)
  {
    var n := |slots| - 1;
    var upd, front := slots[i := p], slots[..n];
    if i == n {
      assert upd[..n] == front;
    } else {
      BagUpdate(front, i, p);
      assert upd[..n] == front[i := p] && front[i] == slots[i] && upd[n] == slots[n];
      calc {
        Bag(upd) + Unit(slots[i]);
        (Bag(front[i := p]) + Unit(slots[n])) + Unit(slots[i]);
        { AddBoth(Bag(front[i := p]), Bag(front), Unit(slots[i]), Unit(p), Unit(slots[n])); }
        (Bag(front) + Unit(slots[n])) + Unit(p);
        Bag(slots) + Unit(p);
      }
    }
  }

  /** A ledger of buffers in and buffers out survives clearing a slot whose
      buffer goes out ... */
  lemma LedgerOut(slots: seq<Ptr>, i: nat, accepted: multiset<Netbuf>, gone: multiset<Netbuf>)
    requires i < |slots| && accepted == Bag(slots) + gone
    ensures accepted == Bag(slots[i := Null]) + (gone + Unit(slots[i]))
  {
    BagUpdate(slots, i, Null);
    var a, u := Bag(slots[i := Null]), Unit(slots[i]);
    assert Unit(Null) == multiset{};
    assert a + (gone + u) == (a + u) + gone;
  }

  /** ... and filling an empty slot with a buffer that comes in. */
  lemma LedgerIn(slots: seq<Ptr>, i: nat, p: Ptr, accepted: multiset<Netbuf>, gone: multiset<Netbuf>)
    requires i < |slots| && slots[i] == Null && accepted == Bag(slots) + gone
    ensures accepted + Unit(p) == Bag(slots[i := p]) + gone
  {
    BagUpdate(slots, i, p);
    assert Unit(Null) == multiset{};
    assert (Bag(slots) + gone) + Unit(p) == (Bag(slots) + Unit(p)) + gone;
  }

  lemma {:induction false} BagNone(slots: seq<Ptr>)
    requires forall i :: 0 <= i < |slots| ==> slots[i] == Null
    ensures Bag(slots) == multiset{}
  {
    if slots != [] { BagNone(slots[..|slots| - 1]); }
  }

  /** The tracking slots that hold a buffer. */
  ghost function Holders(slots: seq<Ptr>, nb: Netbuf): set<nat> {
    set i: nat | i < |slots| && slots[i] == Buf(nb)
  }

  lemma {:induction false} HolderCount(slots: seq<Ptr>, nb: Netbuf)
    ensures |Holders(slots, nb)| == Bag(slots)[nb]
  {
    if slots != [] {
      hide Holders;
      HolderCount(slots[..|slots| - 1], nb);
      HolderLast(slots, nb);
    } else {
      assert Holders(slots, nb) == {};
    }
  }

  lemma HolderLast(slots: seq<Ptr>, nb: Netbuf)
    requires slots != []
    ensures |Holders(slots, nb)| == |Holders(slots[..|slots| - 1], nb)| + if slots[|slots| - 1] == Buf(nb) then 1 else 0
  {
    var n, front := |slots| - 1, slots[..|slots| - 1];
    if slots[n] == Buf(nb) {
      assert Holders(slots, nb) == Holders(front, nb) + {n};
    } else {
      assert Holders(slots, nb) == Holders(front, nb);
    }
  }
}

module RequestIds {
  import opened IdLists
  import opened IdFifo
  import opened RingTypes

  datatype FreeResult = Freed | AlreadyFree | Rejected

  /** The FIFO of free request IDs together with the ownership marks. */
  datatype IdPool = IdPool(free: Fifo, owned: seq<bool>) {

    /** The FIFO window lists exactly the unowned IDs, each once. */
    ghost predicate Inv() {
      && Shape()
      && NoDup(free.Contents()) && Below(free.Contents(), |owned|)
      && forall id :: 0 <= id < |owned| ==> (owned[id] <==> id !in free.Contents())
    }

    ghost predicate Shape() {
      free.Valid() && |owned| == |free.ids| && (forall k :: 0 <= k < |free.ids| ==> free.ids[k] < |free.ids|)
    }

    /** `ena_ring_req_id_alloc`. */
    function Alloc(): (SubmitResult, IdPool)
      requires Shape()
    {
      if free.count == 0 then (Failed(EBUSY), this)
      else (Sent(free.Front()), IdPool(free.Pop(), owned[free.Front() := true]))
    }

    /** `ena_ring_req_id_free`, with the branch it took. */
    function Free(id: nat): (FreeResult, IdPool)
      requires Shape()
    {
      if id >= |owned| then (Rejected, this)
      else if !owned[id] then (AlreadyFree, this)
      else if free.count >= |owned| then (Rejected, this)
      else (Freed, IdPool(free.Push(id), owned[id := false]))
    }
  }

  function FullPool(n: nat): (p: IdPool)
    requires 0 < n
    ensures p.Inv() && |p.owned| == n && p.free.count == n
  {
    IdPool(Full(n), Fill(n, false))
  }

  /** An owned ID leaves room in the pool; a full pool owns nothing. */
  lemma FreeCount(p: IdPool)
    requires p.Inv()
    ensures p.free.count == |p.owned| <==> forall id :: 0 <= id < |p.owned| ==> !p.owned[id]
  {
    Pigeonhole(p.free.Contents(), |p.owned|);
  }

  /** The oldest free ID is given out; the pool refuses exactly when every ID is
      owned, and changes nothing then. */
  lemma AllocKeeps(p: IdPool)
    requires p.Inv()
    ensures var (r, q) := p.Alloc();
            && q.Inv()
            && (r.Failed? <==> forall id :: 0 <= id < |p.owned| ==> p.owned[id])
            && (r.Failed? ==> r.errno == EBUSY && q == p)
            && (r.Sent? ==>
                && r.reqId < |p.owned| && !p.owned[r.reqId]
                && q.owned == p.owned[r.reqId := true]
                && p.free.Contents() == [r.reqId] + q.free.Contents())
  {
    var c := p.free.Contents();
    if p.free.count > 0 {
      PopContents(p.free);
      var (r, q) := p.Alloc();
      assert c[0] == r.reqId && c[1..] == q.free.Contents();
      assert c[0] in c;
      forall k | 0 <= k < |p.owned| ensures q.owned[k] <==> k !in q.free.Contents() {
        if k == r.reqId {
          assert forall j :: 0 < j < |c| ==> c[j] != c[0];
        } else {
          assert k in c <==> k in c[1..];
        }
      }
    }
  }

  /** Releasing an owned ID always succeeds: it becomes the newest free ID.
      Releasing any other ID changes nothing. */
  lemma FreeKeeps(p: IdPool, id: nat)
    requires p.Inv()
    ensures var (res, q) := p.Free(id);
            && q.Inv()
            && (res == Freed <==> id < |p.owned| && p.owned[id])
            && (res == Rejected <==> id >= |p.owned|)
            && (res != Freed ==> q == p)
            && (res == Freed ==>
                && q.owned == p.owned[id := false]
                && q.free.Contents() == p.free.Contents() + [id])
  {
    if id < |p.owned| && p.owned[id] {
      FreeCount(p);
      PushContents(p.free, id);
      Pigeonhole(p.free.Contents(), |p.owned|);
      NoDupJoin(p.free.Contents(), [id]);
    }
  }
}
