/** `struct ena_ring` in the RX direction with the bounce state of its netdev
    queue, updated in place. Every method is proved equal to the function of
    the same section in `RxRing` and `RxNetdev`. */
module RxRingImpl {
  import opened Bits
  import opened RingTypes
  import opened RequestIds
  import opened RequestIdPool
  import opened BouncePoolImpl
  import opened RxRing
  import opened RxAccounting
  import opened RxNetdev
  import B = BounceSlots

  // ---- the poll loop, turn by turn ----

  /** n turns lead from a to b, having handed out `got` and dropped `lost`. */
  ghost predicate Progress(a: Net, b: Net, max: nat, obs: seq<RxCdesc>, n: nat, got: seq<RxPkt>, lost: nat) {
    && Inv(a.rx) && Inv(b.rx) && PhasesOk(a.rx) && PhasesOk(b.rx)
    && Apart(a.q) && Apart(b.q) && a.q.pending == b.q.pending == -1
    && |got| <= max && n <= |obs|
    && b.rx.cqHead == (a.rx.cqHead + n) % U16
    && PollLoop(a.rx, max, obs) == After(got, lost, PollLoop(b.rx, max - |got|, obs[n..]))
    && Consumed(a.rx, max, obs) == n + Consumed(b.rx, max - |got|, obs[n..])
    && NetLoop(a, max, obs) == NetLoop(b, max - |got|, obs[n..])
  }

  /** What a poll returns whose first turns handed out `got`. */
  ghost function After(got: seq<RxPkt>, lost: nat, r: (Rx, seq<RxPkt>, nat)): (Rx, seq<RxPkt>, nat) {
    (r.0, got + r.1, lost + r.2)
  }

  lemma AfterNothing(r: (Rx, seq<RxPkt>, nat))
    ensures After([], 0, r) == r
  {
    assert [] + r.1 == r.1;
  }

  lemma AfterTwice(got: seq<RxPkt>, lost: nat, one: seq<RxPkt>, k: nat, r: (Rx, seq<RxPkt>, nat))
    ensures After(got, lost, After(one, k, r)) == After(got + one, lost + k, r)
  {
    assert got + (one + r.1) == (got + one) + r.1;
  }

  /** What one turn hands out and drops. */
  ghost function TurnGot(s: Rx, e: RxCdesc): (r: seq<RxPkt>)
    requires Shape(s)
    ensures |r| <= 1
  {
    if Examine(s, e) == Deliver then [PktOf(s, e)] else []
  }

  ghost function TurnLost(s: Rx, e: RxCdesc): nat
    requires Shape(s)
  {
    if Examine(s, e) == Oversize then 1 else 0
  }

  lemma ProgressStart(a: Net, max: nat, obs: seq<RxCdesc>)
    requires Inv(a.rx) && PhasesOk(a.rx) && Apart(a.q) && a.q.pending == -1
    ensures Progress(a, a, max, obs, 0, [], 0)
  {
    hide Inv, PhasesOk, Apart, PollLoop, Consumed, NetLoop, After;
    assert obs[0..] == obs;
    AfterNothing(PollLoop(a.rx, max, obs));
    HeadBound(a.rx);
  }

  lemma HeadBound(s: Rx)
    requires Inv(s)
    ensures s.cqHead < U16
  {
  }

  lemma ProgressFacts(a: Net, b: Net, max: nat, obs: seq<RxCdesc>, n: nat, got: seq<RxPkt>, lost: nat)
    requires Progress(a, b, max, obs, n, got, lost)
    ensures Inv(b.rx) && PhasesOk(b.rx) && Apart(b.q) && b.q.pending == -1 && |got| <= max && n <= |obs|
    ensures b.rx.cqHead == (a.rx.cqHead + n) % U16
  {
  }

  lemma TurnUnfolds(b: Net, max: nat, obs: seq<RxCdesc>)
    requires Shape(b.rx) && Apart(b.q) && b.q.pending == -1 && 0 < max && obs != [] && Examine(b.rx, obs[0]) != Stop
    requires Apart(NetHandle(b, obs[0]).q) && NetHandle(b, obs[0]).q.pending == -1
    ensures var e, c := obs[0], NetHandle(b, obs[0]);
            var left := max - |TurnGot(b.rx, e)|;
            && PollLoop(b.rx, max, obs) == After(TurnGot(b.rx, e), TurnLost(b.rx, e), PollLoop(c.rx, left, obs[1..]))
            && Consumed(b.rx, max, obs) == 1 + Consumed(c.rx, left, obs[1..])
            && NetLoop(b, max, obs) == NetLoop(c, left, obs[1..])
  {
    hide Handle, Apart, B.Unmap;
    var left := max - |TurnGot(b.rx, obs[0])|;
    assert [] + PollLoop(NetHandle(b, obs[0]).rx, left, obs[1..]).1 == PollLoop(NetHandle(b, obs[0]).rx, left, obs[1..]).1;
  }

  lemma TurnKeeps(b: Net, e: RxCdesc)
    requires Inv(b.rx) && PhasesOk(b.rx) && Apart(b.q) && b.q.pending == -1 && Examine(b.rx, e) != Stop
    ensures var c := NetHandle(b, e);
            && Inv(c.rx) && PhasesOk(c.rx) && Apart(c.q) && c.q.pending == -1
            && c.rx.cqHead == (b.rx.cqHead + 1) % U16 && c.rx == Handle(b.rx, e)
  {
    hide Inv, Apart, Handle, PhasesOk;
    HandleHead(b.rx, e);
    HandleApart(b, e);
  }

  lemma ProgressTurn(a: Net, b: Net, max: nat, obs: seq<RxCdesc>, n: nat, got: seq<RxPkt>, lost: nat)
    requires Progress(a, b, max, obs, n, got, lost) && |got| < max && n < |obs| && Examine(b.rx, obs[n]) != Stop
    ensures var e := obs[n];
            Progress(a, NetHandle(b, e), max, obs, n + 1, got + TurnGot(b.rx, e), lost + TurnLost(b.rx, e))
    ensures n < Consumed(a.rx, max, obs)
  {
    hide Inv, PhasesOk, Apart, PollLoop, Consumed, NetLoop, NetHandle, Shape, After, TurnGot, TurnLost, Examine;
    NextIndex(a.rx.cqHead + n);
    var rest, e := obs[n..], obs[n];
    assert rest[0] == e && rest[1..] == obs[n + 1..];
    TurnKeeps(b, e);
    TurnUnfolds(b, max - |got|, rest);
    AfterTwice(got, lost, TurnGot(b.rx, e), TurnLost(b.rx, e),
               PollLoop(NetHandle(b, e).rx, max - |got| - |TurnGot(b.rx, e)|, obs[n + 1..]));
  }

  lemma ProgressEnd(a: Net, b: Net, max: nat, obs: seq<RxCdesc>, n: nat, got: seq<RxPkt>, lost: nat)
    requires Progress(a, b, max, obs, n, got, lost)
    requires |got| == max || (n < |obs| && Examine(b.rx, obs[n]) == Stop)
    ensures PollLoop(a.rx, max, obs) == (b.rx, got, lost)
    ensures NetLoop(a, max, obs) == b
  {
    hide Inv, PhasesOk, Apart, Consumed, Examine;
    assert got + [] == got;
    if n < |obs| { assert obs[n..][0] == obs[n]; }
  }

  // ---- the netdev queue ----

  /** The bounce state of `struct uk_netdev_rx_queue`. */
  class RxQueue {
    const pool: BouncePool
    var pending: int             // pending_slot

    ghost function Repr(): set<object> {
      {this} + pool.Repr()
    }

    ghost function Abs(): Rxq
      reads Repr()
    {
      Rxq(pool.Abs(), pending)
    }

    ghost predicate Wf()
      reads Repr()
    {
      this !in pool.Repr() && pool.Wf() && Apart(Abs())
    }

    constructor (nbDesc: nat)
      requires IsPow2(nbDesc)
      ensures Wf() && fresh(Repr()) && Abs() == Rxq(B.Init(nbDesc), -1) && pool.nbDesc == nbDesc
    {
      pool := new BouncePool(nbDesc);
      pending := -1;
      new;
      B.InitWhole(nbDesc);
    }

    /** `ena_netbuf_alloc_helper`. */
    method AllocNetbuf(offer: Offer) returns (got: Alloc)
      requires Wf() && pending == -1
      modifies Repr()
      ensures (Abs(), got) == AllocHelper(old(Abs()), offer) && Wf()
    {
      AllocMoves(Abs(), offer);
      hide Apart;
      match offer
      case NoBuffer => got := NoAlloc;
      case Offered(nb, low) =>
        if !low {
          got := Got(nb, nb.size, Own);
        } else if pool.count == 0 {
          got := NoSlot(nb);
        } else {
          var slot := pool.Take();
          pending := slot;
          got := Got(nb, if nb.size < RX_BUF_SIZE then nb.size else RX_BUF_SIZE, Bounce(slot));
        }
    }

    /** The end of a refill iteration that posted a buffer ... */
    method Commit(id: nat)
      requires Wf() && id < pool.nbDesc
      modifies Repr()
      ensures Abs() == CommitSlot(old(Abs()), id) && Wf() && pending == -1
    {
      CommitMoves(Abs(), id);
      PendingBounds(Abs());
      hide Apart;
      pool.Name(id, pending);
      pending := -1;
    }

    /** ... and of one whose submit failed. */
    method Rollback()
      requires Wf()
      modifies Repr()
      ensures Abs() == RollbackSlot(old(Abs())) && Wf() && pending == -1
    {
      RollbackMoves(Abs());
      if pending >= 0 {
        var slot := pending;
        PendingRoom(Abs());
        hide Apart;
        pool.Give(slot);
      }
      pending := -1;
    }

    /** Give back the slot mapped to a request, if any. */
    method Unmap(id: nat)
      requires Wf() && pending == -1
      modifies Repr()
      ensures Abs() == old(Abs()).(slots := B.Unmap(old(Abs()).slots, id)) && Wf() && pending == -1
    {
      UnmapMoves(Abs(), id);
      ApartSlots(Abs());
      hide Apart, B.Apart;
      pool.Unmap(id);
    }
  }

  lemma PendingRoom(q: Rxq)
    requires Apart(q) && q.pending >= 0
    ensures q.slots.free.count < |q.slots.map_| && q.pending < |q.slots.map_|
  {
    var x: nat := q.pending;
    assert B.UsedOne(q.pending) == multiset{x};
    B.GiveMoves(q.slots, x);
  }

  // ---- the ring ----

  /** `struct ena_rx_buffer`. */
  datatype RxBuf = RxBuf(netbuf: Ptr, dataLen: nat, addr: Addr)

  const EMPTY := RxBuf(Null, 0, NoAddr)

  ghost function Netbufs(b: seq<RxBuf>): (r: seq<Ptr>)
    ensures |r| == |b|
  {
    seq(|b|, i requires 0 <= i < |b| => b[i].netbuf)
  }

  ghost function Lens(b: seq<RxBuf>): (r: seq<nat>)
    ensures |r| == |b|
  {
    seq(|b|, i requires 0 <= i < |b| => b[i].dataLen)
  }

  ghost function Addrs(b: seq<RxBuf>): (r: seq<Addr>)
    ensures |r| == |b|
  {
    seq(|b|, i requires 0 <= i < |b| => b[i].addr)
  }

  lemma BufsUpdate(b: seq<RxBuf>, i: nat, x: RxBuf)
    requires i < |b|
    ensures Netbufs(b[i := x]) == Netbufs(b)[i := x.netbuf]
    ensures Lens(b[i := x]) == Lens(b)[i := x.dataLen]
    ensures Addrs(b[i := x]) == Addrs(b)[i := x.addr]
  {
  }

  lemma BufsEmpty(n: nat)
    ensures Netbufs(Fill(n, EMPTY)) == Fill(n, Null)
    ensures Lens(Fill(n, EMPTY)) == Fill(n, 0)
    ensures Addrs(Fill(n, EMPTY)) == Fill(n, NoAddr)
  {
  }

  class Ring {
    const sqDepth: nat
    const cqDepth: nat
    const pool: Pool
    const inFlight: array<bool>   // req_in_flight
    const bufs: array<RxBuf>
    const sq: array<RxDesc>
    var sqTail: nat
    var sqPhase: nat
    const cq: array<RxCdesc>      // completion memory, written by the device
    var cqHead: nat
    var cqPhase: nat
    var hwValid: bool
    ghost var log: Log

    ghost function Repr(): set<object> {
      {this, inFlight, bufs, sq} + pool.Repr()
    }

    ghost function Abs(): Rx
      reads Repr()
    {
      Rx(sqDepth, cqDepth, pool.Abs(), inFlight[..], Netbufs(bufs[..]), Lens(bufs[..]), Addrs(bufs[..]),
         sq[..], sqTail, sqPhase, cqHead, cqPhase, hwValid, log)
    }

    /** Well-shaped at every point of a locked section. */
    ghost predicate Wf()
      reads Repr()
    {
      && pool.Wf() && pool.depth == sqDepth && pool.Repr() !! {this, inFlight, bufs, sq}
      && cq.Length == cqDepth && cq !in Repr()
      && Shape(Abs())
    }

    /** `ena_ring_alloc` once the depths are accepted. */
    constructor (sqDepth: nat, cqDepth: nat)
      requires DepthOk(sqDepth) && DepthOk(cqDepth)
      ensures Abs() == Init(sqDepth, cqDepth) && Wf() && fresh(Repr()) && fresh(cq)
      ensures cq[..] == Fill(cqDepth, Cdesc(0, 0, RxBody(0, 0, false, false)))
    {
      hide FullPool, IsPow2, Fill, Netbufs, Lens, Addrs;
      var ids := new Pool(sqDepth);
      var flags := NewFilled(sqDepth, false);
      var tracking := NewFilled(sqDepth, EMPTY);
      var descs := NewFilled(sqDepth, RxDesc(0, 0, 0, NoAddr));
      var memory := NewFilled(cqDepth, Cdesc(0, 0, RxBody(0, 0, false, false)));
      ghost var arrays: set<object> := {flags as object, tracking, descs};
      assert ids.Repr() !! arrays && memory !in arrays + ids.Repr();
      this.sqDepth, this.cqDepth := sqDepth, cqDepth;
      pool, inFlight, bufs, sq, cq := ids, flags, tracking, descs, memory;
      sqTail, sqPhase := 0, 1;
      cqHead, cqPhase := 0, 1;
      hwValid := true;
      log := Log([], [], 0);
      new;
      hide Shape;
      BufsEmpty(sqDepth);
      assert Repr() == {this} + arrays + ids.Repr();
    }

    /** `ena_ring_req_id_free` with its slot clearing. */
    method ReqIdFree(id: nat)
      requires Wf()
      modifies Repr()
      ensures Abs() == FreeId(old(Abs()), id) && Wf()
    {
      ghost var s := Abs();
      assert bufs.Length == sqDepth;
      hide Shape, Netbufs, Lens, Addrs;
      var res := pool.Free(id);
      if res == Freed {
        BufsUpdate(bufs[..], id, EMPTY);
        bufs[id] := EMPTY;
        assert bufs[..] == old(bufs[..])[id := EMPTY];
      } else if res == Rejected {
        log := log.(faults := log.faults + 1);
      }
      assert Abs() == FreeId(s, id);
    }

    method AdvanceHead()
      requires Wf()
      modifies `cqHead, `cqPhase
      ensures Abs() == AdvanceCq(old(Abs())) && Wf()
    {
      ghost var s := Abs();
      cqHead := (cqHead + 1) % U16;
      if Mask(cqHead, cqDepth) == 0 { cqPhase := 1 - cqPhase; }
      assert Abs() == AdvanceCq(s);
    }

    /** Write a submission descriptor and advance the tail. */
    method PostDesc(d: RxDesc)
      requires IsPow2(sqDepth) && sq.Length == sqDepth && sqPhase <= 1
      modifies sq, `sqTail, `sqPhase
      ensures sq[..] == old(sq[..])[old(sqTail) % sqDepth := d]
      ensures sqTail == (old(sqTail) + 1) % U16
      ensures sqPhase == if sqTail % sqDepth == 0 then 1 - old(sqPhase) else old(sqPhase)
    {
      sq[Mask(sqTail, sqDepth)] := d;
      sqTail := (sqTail + 1) % U16;
      if Mask(sqTail, sqDepth) == 0 { sqPhase := 1 - sqPhase; }
    }

    /** Record a buffer under a request and mark it in flight. */
    method Track(id: nat, b: RxBuf)
      requires id < bufs.Length == inFlight.Length
      modifies inFlight, bufs
      ensures inFlight[..] == old(inFlight[..])[id := true]
      ensures Netbufs(bufs[..]) == old(Netbufs(bufs[..]))[id := b.netbuf]
      ensures Lens(bufs[..]) == old(Lens(bufs[..]))[id := b.dataLen]
      ensures Addrs(bufs[..]) == old(Addrs(bufs[..]))[id := b.addr]
    {
      hide Netbufs, Lens, Addrs;
      BufsUpdate(bufs[..], id, b);
      inFlight[id] := true;
      bufs[id] := b;
      assert bufs[..] == old(bufs[..])[id := b];
    }

    /** `ena_rx_submit_one`. */
    method Submit(nb: Netbuf, len: nat, addr: Addr) returns (r: SubmitResult)
      requires Wf()
      modifies Repr()
      ensures (Abs(), r) == SubmitOne(old(Abs()), nb, len, addr) && Wf()
    {
      if !hwValid { return Failed(ENODEV); }
      if len == 0 || len > 0xFFFF { return Failed(EINVAL); }
      ghost var s := Abs();
      assert s.ids.free.count > 0 ==> s.ids.free.Front() < sqDepth;
      assert bufs.Length == inFlight.Length == sq.Length == sqDepth && IsPow2(sqDepth) && sqPhase <= 1;
      hide Shape, IsPow2, Netbufs, Lens, Addrs;
      r := pool.Alloc();
      if r.Failed? { return; }
      var id := r.reqId;
      Track(id, RxBuf(Buf(nb), len, addr));
      PostDesc(RxDesc(len, sqPhase, id, addr));
      assert Abs() == SubmitOne(s, nb, len, addr).0;
    }

    /** The allocator handed out a buffer. */
    ghost method NoteTaken(nb: Netbuf)
      requires Wf()
      modifies `log
      ensures Abs() == LogTaken(old(Abs()), nb) && Wf()
    {
      log := log.(taken := log.taken + [nb]);
    }

    /** A buffer went back to its allocator. */
    ghost method NoteReleased(nb: Netbuf)
      requires Wf()
      modifies `log
      ensures Abs() == LogReleased(old(Abs()), nb) && Wf()
    {
      log := log.(gone := log.gone + [Released(nb)]);
    }

    /** The netdev layer decided about a polled buffer. */
    ghost method NoteFate(fate: Fate)
      requires Wf()
      modifies `log
      ensures Abs() == LogFate(old(Abs()), fate) && Wf()
    {
      log := log.(gone := log.gone + [fate]);
    }

    /** The drop of an oversize packet, up to its bounce slot. */
    method DropOne(id: nat)
      requires Wf() && id < sqDepth
      modifies Repr()
      ensures Abs() == DropReq(old(Abs()), id) && Wf()
    {
      ghost var s := Abs();
      ghost var b := bufs[..];
      hide Netbufs, Lens, Addrs;
      BufsUpdate(b, id, bufs[id].(netbuf := Null));
      BufsAt(b, id);
      if bufs[id].netbuf.Buf? {
        log := log.(gone := log.gone + [Released(bufs[id].netbuf.nb)]);
        bufs[id] := bufs[id].(netbuf := Null);
      }
      assert bufs[..] == b[id := b[id].(netbuf := Null)];
      assert Abs() == s.(slots := s.slots[id := Null], log := s.log.(gone := s.log.gone + Releases(s.slots[id])));
      hide Shape;
      ReqIdFree(id);
    }

    method DeliverOne(id: nat) returns (b: RxBuf)
      requires Wf() && id < sqDepth
      modifies Repr()
      ensures Abs() == DeliverReq(old(Abs()), id) && Wf()
      ensures b.netbuf == old(Abs()).slots[id]
    {
      ghost var s := Abs();
      b := bufs[id];
      inFlight[id] := false;
      assert Abs() == s.(inFlight := s.inFlight[id := false]);
      hide Shape;
      ReqIdFree(id);
    }

    /** Release every buffer still held and clear its slot. */
    method DropHeld()
      requires bufs.Length == sqDepth
      modifies bufs, `log
      ensures Netbufs(bufs[..]) == Fill(sqDepth, Null)
      ensures Lens(bufs[..]) == Cleared(old(Netbufs(bufs[..])), old(Lens(bufs[..])), 0)
      ensures Addrs(bufs[..]) == Cleared(old(Netbufs(bufs[..])), old(Addrs(bufs[..])), NoAddr)
      ensures log == old(log).(gone := old(log).gone + ResetFates(old(Netbufs(bufs[..]))))
    {
      ghost var was := bufs[..];
      for i := 0 to sqDepth
        invariant bufs.Length == sqDepth == |was|
        invariant forall k :: 0 <= k < i ==> bufs[k] == if was[k].netbuf.Buf? then EMPTY else was[k]
        invariant forall k :: i <= k < sqDepth ==> bufs[k] == was[k]
        invariant log == old(log).(gone := old(log).gone + ResetFates(Netbufs(was)[..i]))
      {
        FatesStep(Netbufs(was), i);
        if bufs[i].netbuf.Buf? {
          log := log.(gone := log.gone + [Released(bufs[i].netbuf.nb)]);
          bufs[i] := EMPTY;
        }
      }
      assert Netbufs(was)[..sqDepth] == Netbufs(was);
    }

    method ClearInFlight()
      modifies inFlight
      ensures inFlight[..] == Fill(inFlight.Length, false)
    {
      for i := 0 to inFlight.Length
        invariant forall k :: 0 <= k < i ==> !inFlight[k]
      {
        inFlight[i] := false;
      }
    }

    /** `ena_ring_reset_sw_state`. */
    method ResetSwState()
      requires Wf()
      modifies Repr()
      ensures Abs() == Reset(old(Abs())) && Wf()
    {
      ghost var s := Abs();
      assert bufs.Length == inFlight.Length == sqDepth;
      hide Shape, FullPool, Fill, IsPow2, ResetFates, Cleared, Netbufs, Lens, Addrs;
      pool.Refill();
      DropHeld();
      ClearInFlight();
      hwValid := false;
      sqTail, cqHead, sqPhase, cqPhase := 0, 0, 1, 1;
      assert Abs() == Reset(s);
    }
  }

  lemma FatesStep(slots: seq<Ptr>, i: nat)
    requires i < |slots|
    ensures ResetFates(slots[..i + 1]) == ResetFates(slots[..i]) + Releases(slots[i])
  {
    assert slots[..i + 1][..i] == slots[..i];
  }

  lemma BufsAt(b: seq<RxBuf>, i: nat)
    requires i < |b|
    ensures Netbufs(b)[i] == b[i].netbuf && Lens(b)[i] == b[i].dataLen && Addrs(b)[i] == b[i].addr
    ensures Lens(b)[i := b[i].dataLen] == Lens(b) && Addrs(b)[i := b[i].addr] == Addrs(b)
  {
  }

  // ---- ring and queue together ----

  ghost function NetOf(ring: Ring, rxq: RxQueue): Net
    reads ring.Repr(), rxq.Repr()
  {
    Net(ring.Abs(), rxq.Abs())
  }

  ghost predicate Together(ring: Ring, rxq: RxQueue)
    reads ring.Repr(), rxq.Repr()
  {
    && ring.Wf() && rxq.Wf() && rxq.pool.nbDesc == ring.sqDepth
    && ring.Repr() !! rxq.Repr() && ring.cq !in rxq.Repr()
  }

  /** Holds between receive calls. */
  ghost predicate Paired(ring: Ring, rxq: RxQueue)
    reads ring.Repr(), rxq.Repr()
  {
    Together(ring, rxq) && Safe(NetOf(ring, rxq), multiset{})
  }

  /** An oversize packet: its bounce slot, buffer and ID are given back. */
  method DropEntry(ring: Ring, rxq: RxQueue, id: nat)
    requires Together(ring, rxq) && rxq.pending == -1 && id < ring.sqDepth
    modifies ring.Repr(), rxq.Repr()
    ensures ring.Abs() == AdvanceCq(DropReq(old(ring.Abs()), id))
    ensures rxq.Abs() == old(rxq.Abs()).(slots := B.Unmap(old(rxq.Abs()).slots, id))
    ensures Together(ring, rxq) && rxq.pending == -1
  {
    hide Shape, Apart, IsPow2, DropReq, AdvanceCq, B.Unmap, B.Shape;
    rxq.Unmap(id);
    ring.DropOne(id);
    ring.AdvanceHead();
  }

  /** One completion that the poll loop accepts or skips. */
  method HandleEntry(ring: Ring, rxq: RxQueue, e: RxCdesc) returns (v: Verdict, netbuf: Ptr)
    requires Together(ring, rxq) && rxq.pending == -1
    modifies ring.Repr(), rxq.Repr()
    ensures v == Examine(old(ring.Abs()), e)
    ensures NetOf(ring, rxq) == NetHandle(old(NetOf(ring, rxq)), e)
    ensures v == Stop ==> NetOf(ring, rxq) == old(NetOf(ring, rxq))
    ensures Together(ring, rxq) && rxq.pending == -1
    ensures v == Deliver ==> e.reqId < ring.sqDepth && netbuf == old(ring.Abs()).slots[e.reqId]
  {
    netbuf := Null;
    if e.phase != ring.cqPhase { return Stop, Null; }
    if e.reqId >= ring.sqDepth { return Stop, Null; }
    assert ring.Abs().caps[e.reqId] == ring.bufs[e.reqId].dataLen;
    assert |ring.Abs().inFlight| == ring.sqDepth;
    hide Shape, Apart, IsPow2, FreeId;
    if !ring.inFlight[e.reqId] {
      ring.AdvanceHead();
      return Skip, Null;
    }
    if e.body.len > ring.bufs[e.reqId].dataLen {
      DropEntry(ring, rxq, e.reqId);
      return Oversize, Null;
    }
    var b := ring.DeliverOne(e.reqId);
    ring.AdvanceHead();
    return Deliver, b.netbuf;
  }

  /** The turn of the poll loop that reads the entry at the head. */
  method PollTurn(ring: Ring, rxq: RxQueue, ghost start: Net, ghost max: nat, ghost obs: seq<RxCdesc>, ghost n: nat,
                  ghost got: seq<RxPkt>, ghost lost: nat)
    returns (v: Verdict, pkt: RxPkt)
    requires Together(ring, rxq) && |got| < max && n < |obs| && 0 < ring.cqDepth
    requires obs[n] == ring.cq[(start.rx.cqHead + n) % ring.cqDepth]
    requires Progress(start, NetOf(ring, rxq), max, obs, n, got, lost)
    modifies ring.Repr(), rxq.Repr()
    ensures Together(ring, rxq)
    ensures v == Stop ==>
              && n < |obs| && Examine(ring.Abs(), obs[n]) == Stop
              && Progress(start, NetOf(ring, rxq), max, obs, n, got, lost)
    ensures v != Stop ==>
              && n < Consumed(start.rx, max, obs)
              && Progress(start, NetOf(ring, rxq), max, obs, n + 1, if v == Deliver then got + [pkt] else got,
                          if v == Oversize then lost + 1 else lost)
  {
    hide Shape, Inv, Progress, PollLoop, Consumed, NetLoop, NetHandle, Apart, IsPow2, Examine, TurnGot, TurnLost, PhasesOk;
    ProgressFacts(start, NetOf(ring, rxq), max, obs, n, got, lost);
    DepthFacts(ring.Abs());
    WrapHarmless(start.rx.cqHead + n, ring.cqDepth);
    var e := ring.cq[Mask(ring.cqHead, ring.cqDepth)];
    assert obs[n] == e;
    ghost var was := NetOf(ring, rxq);
    var p: Ptr;
    v, p := HandleEntry(ring, rxq, e);
    pkt := RxPkt(p, e.body.len, e.body.offset, e.reqId, e.body.first, e.body.last);
    if v != Stop {
      ProgressTurn(start, was, max, obs, n, got, lost);
      TurnResult(was.rx, e, pkt, got, lost);
    }
  }

  lemma TurnResult(s: Rx, e: RxCdesc, pkt: RxPkt, got: seq<RxPkt>, lost: nat)
    requires Shape(s)
    requires Examine(s, e) == Deliver ==> pkt == PktOf(s, e)
    ensures got + TurnGot(s, e) == if Examine(s, e) == Deliver then got + [pkt] else got
    ensures lost + TurnLost(s, e) == if Examine(s, e) == Oversize then lost + 1 else lost
  {
  }

  lemma DepthFacts(s: Rx)
    requires Inv(s)
    ensures DepthOk(s.sqDepth) && DepthOk(s.cqDepth)
  {
  }

  /** One iteration: the device's turn, the read, and the packet it yields. */
  method PollRead(ring: Ring, rxq: RxQueue, pkts: array<RxPkt>, k: nat, writes: seq<seq<RxCdesc>>, n: nat,
                  ghost start: Net, ghost max: nat, ghost memory: seq<RxCdesc>, ghost lost: nat)
    returns (v: Verdict)
    requires Together(ring, rxq) && k < max <= pkts.Length && pkts !in ring.Repr() + rxq.Repr()
    requires 0 < |memory| == ring.cqDepth && WritesOk(writes, |memory|) && n <= |writes| + ring.cqDepth
    requires n >= |writes| ==> ring.cq[..] == MemoryAt(memory, writes, n)
    requires Progress(start, NetOf(ring, rxq), max, Reads(memory, writes, start.rx.cqHead), n, pkts[..k], lost)
    modifies ring.Repr(), rxq.Repr(), pkts, ring.cq
    ensures Together(ring, rxq) && (n + 1 >= |writes| ==> ring.cq[..] == MemoryAt(memory, writes, n + 1))
    ensures var obs := Reads(memory, writes, start.rx.cqHead);
            if v == Stop then
              Examine(ring.Abs(), obs[n]) == Stop && Progress(start, NetOf(ring, rxq), max, obs, n, pkts[..k], lost)
            else
              && n < Consumed(start.rx, max, obs)
              && Progress(start, NetOf(ring, rxq), max, obs, n + 1, pkts[..if v == Deliver then k + 1 else k],
                          if v == Oversize then lost + 1 else lost)
  {
    hide Shape, Inv, Progress, PollLoop, Consumed, NetLoop, Examine, Apart, Reads, MemoryAt, IsPow2;
    DeviceWrites(ring.cq, memory, writes, n);
    ReadsAt(memory, writes, start.rx.cqHead, n);
    ghost var got := pkts[..k];
    var pkt;
    v, pkt := PollTurn(ring, rxq, start, max, Reads(memory, writes, start.rx.cqHead), n, got, lost);
    if v == Deliver {
      pkts[k] := pkt;
      assert pkts[..k + 1] == got + [pkt];
    }
  }

  /** The locked section of `ena_rx_poll`, with the device rewriting the
      completion memory before its first reads. */
  method PollEntries(ring: Ring, rxq: RxQueue, pkts: array<RxPkt>, max: nat, writes: seq<seq<RxCdesc>>)
    returns (rcvd: nat, dropped: nat)
    requires Paired(ring, rxq) && pkts.Length >= max && WritesOk(writes, ring.cqDepth)
    requires pkts !in ring.Repr() + rxq.Repr()
    modifies ring.Repr(), rxq.Repr(), pkts, ring.cq
    ensures Together(ring, rxq) && rcvd <= max
    ensures var seen := Reads(old(ring.cq[..]), writes, old(ring.cqHead));
            var net := old(NetOf(ring, rxq));
            && Apart(net.q) && net.q.pending == -1
            && (ring.Abs(), pkts[..rcvd], dropped) == PollLoop(net.rx, max, seen)
            && NetOf(ring, rxq) == NetLoop(net, max, seen)
  {
    hide Shape, Inv, Progress, PollLoop, Consumed, NetLoop, Examine, Apart, Safe, PhasesOk, Reads, MemoryAt, IsPow2;
    ghost var start := NetOf(ring, rxq);
    SafeParts(start, multiset{});
    SafePhases(start);
    DepthFacts(start.rx);
    ghost var memory := ring.cq[..];
    ghost var obs := Reads(memory, writes, ring.cqHead);
    PollEnds(start.rx, max, memory, writes);
    ProgressStart(start, max, obs);
    rcvd, dropped := 0, 0;
    var n := 0;
    assert pkts[..0] == [];
    while rcvd < max
      invariant Together(ring, rxq) && rcvd <= max && 0 <= n <= |writes| + ring.cqDepth
      invariant n >= |writes| ==> ring.cq[..] == MemoryAt(memory, writes, n)
      invariant Progress(start, NetOf(ring, rxq), max, obs, n, pkts[..rcvd], dropped)
      decreases |writes| + ring.cqDepth - n
    {
      var v := PollRead(ring, rxq, pkts, rcvd, writes, n, start, max, memory, dropped);
      if v == Stop { break; }
      n := n + 1;
      if v == Oversize { dropped := dropped + 1; }
      if v == Deliver { rcvd := rcvd + 1; }
    }
    ProgressEnd(start, NetOf(ring, rxq), max, obs, n, pkts[..rcvd], dropped);
  }

  lemma SafePhases(n: Net)
    requires Safe(n, multiset{})
    ensures PhasesOk(n.rx)
  {
  }

  /** One iteration of the refill loop. */
  method RefillOnce(ring: Ring, rxq: RxQueue, offer: Offer) returns (more: bool)
    requires Paired(ring, rxq)
    modifies ring.Repr(), rxq.Repr()
    ensures Paired(ring, rxq) && (NetOf(ring, rxq), more) == RefillOne(old(NetOf(ring, rxq)), offer)
  {
    hide Safe, Apart, SubmitOne, IsPow2, Shape, CommitSlot, RollbackSlot, LogReleased, LogTaken, B.Shape;
    hide Netbufs, Lens, Addrs;
    ghost var n := NetOf(ring, rxq);
    SafeParts(n, multiset{});
    RefillOneSafe(n, offer);
    AllocMoves(n.q, offer);
    var got := TakeBuffer(ring, rxq, offer);
    more := false;
    if got.Got? { more := PostBuffer(ring, rxq, got.nb, got.len, got.addr); }
  }

  /** Ask the allocator for a buffer. */
  method TakeBuffer(ring: Ring, rxq: RxQueue, offer: Offer) returns (got: Alloc)
    requires Together(ring, rxq) && rxq.pending == -1
    modifies ring`log, rxq.Repr()
    ensures Together(ring, rxq) && (rxq.Abs(), got) == AllocHelper(old(rxq.Abs()), offer)
    ensures ring.Abs() == match got
                          case NoAlloc => old(ring.Abs())
                          case NoSlot(nb) => LogReleased(LogTaken(old(ring.Abs()), nb), nb)
                          case Got(nb, _, _) => LogTaken(old(ring.Abs()), nb)
  {
    hide Apart, IsPow2, Shape, AllocHelper, LogReleased, LogTaken, B.Shape, Netbufs, Lens, Addrs;
    got := rxq.AllocNetbuf(offer);
    if !got.NoAlloc? { ring.NoteTaken(got.nb); }
    if got.NoSlot? { ring.NoteReleased(got.nb); }
  }

  /** Post a buffer, then settle its bounce slot. */
  method PostBuffer(ring: Ring, rxq: RxQueue, nb: Netbuf, len: nat, addr: Addr) returns (more: bool)
    requires Together(ring, rxq)
    modifies ring.Repr(), rxq.Repr()
    ensures Together(ring, rxq) && rxq.pending == -1
    ensures var (t, res) := SubmitOne(old(ring.Abs()), nb, len, addr);
            && more == res.Sent?
            && (res.Sent? ==>
                res.reqId < ring.sqDepth && ring.Abs() == t && rxq.Abs() == CommitSlot(old(rxq.Abs()), res.reqId))
            && (res.Failed? ==> ring.Abs() == LogReleased(t, nb) && rxq.Abs() == RollbackSlot(old(rxq.Abs())))
  {
    SentId(ring.Abs(), nb, len, addr);
    hide Apart, SubmitOne, IsPow2, Shape, CommitSlot, RollbackSlot, LogReleased, B.Shape, Netbufs, Lens, Addrs;
    var res := ring.Submit(nb, len, addr);
    SettleSlot(ring, rxq, res, nb);
    more := res.Sent?;
  }

  method SettleSlot(ring: Ring, rxq: RxQueue, res: SubmitResult, nb: Netbuf)
    requires Together(ring, rxq) && (res.Sent? ==> res.reqId < ring.sqDepth)
    modifies ring`log, rxq.Repr()
    ensures Together(ring, rxq) && rxq.pending == -1
    ensures ring.Abs() == if res.Sent? then old(ring.Abs()) else LogReleased(old(ring.Abs()), nb)
    ensures res.Sent? ==> rxq.Abs() == CommitSlot(old(rxq.Abs()), res.reqId)
    ensures res.Failed? ==> rxq.Abs() == RollbackSlot(old(rxq.Abs()))
  {
    hide Apart, IsPow2, Shape, CommitSlot, RollbackSlot, LogReleased, B.Shape, Netbufs, Lens, Addrs;
    match res
    case Sent(id) => rxq.Commit(id);
    case Failed(_) =>
      ring.NoteReleased(nb);
      rxq.Rollback();
  }

  lemma SentId(s: Rx, nb: Netbuf, len: nat, addr: Addr)
    requires Shape(s)
    ensures var r := SubmitOne(s, nb, len, addr).1; r.Sent? ==> r.reqId < s.sqDepth
  {
  }

  /** k iterations of the refill loop lead from a to b. */
  ghost predicate Refilled(a: Net, b: Net, want: nat, offers: seq<Offer>, k: nat)
    requires Safe(a, multiset{}) && Safe(b, multiset{})
  {
    && k <= want && k <= |offers|
    && Refill(a, want, offers).0 == Refill(b, want - k, offers[k..]).0
    && Refill(a, want, offers).1 == Refill(b, want - k, offers[k..]).1 + k
  }

  lemma RefillStarts(a: Net, want: nat, offers: seq<Offer>)
    requires Safe(a, multiset{})
    ensures Refilled(a, a, want, offers, 0)
  {
    assert offers[0..] == offers;
  }

  lemma RefillTurn(a: Net, b: Net, want: nat, offers: seq<Offer>, k: nat)
    requires Safe(a, multiset{}) && Safe(b, multiset{}) && Refilled(a, b, want, offers, k)
    requires k < want && k < |offers| && 0 < b.rx.ids.free.count
    ensures var (c, more) := RefillOne(b, offers[k]);
            && Safe(c, multiset{})
            && (more ==> Refilled(a, c, want, offers, k + 1))
            && (!more ==> Refill(a, want, offers) == (c, k))
  {
    hide Safe, Sound, RefillOne, Refill;
    RefillOneSafe(b, offers[k]);
    var rest := offers[k..];
    assert rest[0] == offers[k] && rest[1..] == offers[k + 1..];
    RefillUnfolds(b, want - k, rest);
  }

  lemma RefillUnfolds(n: Net, count: nat, offers: seq<Offer>)
    requires Safe(n, multiset{}) && 0 < count && 0 < n.rx.ids.free.count && offers != []
    ensures var (m, more) := RefillOne(n, offers[0]);
            && Safe(m, multiset{})
            && Refill(n, count, offers) ==
               if more then var (u, k) := Refill(m, count - 1, offers[1..]); (u, k + 1) else (m, 0)
  {
    hide Safe, Sound, RefillOne;
    RefillOneSafe(n, offers[0]);
  }

  lemma RefillEnds(a: Net, b: Net, want: nat, offers: seq<Offer>, k: nat)
    requires Safe(a, multiset{}) && Safe(b, multiset{}) && Refilled(a, b, want, offers, k)
    requires k == want || k == |offers| || b.rx.ids.free.count == 0
    ensures Refill(a, want, offers) == (b, k)
  {
    hide Safe, RefillOne;
    assert Refill(b, want - k, offers[k..]) == (b, 0);
  }

  /** `ena_rx_refill`; a count of 0 asks for every free ID. */
  method RefillBuffers(ring: Ring, rxq: RxQueue, count: nat, offers: seq<Offer>) returns (refilled: nat)
    requires Paired(ring, rxq)
    modifies ring.Repr(), rxq.Repr()
    ensures Paired(ring, rxq)
    ensures (NetOf(ring, rxq), refilled) ==
            Refill(old(NetOf(ring, rxq)), if count == 0 then old(ring.pool.count) else count, offers)
  {
    hide Safe, RefillOne, Refill, Refilled, Shape, Apart, IsPow2;
    ghost var start := NetOf(ring, rxq);
    var want := if count == 0 then ring.pool.count else count;
    RefillStarts(start, want, offers);
    refilled := 0;
    while refilled < want && ring.pool.count > 0 && refilled < |offers|
      invariant Paired(ring, rxq) && refilled <= want && refilled <= |offers|
      invariant Refilled(start, NetOf(ring, rxq), want, offers, refilled)
    {
      RefillTurn(start, NetOf(ring, rxq), want, offers, refilled);
      var more := RefillOnce(ring, rxq, offers[refilled]);
      if !more { return; }
      refilled := refilled + 1;
    }
    RefillEnds(start, NetOf(ring, rxq), want, offers, refilled);
  }

  /** The receive loop on one polled packet. */
  method TakePacket(ring: Ring, rxq: RxQueue, pkt: RxPkt) returns (passed: bool)
    requires Together(ring, rxq) && rxq.pending == -1
    modifies ring`log, rxq.Repr()
    ensures Together(ring, rxq) && rxq.pending == -1
    ensures NetOf(ring, rxq) == Take(old(NetOf(ring, rxq)), pkt)
    ensures passed <==> pkt.netbuf.Buf? && FateOf(old(rxq.Abs()), pkt, pkt.netbuf.nb).Passed?
  {
    hide Apart, IsPow2, Shape, B.Unmap, B.Shape, Netbufs, Lens, Addrs;
    match pkt.netbuf
    case Null => passed := false;
    case Buf(nb) =>
      var bounced := pkt.reqId < rxq.pool.nbDesc && rxq.pool.slotOf[pkt.reqId] >= 0;
      passed := Fits(pkt, nb, bounced);
      ring.NoteFate(FateOf(rxq.Abs(), pkt, nb));
      rxq.Unmap(pkt.reqId);
  }

  /** One pass of the receive loop of `ena_netdev_rxq_recv`: poll one packet
      and take it. `passed` tells that its buffer goes up to the stack. */
  method ReceiveOne(ring: Ring, rxq: RxQueue, writes: seq<seq<RxCdesc>>)
    returns (pkts: seq<RxPkt>, dropped: nat, passed: bool)
    requires Paired(ring, rxq) && WritesOk(writes, ring.cqDepth)
    modifies ring.Repr(), rxq.Repr(), ring.cq
    ensures Paired(ring, rxq)
    ensures (NetOf(ring, rxq), pkts, dropped) ==
            Receive(old(NetOf(ring, rxq)), Reads(old(ring.cq[..]), writes, old(ring.cqHead)))
    ensures passed ==> pkts != []
  {
    hide Safe, Apart, IsPow2, Shape, Inv, Reads, B.Unmap, B.Shape, Netbufs, Lens, Addrs, PollLoop, NetLoop, Take;
    ghost var n := NetOf(ring, rxq);
    SafeParts(n, multiset{});
    DepthFacts(n.rx);
    ReceiveSafe(n, Reads(ring.cq[..], writes, ring.cqHead));
    if !ring.hwValid { return [], 0, false; }
    var one := new RxPkt[1](_ => RxPkt(Null, 0, 0, 0, false, false));
    var rcvd, lost := PollEntries(ring, rxq, one, 1, writes);
    pkts, dropped, passed := one[..rcvd], lost, false;
    if rcvd > 0 { passed := TakePacket(ring, rxq, one[0]); }
  }
}
