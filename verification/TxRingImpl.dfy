/** `struct ena_ring` in the TX direction, updated in place. Every method is
    proved equal to the function of the same section in `TxRing`. */
module TxRingImpl {
  import opened Bits
  import opened RingTypes
  import opened RequestIds
  import opened RequestIdPool
  import opened TxRing
  import opened TxRuns
  import opened TxTheorems
  import opened TxNetdev
  import opened TxQueueImpl
  import B = BounceSlots

  ghost const NO_QUEUE := Txq(B.Init(1), false, 0)

  /** One turn of the poll loop, in its three readings. */
  ghost function NextTx(s: Tx, cpu: nat, e: TxCdesc): (t: Tx)
    requires Shape(s) && Examine(s, e) != Stop
    ensures Follows(s, t)
  {
    if Examine(s, e) == Skip then AdvanceCq(s) else AdvanceCq(CompleteReq(s, cpu, e))
  }

  ghost function NextQueue(s: Tx, q: Txq, e: TxCdesc): Txq
    requires Shape(s) && B.Shape(q.slots)
  {
    if Examine(s, e) == Complete then ReclaimSlot(q, e.reqId) else q
  }

  ghost function Cost(s: Tx, e: TxCdesc): nat
    requires Shape(s)
  {
    if Examine(s, e) == Complete then 1 else 0
  }

  lemma TurnKeeps(s: Tx, q: Txq, cpu: nat, e: TxCdesc)
    requires Good(s) && B.Apart(q.slots) && Examine(s, e) != Stop
    ensures Good(NextTx(s, cpu, e)) && NextTx(s, cpu, e).cqHead == (s.cqHead + 1) % U16
    ensures B.Apart(NextQueue(s, q, e).slots)
  {
    hide Good, Shape, CompleteReq, B.Apart;
    B.UnmapMoves(q.slots, e.reqId);
    if Examine(s, e) == Skip {
      AdvanceKeeps(s);
    } else {
      CompleteGood(s, cpu, e);
      CompleteKeepsHead(s, cpu, e);
      AdvanceKeeps(CompleteReq(s, cpu, e));
    }
  }

  lemma TurnUnfolds(s: Tx, q: Txq, cpu: nat, budget: nat, obs: seq<TxCdesc>)
    requires Shape(s) && B.Apart(q.slots) && 0 < budget && obs != [] && Examine(s, obs[0]) != Stop
    requires B.Apart(NextQueue(s, q, obs[0]).slots)
    ensures var t, r, left := NextTx(s, cpu, obs[0]), NextQueue(s, q, obs[0]), budget - Cost(s, obs[0]);
            && PollLoop(s, cpu, budget, obs).0 == PollLoop(t, cpu, left, obs[1..]).0
            && PollLoop(s, cpu, budget, obs).1 == PollLoop(t, cpu, left, obs[1..]).1 + Cost(s, obs[0])
            && Consumed(s, cpu, budget, obs) == 1 + Consumed(t, cpu, left, obs[1..])
            && NetLoop(Net(s, q), cpu, budget, obs) == NetLoop(Net(t, r), cpu, left, obs[1..])
  {
    hide CompleteReq, AdvanceCq, ReclaimSlot, B.Apart, B.Shape, Shape;
  }

  /** The loop ends at an entry it does not accept, or out of budget. */
  lemma LastTurn(s: Tx, q: Txq, cpu: nat, budget: nat, obs: seq<TxCdesc>)
    requires Shape(s) && B.Apart(q.slots) && (budget == 0 || (obs != [] && Examine(s, obs[0]) == Stop))
    ensures PollLoop(s, cpu, budget, obs) == (s, 0)
    ensures NetLoop(Net(s, q), cpu, budget, obs) == Net(s, q)
    ensures Consumed(s, cpu, budget, obs) == 0
  {
  }

  /** n turns lead from a to b and leave budget `left`. */
  ghost predicate Progress(a: Net, b: Net, cpu: nat, budget: nat, left: nat, obs: seq<TxCdesc>, n: nat) {
    && Good(a.tx) && Good(b.tx) && B.Apart(a.q.slots) && B.Apart(b.q.slots)
    && left <= budget && n <= |obs|
    && b.tx.cqHead == (a.tx.cqHead + n) % U16
    && PollLoop(a.tx, cpu, budget, obs).0 == PollLoop(b.tx, cpu, left, obs[n..]).0
    && PollLoop(a.tx, cpu, budget, obs).1 == PollLoop(b.tx, cpu, left, obs[n..]).1 + (budget - left)
    && Consumed(a.tx, cpu, budget, obs) == n + Consumed(b.tx, cpu, left, obs[n..])
    && NetLoop(a, cpu, budget, obs) == NetLoop(b, cpu, left, obs[n..])
  }

  lemma ProgressStart(a: Net, cpu: nat, budget: nat, obs: seq<TxCdesc>)
    requires Good(a.tx) && B.Apart(a.q.slots)
    ensures Progress(a, a, cpu, budget, budget, obs, 0)
  {
    assert obs[0..] == obs;
  }

  lemma ProgressFacts(a: Net, b: Net, cpu: nat, budget: nat, left: nat, obs: seq<TxCdesc>, n: nat)
    requires Progress(a, b, cpu, budget, left, obs, n)
    ensures Good(b.tx) && B.Apart(b.q.slots) && left <= budget && n <= |obs| && DepthOk(b.tx.cqDepth)
    ensures b.tx.cqHead == (a.tx.cqHead + n) % U16
  {
  }

  lemma ProgressTurn(a: Net, b: Net, cpu: nat, budget: nat, left: nat, obs: seq<TxCdesc>, n: nat)
    requires Progress(a, b, cpu, budget, left, obs, n) && 0 < left && n < |obs| && Examine(b.tx, obs[n]) != Stop
    ensures var c := Net(NextTx(b.tx, cpu, obs[n]), NextQueue(b.tx, b.q, obs[n]));
            Progress(a, c, cpu, budget, left - Cost(b.tx, obs[n]), obs, n + 1)
    ensures n < Consumed(a.tx, cpu, budget, obs)
  {
    hide Good, Shape, PollLoop, Consumed, NetLoop, NextTx, NextQueue, B.Apart;
    var rest := obs[n..];
    assert rest[0] == obs[n] && rest[1..] == obs[n + 1..];
    TurnKeeps(b.tx, b.q, cpu, obs[n]);
    TurnUnfolds(b.tx, b.q, cpu, left, rest);
  }

  lemma ProgressEnd(a: Net, b: Net, cpu: nat, budget: nat, left: nat, obs: seq<TxCdesc>, n: nat)
    requires Progress(a, b, cpu, budget, left, obs, n)
    requires left == 0 || (n < |obs| && Examine(b.tx, obs[n]) == Stop)
    ensures PollLoop(a.tx, cpu, budget, obs) == (b.tx, budget - left)
    ensures NetLoop(a, cpu, budget, obs) == b
  {
    hide Good, PollLoop, Consumed, NetLoop, B.Apart;
    LastTurn(b.tx, b.q, cpu, left, obs[n..]);
  }

  lemma {:induction false} DrainHead(s: Tx, cpu: nat, i: nat)
    requires Good(s) && i <= s.foreignCount
    ensures Drain(s, cpu, i).cqHead == s.cqHead
    decreases s.foreignCount - i
  {
    if i < s.foreignCount {
      if s.foreign[i].owner != cpu {
        DrainHead(s, cpu, i + 1);
      } else {
        DrainEntryKeeps(s, cpu, i);
        DrainEntryConserves(s, cpu, i);
        DrainHead(DrainEntry(s, cpu, i), cpu, i);
      }
    }
  }

  method NewArrays(sqDepth: nat, cqDepth: nat)
    returns (flags: array<bool>, bufs: array<Ptr>, later: array<Deferred>, descs: array<Desc>, memory: array<TxCdesc>)
    ensures fresh(flags) && flags[..] == Fill(sqDepth, false)
    ensures fresh(bufs) && bufs[..] == Fill(sqDepth, Null)
    ensures fresh(later) && later[..] == Fill(sqDepth, Deferred(0, 0))
    ensures fresh(descs) && descs[..] == Fill(sqDepth, Desc(0, 0))
    ensures fresh(memory) && memory[..] == Fill(cqDepth, Cdesc(0, 0, 0))
    ensures memory as object !in {flags as object, bufs, later, descs}
  {
    flags := NewFilled(sqDepth, false);
    bufs := NewFilled(sqDepth, Null);
    later := NewFilled(sqDepth, Deferred(0, 0));
    descs := NewFilled(sqDepth, Desc(0, 0));
    memory := NewFilled(cqDepth, Cdesc(0, 0, 0));
  }

  class Ring {
    const sqDepth: nat
    const cqDepth: nat
    const pool: Pool
    const inFlight: array<bool>   // req_in_flight
    const slots: array<Ptr>       // tx_bufs[].netbuf
    const foreign: array<Deferred>
    var foreignCount: nat
    const sq: array<Desc>
    var sqTail: nat
    var sqHead: nat
    var sqPhase: nat
    const cq: array<TxCdesc>      // completion memory, written by the device
    var cqHead: nat
    var cqPhase: nat
    var owner: nat
    var hwValid: bool
    const callback: TxQueue?      // tx_complete_arg; null when no callback is set
    ghost var log: Log

    ghost function Repr(): set<object> {
      {this, inFlight, slots, foreign, sq} + pool.Repr()
    }

    ghost function Abs(): Tx
      reads Repr()
    {
      Tx(sqDepth, cqDepth, pool.Abs(),
         inFlight[..], slots[..], foreign[..], foreignCount, sq[..], sqTail, sqHead, sqPhase,
         cqHead, cqPhase, owner, hwValid, log)
    }

    /** Well-shaped at every point of a locked section. */
    ghost predicate Wf()
      reads Repr()
    {
      && pool.Wf() && pool.depth == sqDepth && pool.Repr() !! {this, inFlight, slots, foreign, sq}
      && cq.Length == cqDepth && cq !in Repr()
      && Shape(Abs())
    }

    ghost function CallbackRepr(): set<object> {
      if callback == null then {} else callback.Repr()
    }

    /** The queue behind the completion callback is a separate object. */
    ghost predicate CallbackOk()
      reads CallbackRepr()
    {
      && CallbackRepr() !! Repr() && cq !in CallbackRepr()
      && (callback != null ==> callback.Valid())
      && B.Apart(CallbackAbs().slots)
    }

    /** The queue the callback updates; an empty one when there is none. */
    ghost function CallbackAbs(): Txq
      reads CallbackRepr()
    {
      if callback == null then NO_QUEUE else callback.Abs()
    }

    /** Holds whenever the ring lock is free. */
    ghost predicate Valid()
      reads Repr()
    {
      Wf() && Good(Abs())
    }

    /** `ena_ring_alloc` once the depths are accepted. */
    constructor (sqDepth: nat, cqDepth: nat, callback: TxQueue?)
      requires DepthOk(sqDepth) && DepthOk(cqDepth)
      ensures Abs() == Init(sqDepth, cqDepth) && Wf()
      ensures cq[..] == Fill(cqDepth, Cdesc(0, 0, 0)) && fresh(Repr()) && fresh(cq)
      ensures this.callback == callback
    {
      hide FullPool, IsPow2, Fill;
      var ids := new Pool(sqDepth);
      var flags, bufs, later, descs, memory := NewArrays(sqDepth, cqDepth);
      ghost var arrays: set<object> := {flags, bufs, later, descs};
      this.sqDepth, this.cqDepth, this.callback := sqDepth, cqDepth, callback;
      pool, inFlight, slots, foreign, sq, cq := ids, flags, bufs, later, descs, memory;
      foreignCount := 0;
      sqTail, sqHead, sqPhase := 0, 0, 1;
      cqHead, cqPhase := 0, 1;
      owner := NO_CPU;
      hwValid := true;
      log := Log([], [], [], 0);
      new;
      hide Shape;
      assert Repr() == {this} + arrays + ids.Repr();
    }

    /** `ena_ring_req_id_free` with its slot clearing. */
    method ReqIdFree(id: nat) returns (errno: nat)
      requires Wf()
      modifies Repr()
      ensures Abs() == FreeId(old(Abs()), id) && Wf()
      ensures errno == if old(Abs()).ids.Free(id).0 == Rejected then EINVAL else 0
    {
      ghost var s := Abs();
      assert slots.Length == sqDepth;
      hide Shape;
      var res := pool.Free(id);
      errno := 0;
      if res == Freed {
        slots[id] := Null;
        assert slots[..] == s.slots[id := Null];
      } else if res == Rejected {
        errno := EINVAL;
        log := log.(faults := log.faults + 1);
      }
      assert Abs() == FreeId(s, id);
    }

    /** Write a submission descriptor and advance the tail. */
    method PostDesc(d: Desc)
      requires IsPow2(sqDepth) && sq.Length == sqDepth && sqPhase <= 1
      modifies sq, `sqTail, `sqPhase
      ensures sq[..] == old(sq[..])[old(sqTail) % sqDepth := d]
      ensures sqTail == (old(sqTail) + 1) % U16
      ensures sqPhase == if sqTail % sqDepth == 0 then 1 - old(sqPhase) else old(sqPhase)
    {
      sq[Mask(sqTail, sqDepth)] := d;
      sqTail := (sqTail + 1) % U16;
      if Mask(sqTail, sqDepth) == 0 { sqPhase := 1 - sqPhase; }
    }

    /** Record a buffer under a request and mark it in flight. */
    method Track(id: nat, netbuf: Ptr)
      requires id < inFlight.Length == slots.Length
      modifies inFlight, slots
      ensures inFlight[..] == old(inFlight[..])[id := true] && slots[..] == old(slots[..])[id := netbuf]
    {
      inFlight[id] := true;
      slots[id] := netbuf;
    }

    /** The locked section of `ena_tx_submit`. */
    method SubmitUnderLock(cpu: nat, pkt: Pkt) returns (r: SubmitResult)
      requires Wf()
      modifies Repr()
      ensures (Abs(), r) == SubmitLocked(old(Abs()), cpu, pkt) && Wf()
    {
      ghost var s := Abs();
      assert s.ids.free.count > 0 ==> s.ids.free.Front() < sqDepth;
      assert slots.Length == inFlight.Length == sq.Length == sqDepth && IsPow2(sqDepth) && sqPhase <= 1;
      hide Shape, IsPow2;
      r := pool.Alloc();
      if r.Failed? { return; }
      var id := r.reqId;
      hide Encode, One;
      Track(id, pkt.netbuf);
      PostDesc(Encode(id, pkt.len, sqPhase, pkt.offload));
      owner := cpu;
      log := log.(accepted := log.accepted + One(pkt.netbuf));
      assert Abs() == SubmitLocked(s, cpu, pkt).0;
    }

    /** Free the buffer of a request, then the request. */
    method ReclaimReq(id: nat, cpu: nat)
      requires Wf() && id < sqDepth
      modifies Repr()
      ensures Abs() == Reclaim(old(Abs()), id, cpu) && Wf()
    {
      ghost var s := Abs();
      if slots[id].Buf? { log := log.(released := log.released + [OnPoll(slots[id].nb, cpu)]); }
      slots[id] := Null;
      assert slots[..] == s.slots[id := Null];
      ghost var t := Abs();
      assert t == s.(slots := s.slots[id := Null], log := t.log);
      hide Shape;
      var _ := ReqIdFree(id);
    }

    /** `ena_tx_stage_foreign_free`. */
    method StageForeignFree(id: nat, ownerCpu: nat) returns (staged: bool)
      requires Wf() && id < sqDepth
      modifies Repr()
      ensures (staged, Abs()) == Stage(old(Abs()), id, ownerCpu) && Wf()
    {
      ghost var s := Abs();
      if slots[id].Null? { return false; }
      if foreignCount >= sqDepth {
        log := log.(faults := log.faults + 1);
        slots[id] := Null;
        assert slots[..] == s.slots[id := Null];
        return false;
      }
      foreign[foreignCount] := Deferred(id, ownerCpu);
      foreignCount := foreignCount + 1;
      assert foreign[..] == s.foreign[s.foreignCount := Deferred(id, ownerCpu)];
      return true;
    }

    method DrainAt(cpu: nat, i: nat)
      requires Wf() && i < foreignCount
      modifies Repr()
      ensures Abs() == DrainEntry(old(Abs()), cpu, i) && Wf()
    {
      ghost var s := Abs();
      assert s.foreign[i].reqId < sqDepth;
      ReclaimReq(foreign[i].reqId, cpu);
      ghost var t := Abs();
      foreignCount := foreignCount - 1;
      foreign[i] := foreign[foreignCount];
      hide Shape;
      assert foreign[..] == t.foreign[i := t.foreign[t.foreignCount - 1]];
    }

    /** `ena_tx_drain_foreign_frees`. */
    method DrainForeignFrees(cpu: nat)
      requires Wf()
      modifies Repr()
      ensures Abs() == Drain(old(Abs()), cpu, 0) && Wf()
    {
      var i := 0;
      while i < foreignCount
        invariant Wf() && i <= foreignCount
        invariant Drain(Abs(), cpu, i) == Drain(old(Abs()), cpu, 0)
        decreases foreignCount - i
      {
        if foreign[i].owner != cpu { i := i + 1; } else { DrainAt(cpu, i); }
      }
    }

    method AdvanceHead()
      requires Wf()
      modifies `cqHead, `cqPhase
      ensures Abs() == AdvanceCq(old(Abs())) && Wf()
    {
      ghost var s := Abs();
      cqHead := (cqHead + 1) % U16;
      if Mask(cqHead, cqDepth) == 0 { cqPhase := 1 - cqPhase; }
      assert Abs() == AdvanceCq(s);
    }

    /** Take a request out of flight. */
    method RetireReq(e: TxCdesc)
      requires Wf() && e.reqId < sqDepth
      modifies Repr()
      ensures Abs() == Retire(old(Abs()), e) && Wf()
    {
      ghost var s := Abs();
      inFlight[e.reqId] := false;
      sqHead := Mask(e.body, sqDepth);
      log := log.(completed := log.completed + [Completion(e.reqId, slots[e.reqId], owner)]);
      assert inFlight[..] == s.inFlight[e.reqId := false];
      hide Shape;
      assert Abs() == Retire(s, e);
    }

    /** `tx_complete_cb`. */
    method RunCallback(id: nat)
      requires CallbackOk()
      modifies CallbackRepr()
      ensures CallbackOk() && CallbackAbs() == ReclaimSlot(old(CallbackAbs()), id)
    {
      if callback != null { callback.ReclaimSlotOf(id); }
    }

    /** One matched completion, callback included. */
    method CompleteOne(cpu: nat, e: TxCdesc)
      requires Wf() && CallbackOk() && e.reqId < sqDepth
      modifies Repr(), CallbackRepr()
      ensures Abs() == CompleteReq(old(Abs()), cpu, e) && Wf() && CallbackOk()
      ensures CallbackAbs() == ReclaimSlot(old(CallbackAbs()), e.reqId)
    {
      hide Shape, B.Apart, B.Shape, ReclaimSlot, Valid;
      RetireReq(e);
      RunCallback(e.reqId);
      if cpu != owner {
        var staged := StageForeignFree(e.reqId, owner);
        if staged { return; }
      }
      ReclaimReq(e.reqId, cpu);
    }

    method FinishEntry(cpu: nat, e: TxCdesc)
      requires Wf() && CallbackOk() && e.reqId < sqDepth
      modifies Repr(), CallbackRepr()
      ensures Abs() == AdvanceCq(CompleteReq(old(Abs()), cpu, e)) && Wf() && CallbackOk()
      ensures CallbackAbs() == ReclaimSlot(old(CallbackAbs()), e.reqId)
    {
      hide Shape, CompleteReq, AdvanceCq, ReclaimSlot, B.Apart, B.Shape, IsPow2;
      CompleteOne(cpu, e);
      AdvanceHead();
    }

    /** One turn of the poll loop on the entry it read. */
    method PollEntry(cpu: nat, e: TxCdesc) returns (v: Verdict)
      requires Wf() && CallbackOk()
      modifies Repr(), CallbackRepr()
      ensures v == Examine(old(Abs()), e)
      ensures Abs() == (if v == Stop then old(Abs()) else NextTx(old(Abs()), cpu, e)) && Wf() && CallbackOk()
      ensures CallbackAbs() == (if v == Stop then old(CallbackAbs()) else NextQueue(old(Abs()), old(CallbackAbs()), e))
    {
      Lengths(Abs());
      hide Shape, CompleteReq, AdvanceCq, ReclaimSlot, B.Apart, B.Shape, IsPow2;
      if e.phase != cqPhase { return Stop; }
      if e.reqId >= sqDepth { return Stop; }
      if !inFlight[e.reqId] {
        AdvanceHead();
        return Skip;
      }
      FinishEntry(cpu, e);
      return Complete;
    }

    /** The turn that reads the entry at the head. */
    method PollTurn(cpu: nat, ghost start: Net, ghost budget: nat, ghost left: nat, ghost obs: seq<TxCdesc>, ghost n: nat)
      returns (v: Verdict)
      requires Valid() && CallbackOk() && 0 < left && n < |obs| && 0 < cqDepth
      requires obs[n] == cq[(start.tx.cqHead + n) % cqDepth]
      requires Progress(start, Net(Abs(), CallbackAbs()), cpu, budget, left, obs, n)
      modifies Repr(), CallbackRepr()
      ensures Valid() && CallbackOk()
      ensures v == Stop ==> n < |obs| && Examine(Abs(), obs[n]) == Stop
      ensures v == Stop ==> Progress(start, Net(Abs(), CallbackAbs()), cpu, budget, left, obs, n)
      ensures v != Stop ==> n < Consumed(start.tx, cpu, budget, obs)
      ensures v != Stop ==>
                Progress(start, Net(Abs(), CallbackAbs()), cpu, budget, left - (if v == Complete then 1 else 0), obs, n + 1)
    {
      hide Shape, Good, Progress, PollLoop, Consumed, NetLoop, NextTx, NextQueue, Examine, B.Apart, IsPow2;
      ProgressFacts(start, Net(Abs(), CallbackAbs()), cpu, budget, left, obs, n);
      WrapHarmless(start.tx.cqHead + n, cqDepth);
      var e := cq[Mask(cqHead, cqDepth)];
      assert obs[n] == e;
      ghost var was := Net(Abs(), CallbackAbs());
      v := PollEntry(cpu, e);
      if v != Stop {
        ProgressTurn(start, was, cpu, budget, left, obs, n);
        TurnKeeps(was.tx, was.q, cpu, e);
      }
    }

    /** The poll loop, with the device rewriting the completion memory before
        its first reads. */
    method PollEntries(cpu: nat, budget: nat, writes: seq<seq<TxCdesc>>) returns (cleaned: nat)
      requires Valid() && CallbackOk() && WritesOk(writes, cqDepth)
      modifies Repr(), CallbackRepr(), cq
      ensures Valid() && CallbackOk()
      ensures var seen := Reads(old(cq[..]), writes, old(cqHead));
              && (Abs(), cleaned) == PollLoop(old(Abs()), cpu, budget, seen)
              && CallbackAbs() == NetLoop(Net(old(Abs()), old(CallbackAbs())), cpu, budget, seen).q
    {
      hide Shape, Good, Progress, PollLoop, Consumed, NetLoop, Examine, B.Apart, Reads, MemoryAt, IsPow2;
      GoodDepths(Abs());
      ghost var start := Net(Abs(), CallbackAbs());
      ghost var memory := cq[..];
      ghost var obs := Reads(memory, writes, cqHead);
      PollEnds(start.tx, cpu, budget, memory, writes);
      ProgressStart(start, cpu, budget, obs);
      cleaned := 0;
      var n := 0;
      while cleaned < budget
        invariant Valid() && CallbackOk() && cleaned <= budget && 0 <= n <= |writes| + cqDepth
        invariant n >= |writes| ==> cq[..] == MemoryAt(memory, writes, n)
        invariant Progress(start, Net(Abs(), CallbackAbs()), cpu, budget, budget - cleaned, obs, n)
        decreases |writes| + cqDepth - n
      {
        DeviceWrites(cq, memory, writes, n);
        ReadsAt(memory, writes, start.tx.cqHead, n);
        var v := PollTurn(cpu, start, budget, budget - cleaned, obs, n);
        if v == Stop { break; }
        if v == Complete { cleaned := cleaned + 1; }
        n := n + 1;
      }
      ProgressEnd(start, Net(Abs(), CallbackAbs()), cpu, budget, budget - cleaned, obs, n);
    }

    /** The locked section of `ena_tx_poll_completions`. */
    method PollUnderLock(cpu: nat, budget: nat, writes: seq<seq<TxCdesc>>) returns (cleaned: nat)
      requires Valid() && CallbackOk() && WritesOk(writes, cqDepth)
      modifies Repr(), CallbackRepr(), cq
      ensures Valid() && CallbackOk()
      ensures var seen := Reads(old(cq[..]), writes, old(cqHead));
              && (Abs(), cleaned) == PollLocked(old(Abs()), cpu, budget, seen)
              && CallbackAbs() == NetLoop(Net(Drain(old(Abs()), cpu, 0), old(CallbackAbs())), cpu, budget, seen).q
    {
      hide Shape, Good, PollLoop, NetLoop, Drain, B.Apart;
      GoodDepths(Abs());
      DrainHead(Abs(), cpu, 0);
      DrainKeeps(Abs(), cpu, 0);
      DrainForeignFrees(cpu);
      cleaned := PollEntries(cpu, budget, writes);
    }

    /** `ena_tx_poll_completions`. */
    method Poll(cpu: nat, budget: nat, writes: seq<seq<TxCdesc>>) returns (cleaned: nat)
      requires Valid() && CallbackOk() && WritesOk(writes, cqDepth)
      modifies Repr(), CallbackRepr(), cq
      ensures Valid() && CallbackOk()
      ensures var seen := Reads(old(cq[..]), writes, old(cqHead));
              && (Abs(), cleaned) == PollCompletions(old(Abs()), cpu, budget, seen)
              && CallbackAbs() ==
                   if !old(hwValid) || old(pool.count) >= sqDepth then old(CallbackAbs())
                   else NetLoop(Net(Drain(old(Abs()), cpu, 0), old(CallbackAbs())), cpu,
                                if budget == 0 then cqDepth else budget, seen).q
    {
      hide Shape, Good, PollLocked, NetLoop, Drain, B.Apart;
      GoodDepths(Abs());
      if !hwValid { return 0; }
      if pool.count >= sqDepth { return 0; }
      cleaned := PollUnderLock(cpu, if budget == 0 then cqDepth else budget, writes);
    }

    /** `ena_tx_submit`. */
    method Submit(cpu: nat, pkt: Pkt) returns (r: SubmitResult)
      requires Valid()
      modifies Repr()
      ensures Valid() && (Abs(), r) == SubmitPkt(old(Abs()), cpu, pkt)
    {
      hide Shape, Good, SubmitLocked;
      if !hwValid { return Failed(ENODEV); }
      if pkt.len == 0 || pkt.len > 0xFFFF { return Failed(EINVAL); }
      SubmitGood(Abs(), cpu, pkt);
      r := SubmitUnderLock(cpu, pkt);
    }

    /** Release every buffer still held and clear its slot. */
    method DropHeld()
      requires slots.Length == sqDepth
      modifies slots, `log
      ensures slots[..] == Fill(sqDepth, Null)
      ensures log == old(log).(released := old(log).released + ResetReleases(old(slots[..])))
    {
      ghost var was := slots[..];
      for i := 0 to sqDepth
        invariant slots.Length == sqDepth == |was|
        invariant forall k :: 0 <= k < i ==> slots[k] == Null
        invariant forall k :: i <= k < sqDepth ==> slots[k] == was[k]
        invariant log == old(log).(released := old(log).released + ResetReleases(was[..i]))
      {
        ghost var before := ResetReleases(was[..i]);
        assert was[..i + 1][..i] == was[..i];
        if slots[i].Buf? {
          log := log.(released := log.released + [OnReset(slots[i].nb)]);
          slots[i] := Null;
          assert ResetReleases(was[..i + 1]) == before + [OnReset(was[i].nb)];
        } else {
          assert ResetReleases(was[..i + 1]) == before;
        }
      }
      assert was[..sqDepth] == was;
    }

    method ClearInFlight()
      modifies inFlight
      ensures inFlight[..] == Fill(inFlight.Length, false)
    {
      for i := 0 to inFlight.Length
        invariant forall k :: 0 <= k < i ==> !inFlight[k]
      {
        inFlight[i] := false;
      }
    }

    method ResetTracking()
      requires pool.Wf() && pool.depth == sqDepth && pool.Repr() !! {this, inFlight, slots, foreign, sq}
      requires slots.Length == inFlight.Length == sqDepth
      modifies slots, inFlight, pool.Repr(), `log
      ensures pool.Wf() && pool.Abs() == FullPool(sqDepth)
      ensures slots[..] == Fill(sqDepth, Null) && inFlight[..] == Fill(sqDepth, false)
      ensures log == old(log).(released := old(log).released + ResetReleases(old(slots[..])))
    {
      hide FullPool, Fill, IsPow2, ResetReleases;
      pool.Refill();
      DropHeld();
      ClearInFlight();
    }

    /** `ena_ring_reset_sw_state`. */
    method ResetSwState()
      requires Valid()
      modifies Repr()
      ensures Abs() == Reset(old(Abs())) && Valid()
    {
      hide Good, Shape, FullPool, Fill, IsPow2, ResetReleases;
      Lengths(Abs());
      ResetKeeps(Abs());
      ResetTracking();
      hwValid := false;
      sqTail, sqHead, cqHead, sqPhase, cqPhase := 0, 0, 0, 1, 1;
      foreignCount := 0;
    }
  }

  // ---- ena_netdev_txq_xmit ----

  /** The ring and the queue of one transmit queue, as one value. */
  ghost function NetOf(ring: Ring, txq: TxQueue): Net
    reads ring.Repr(), txq.Repr()
  {
    Net(ring.Abs(), txq.Abs())
  }

  ghost predicate Paired(ring: Ring, txq: TxQueue)
    reads ring.Repr(), txq.Repr(), ring.CallbackRepr()
  {
    ring.callback == txq && txq.pool.nbDesc == ring.sqDepth && ring.Valid() && ring.CallbackOk()
  }

  /** A queue and its ring as queue set-up leaves them. */
  method NewTxQueue(depth: nat) returns (ring: Ring, txq: TxQueue)
    requires DepthOk(depth)
    ensures fresh(ring) && fresh(txq) && Paired(ring, txq) && NetOf(ring, txq) == InitNet(depth)
  {
    hide Shape, Good, B.Apart, IsPow2;
    InitSound(depth);
    txq := new TxQueue(depth);
    ring := new Ring(depth, depth, txq);
  }

  method PollQueue(ring: Ring, txq: TxQueue, cpu: nat, budget: nat, writes: seq<seq<TxCdesc>>)
    requires Paired(ring, txq) && WritesOk(writes, ring.cqDepth)
    modifies ring.Repr(), txq.Repr(), ring.cq
    ensures Paired(ring, txq) && Safe(NetOf(ring, txq))
    ensures NetOf(ring, txq) == PollNet(old(NetOf(ring, txq)), cpu, budget,
                                        Reads(old(ring.cq[..]), writes, old(ring.cqHead)))
  {
    hide Good, PollLocked, NetLoop, Drain, PollLoop;
    GoodDepths(ring.Abs());
    if ring.hwValid && ring.pool.count < ring.sqDepth {
      var _ := ring.PollUnderLock(cpu, if budget == 0 then ring.cqDepth else budget, writes);
    }
  }

  /** The end of a bounced send: name the slot for the request, or put it back. */
  method Settle(txq: TxQueue, slot: nat, r: SubmitResult)
    requires txq !in txq.pool.Repr() && txq.pool.Wf()
    requires slot < txq.pool.nbDesc && txq.pool.count < txq.pool.nbDesc && (r.Sent? ==> r.reqId < txq.pool.nbDesc)
    modifies txq.Repr()
    ensures var q := old(txq.Abs());
            var slots := if r.Sent? then q.slots.(map_ := q.slots.map_[r.reqId := slot]) else B.Give(q.slots, slot);
            txq.Abs() == Txq(slots, slots.free.count < txq.pool.nbDesc, if r.Sent? then 0 else q.waitPolls)
    ensures txq.pool.Wf()
  {
    if r.Sent? {
      txq.pool.Name(r.reqId, slot);
      txq.waitPolls := 0;
    } else {
      txq.pool.Give(slot);
    }
    txq.inUse := txq.pool.count < txq.pool.nbDesc;
  }

  lemma SendFacts(n: Net, cpu: nat, pkt: Pkt)
    requires Safe(n)
    ensures B.Shape(n.q.slots)
    ensures 0 < n.q.slots.free.count ==>
              var (slot, taken) := B.Take(n.q.slots);
              B.Shape(taken) && slot < n.tx.sqDepth && taken.free.count < n.tx.sqDepth
    ensures var (t, r) := SubmitPkt(n.tx, cpu, pkt); Good(t) && (r.Sent? ==> r.reqId < n.tx.sqDepth)
  {
    SubmitPktGood(n.tx, cpu, pkt);
    if 0 < n.q.slots.free.count { B.TakeMoves(n.q.slots); }
  }

  /** A bounced send from a queue that has a free slot. */
  method SendLow(ring: Ring, txq: TxQueue, cpu: nat, pkt: Pkt) returns (r: SubmitResult)
    requires Paired(ring, txq) && 0 < txq.pool.count && pkt.len <= BOUNCE_SIZE
    modifies ring.Repr(), txq.Repr()
    ensures (NetOf(ring, txq), r) == Send(old(NetOf(ring, txq)), cpu, Frame(pkt, true))
    ensures ring.Valid() && txq.pool.Wf()
  {
    hide Good, SubmitPkt, SubmitLocked, B.Apart, B.Shape, Shape, IsPow2;
    ghost var n := NetOf(ring, txq);
    SendFacts(n, cpu, pkt);
    var slot := txq.pool.Take();
    ghost var taken := txq.Abs();
    r := ring.Submit(cpu, pkt);
    assert txq.Abs() == taken;
    Settle(txq, slot, r);
  }

  /** The transmit call after its poll. */
  method SendQueue(ring: Ring, txq: TxQueue, cpu: nat, f: Frame) returns (r: SubmitResult)
    requires Paired(ring, txq)
    modifies ring.Repr(), txq.Repr()
    ensures (NetOf(ring, txq), r) == Send(old(NetOf(ring, txq)), cpu, f) && Paired(ring, txq)
  {
    hide Good, SubmitPkt, SubmitLocked, B.Apart, B.Shape, Shape, IsPow2;
    ghost var n := NetOf(ring, txq);
    SendFacts(n, cpu, f.pkt);
    SendSafe(n, cpu, f);
    if txq.pool.count == 0 && txq.waitPolls < STALL_LIMIT { txq.waitPolls := txq.waitPolls + 1; }
    if f.low {
      if txq.pool.count == 0 { return Failed(EBUSY); }
      if f.pkt.len > BOUNCE_SIZE { return Failed(EINVAL); }
      r := SendLow(ring, txq, cpu, f.pkt);
    } else {
      r := ring.Submit(cpu, f.pkt);
    }
  }

  /** `ena_netdev_txq_xmit`. */
  method XmitQueue(ring: Ring, txq: TxQueue, cpu: nat, f: Frame, budget: nat, writes: seq<seq<TxCdesc>>)
    returns (r: SubmitResult)
    requires Paired(ring, txq) && WritesOk(writes, ring.cqDepth)
    modifies ring.Repr(), txq.Repr(), ring.cq
    ensures Paired(ring, txq)
    ensures (NetOf(ring, txq), r) == Xmit(old(NetOf(ring, txq)), cpu, f, budget,
                                          Reads(old(ring.cq[..]), writes, old(ring.cqHead)))
  {
    hide Good, PollNet, Send, Shape, B.Apart, B.Shape;
    GoodDepths(ring.Abs());
    PollQueue(ring, txq, cpu, budget, writes);
    r := SendQueue(ring, txq, cpu, f);
  }
}
