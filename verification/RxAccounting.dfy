/** Accounting of the RX ring: what every ring-locked step keeps, whatever the
    completion queue holds. */
module RxAccounting {
  import opened Bits
  import opened RingTypes
  import opened RequestIds
  import opened RxRing

  // ---- invariant ----

  /** An allocated ID is in flight and has a buffer and a capacity; any other
      ID has an empty slot. An ID that is not allocated may still carry the
      in-flight flag. */
  ghost predicate IdOk(s: Rx, id: nat)
    requires Shape(s) && id < s.sqDepth
  {
    if s.ids.owned[id]
    then s.inFlight[id] && s.slots[id].Buf? && 0 < s.caps[id]
    else s.slots[id] == Null && s.caps[id] == 0 && s.addrs[id] == NoAddr
  }

  ghost predicate Inv(s: Rx)
    ensures Inv(s) ==> Shape(s)
  {
    Shape(s) && s.ids.Inv() && (forall id :: 0 <= id < s.sqDepth ==> IdOk(s, id)) && s.log.faults == 0
  }

  ghost predicate PhasesOk(s: Rx) {
    Shape(s) && s.cqPhase == Phase(s.cqHead, s.cqDepth) && s.sqPhase == Phase(s.sqTail, s.sqDepth)
  }

  ghost function Bufs(gone: seq<Fate>): (b: seq<Netbuf>)
    ensures |b| == |gone|
  {
    seq(|gone|, i requires 0 <= i < |gone| => gone[i].nb)
  }

  /** Every buffer taken from the allocator is held by a slot, in hand (taken
      and not yet posted, or polled and not yet passed on), or gone. */
  ghost predicate Conserved(s: Rx, hand: multiset<Netbuf>) {
    multiset(s.log.taken) == Bag(s.slots) + (hand + multiset(Bufs(s.log.gone)))
  }

  ghost predicate Good(s: Rx, hand: multiset<Netbuf>)
    ensures Good(s, hand) ==> Shape(s)
  {
    Inv(s) && PhasesOk(s) && Conserved(s, hand)
  }

  lemma GoodFacts(s: Rx, hand: multiset<Netbuf>)
    requires Good(s, hand)
    ensures Inv(s) && s.cqPhase == Phase(s.cqHead, s.cqDepth)
  {
  }

  // ---- small steps ----

  lemma SubmitKeeps(s: Rx, nb: Netbuf, len: nat, addr: Addr)
    requires Inv(s)
    ensures var (t, r) := SubmitOne(s, nb, len, addr);
            && Inv(t) && t.log == s.log
            && (r.Failed? ==> t == s)
            && (r.Sent? ==>
                && r.reqId < s.sqDepth && !s.ids.owned[r.reqId] && s.slots[r.reqId] == Null
                && t.ids.owned == s.ids.owned[r.reqId := true]
                && t.slots == s.slots[r.reqId := Buf(nb)]
                && t.caps == s.caps[r.reqId := len] && t.addrs == s.addrs[r.reqId := addr])
  {
    var (t, r) := SubmitOne(s, nb, len, addr);
    if r.Sent? {
      AllocKeeps(s.ids);
      assert IdOk(s, r.reqId);
      forall id | 0 <= id < s.sqDepth ensures IdOk(t, id) { assert IdOk(s, id); }
    }
  }

  lemma SubmitPhases(s: Rx, nb: Netbuf, len: nat, addr: Addr)
    requires PhasesOk(s)
    ensures PhasesOk(SubmitOne(s, nb, len, addr).0)
  {
    CounterStep(s.sqTail, s.sqDepth);
    WrapHarmless(s.sqTail + 1, s.sqDepth);
  }

  /** A posted buffer moves from hand into its slot; a failed submit changes
      nothing. */
  lemma SubmitGood(s: Rx, nb: Netbuf, len: nat, addr: Addr, hand: multiset<Netbuf>)
    requires Good(s, hand + multiset{nb})
    ensures var (t, r) := SubmitOne(s, nb, len, addr);
            && (r.Sent? ==> Good(t, hand)) && (r.Failed? ==> t == s)
  {
    SubmitKeeps(s, nb, len, addr);
    SubmitPhases(s, nb, len, addr);
    var (t, r) := SubmitOne(s, nb, len, addr);
    if r.Sent? {
      var gone := multiset(Bufs(s.log.gone));
      BagUpdate(s.slots, r.reqId, Buf(nb));
      MoveIn(Bag(s.slots), Bag(t.slots), hand, gone, nb);
    }
  }

  lemma MoveIn(was: multiset<Netbuf>, now: multiset<Netbuf>, hand: multiset<Netbuf>, gone: multiset<Netbuf>, nb: Netbuf)
    requires now + multiset{} == was + multiset{nb}
    ensures was + ((hand + multiset{nb}) + gone) == now + (hand + gone)
  {
    assert now == was + multiset{nb};
  }

  /** Returning an allocated ID empties its slot. */
  lemma FreeIdKeeps(s: Rx, id: nat)
    requires Shape(s) && s.ids.Inv() && id < s.sqDepth && s.log.faults == 0
    requires forall k :: 0 <= k < s.sqDepth && k != id ==> IdOk(s, k)
    requires !s.ids.owned[id] ==> IdOk(s, id)
    ensures var t := FreeId(s, id);
            && Inv(t) && t.log == s.log
            && t.ids.owned == s.ids.owned[id := false]
            && t == s.(ids := t.ids, slots := s.slots[id := Null], caps := s.caps[id := 0], addrs := s.addrs[id := NoAddr])
  {
    FreeKeeps(s.ids, id);
    var t := FreeId(s, id);
    if !s.ids.owned[id] {
      assert s.slots[id := Null] == s.slots && s.caps[id := 0] == s.caps && s.addrs[id := NoAddr] == s.addrs;
      assert s.ids.owned[id := false] == s.ids.owned;
    }
    forall k | 0 <= k < s.sqDepth ensures IdOk(t, k) { if k != id { assert IdOk(s, k); } }
  }

  /** What dropping or delivering a request does to the ring. */
  lemma DropKeeps(s: Rx, id: nat)
    requires Inv(s) && id < s.sqDepth
    ensures var t := DropReq(s, id);
            && Inv(t)
            && t == s.(ids := t.ids, slots := s.slots[id := Null], caps := s.caps[id := 0], addrs := s.addrs[id := NoAddr],
                       log := s.log.(gone := s.log.gone + Releases(s.slots[id])))
            && t.ids.owned == s.ids.owned[id := false]
  {
    var u := s.(slots := s.slots[id := Null], log := s.log.(gone := s.log.gone + Releases(s.slots[id])));
    assert IdOk(s, id);
    forall k | 0 <= k < s.sqDepth && k != id ensures IdOk(u, k) { assert IdOk(s, k); }
    FreeIdKeeps(u, id);
    assert u.slots[id := Null] == s.slots[id := Null];
  }

  lemma DeliverKeeps(s: Rx, id: nat)
    requires Inv(s) && id < s.sqDepth
    ensures var t := DeliverReq(s, id);
            && Inv(t)
            && t == s.(ids := t.ids, inFlight := s.inFlight[id := false],
                       slots := s.slots[id := Null], caps := s.caps[id := 0], addrs := s.addrs[id := NoAddr])
            && t.ids.owned == s.ids.owned[id := false]
  {
    var u := s.(inFlight := s.inFlight[id := false]);
    forall k | 0 <= k < s.sqDepth && (k != id || !s.ids.owned[id]) ensures IdOk(u, k) { assert IdOk(s, k); }
    FreeIdKeeps(u, id);
  }

  lemma DropGood(s: Rx, id: nat, hand: multiset<Netbuf>)
    requires Good(s, hand) && id < s.sqDepth
    ensures var t := DropReq(s, id);
            && Good(t, hand)
            && t.slots == s.slots[id := Null] && t.caps == s.caps[id := 0] && t.inFlight == s.inFlight
            && t.ids.owned == s.ids.owned[id := false]
            && t.log.gone == s.log.gone + Releases(s.slots[id])
  {
    DropKeeps(s, id);
    var t := DropReq(s, id);
    assert Bufs(t.log.gone) == Bufs(s.log.gone) + One(s.slots[id]);
    var gone := multiset(Bufs(s.log.gone));
    LedgerOut(s.slots, id, multiset(s.log.taken), hand + gone);
    assert (hand + gone) + Unit(s.slots[id]) == hand + (gone + Unit(s.slots[id]));
    assert multiset(Bufs(t.log.gone)) == gone + Unit(s.slots[id]);
  }

  lemma DeliverGood(s: Rx, id: nat, hand: multiset<Netbuf>)
    requires Good(s, hand) && id < s.sqDepth
    ensures Good(DeliverReq(s, id), hand + Unit(s.slots[id]))
  {
    DeliverKeeps(s, id);
    var gone := multiset(Bufs(s.log.gone));
    LedgerOut(s.slots, id, multiset(s.log.taken), hand + gone);
    assert (hand + gone) + Unit(s.slots[id]) == (hand + Unit(s.slots[id])) + gone;
  }

  lemma AdvanceGood(s: Rx, hand: multiset<Netbuf>)
    requires Good(s, hand)
    ensures Good(AdvanceCq(s), hand)
  {
    var t := AdvanceCq(s);
    CounterStep(s.cqHead, s.cqDepth);
    WrapHarmless(s.cqHead + 1, s.cqDepth);
    forall id | 0 <= id < s.sqDepth ensures IdOk(t, id) { assert IdOk(s, id); }
  }

  // ---- the whole poll ----

  ghost function PktBufs(pkts: seq<RxPkt>): multiset<Netbuf> {
    if pkts == [] then multiset{} else Unit(pkts[0].netbuf) + PktBufs(pkts[1..])
  }

  /** The buffer that one completion hands out. */
  ghost function HandsOut(s: Rx, e: RxCdesc): Ptr
    requires Shape(s)
  {
    if Examine(s, e) == Deliver then s.slots[e.reqId] else Null
  }

  lemma HandleGood(s: Rx, e: RxCdesc, hand: multiset<Netbuf>)
    requires Good(s, hand)
    ensures Good(Handle(s, e), hand + Unit(HandsOut(s, e)))
  {
    hide Good, DropReq, DeliverReq, AdvanceCq;
    match Examine(s, e)
    case Stop => assert hand + multiset{} == hand;
    case Skip =>
      AdvanceGood(s, hand);
      assert hand + multiset{} == hand;
    case Oversize =>
      DropGood(s, e.reqId, hand);
      AdvanceGood(DropReq(s, e.reqId), hand);
      assert hand + multiset{} == hand;
    case Deliver =>
      DeliverGood(s, e.reqId, hand);
      AdvanceGood(DeliverReq(s, e.reqId), hand + Unit(s.slots[e.reqId]));
  }

  /** One iteration of the poll loop, then the rest. */
  lemma PollUnfolds(s: Rx, max: nat, obs: seq<RxCdesc>)
    requires Shape(s) && max > 0 && obs != [] && Examine(s, obs[0]) != Stop
    ensures var e := obs[0];
            var (t, pkts, _) := PollLoop(s, max, obs);
            var (u, more, _) := PollLoop(Handle(s, e), if Examine(s, e) == Deliver then max - 1 else max, obs[1..]);
            && t == u
            && pkts == (if Examine(s, e) == Deliver then [PktOf(s, e)] + more else more)
            && PktBufs(pkts) == Unit(HandsOut(s, e)) + PktBufs(more)
  {
    hide Handle;
    var e := obs[0];
    var more := PollLoop(Handle(s, e), if Examine(s, e) == Deliver then max - 1 else max, obs[1..]).1;
    assert ([PktOf(s, e)] + more)[1..] == more;
    assert multiset{} + PktBufs(more) == PktBufs(more);
  }

  lemma {:induction false} PollGood(s: Rx, max: nat, obs: seq<RxCdesc>, hand: multiset<Netbuf>)
    requires Good(s, hand)
    ensures var (t, pkts, _) := PollLoop(s, max, obs); Good(t, hand + PktBufs(pkts))
    decreases |obs|
  {
    hide Good, Handle, PktBufs;
    if max == 0 || obs == [] || Examine(s, obs[0]) == Stop {
      NoPktBufs(hand);
    } else {
      var e, rest := obs[0], obs[1..];
      var one, less := Unit(HandsOut(s, e)), if Examine(s, e) == Deliver then max - 1 else max;
      HandleGood(s, e, hand);
      PollGood(Handle(s, e), less, rest, hand + one);
      PollUnfolds(s, max, obs);
      var more := PktBufs(PollLoop(Handle(s, e), less, rest).1);
      assert (hand + one) + more == hand + (one + more);
    }
  }

  lemma NoPktBufs(hand: multiset<Netbuf>)
    ensures hand + PktBufs([]) == hand
  {
  }

  /** A packet carries the buffer posted under its request ID and is no longer
      than the capacity posted with it; a packet without a buffer is empty. No
      ID hands out two packets. */
  ghost predicate Drawn(s: Rx, pkts: seq<RxPkt>)
    requires Shape(s)
  {
    && (forall k :: 0 <= k < |pkts| ==> PktDrawn(s, pkts[k]))
    && (forall j, k :: 0 <= j < k < |pkts| ==> pkts[j].reqId != pkts[k].reqId)
  }

  ghost predicate PktDrawn(s: Rx, pkt: RxPkt)
    requires Shape(s)
  {
    && pkt.reqId < s.sqDepth && s.inFlight[pkt.reqId]
    && (pkt.netbuf == s.slots[pkt.reqId] || pkt.netbuf == Null)
    && pkt.len <= s.caps[pkt.reqId]
    && (pkt.netbuf == Null ==> pkt.len == 0)
  }

  /** A step of the poll posts nothing: an ID keeps what it had or is emptied. */
  ghost predicate Shrinks(s: Rx, t: Rx)
    requires Shape(s) && Follows(s, t)
  {
    forall id :: 0 <= id < s.sqDepth ==>
      && (t.inFlight[id] ==> s.inFlight[id])
      && ((t.slots[id] == s.slots[id] && t.caps[id] == s.caps[id]) || (t.slots[id] == Null && t.caps[id] == 0))
  }

  lemma DrawnBack(s: Rx, t: Rx, pkts: seq<RxPkt>)
    requires Shape(s) && Follows(s, t) && Shrinks(s, t) && Drawn(t, pkts)
    ensures Drawn(s, pkts)
  {
    forall k | 0 <= k < |pkts| ensures PktDrawn(s, pkts[k]) { assert PktDrawn(t, pkts[k]); }
  }

  lemma {:induction false} PollDraws(s: Rx, max: nat, obs: seq<RxCdesc>)
    requires Inv(s)
    ensures Drawn(s, PollLoop(s, max, obs).1)
    decreases |obs|
  {
    hide Drawn, Handle, Inv, Shrinks;
    if max == 0 || obs == [] || Examine(s, obs[0]) == Stop {
      DrawnNone(s);
    } else {
      var e, rest := obs[0], obs[1..];
      var u, less := Handle(s, e), if Examine(s, e) == Deliver then max - 1 else max;
      HandleShrinks(s, e);
      PollDraws(u, less, rest);
      if Examine(s, e) == Deliver {
        DrawnOneMore(s, u, e, PollLoop(u, less, rest).1);
      } else {
        DrawnBack(s, u, PollLoop(u, less, rest).1);
      }
    }
  }

  lemma DrawnNone(s: Rx)
    requires Shape(s)
    ensures Drawn(s, [])
  {
  }

  lemma DrawnOneMore(s: Rx, t: Rx, e: RxCdesc, more: seq<RxPkt>)
    requires Inv(s) && Follows(s, t) && Shrinks(s, t) && Drawn(t, more)
    requires Examine(s, e) == Deliver && !t.inFlight[e.reqId]
    ensures Drawn(s, [PktOf(s, e)] + more)
  {
    DrawnBack(s, t, more);
    var pkts := [PktOf(s, e)] + more;
    assert IdOk(s, e.reqId);
    forall k | 0 <= k < |more| ensures more[k].reqId != e.reqId { assert PktDrawn(t, more[k]); }
    forall k | 0 <= k < |pkts| ensures PktDrawn(s, pkts[k]) { if k > 0 { assert PktDrawn(s, more[k - 1]); } }
  }

  lemma HandleShrinks(s: Rx, e: RxCdesc)
    requires Inv(s)
    ensures var t := Handle(s, e);
            Inv(t) && Shrinks(s, t) && (Examine(s, e) == Deliver ==> !t.inFlight[e.reqId])
  {
    hide DropReq, DeliverReq;
    AdvanceInv(s);
    if e.reqId < s.sqDepth {
      DropKeeps(s, e.reqId);
      DeliverKeeps(s, e.reqId);
      AdvanceInv(DropReq(s, e.reqId));
      AdvanceInv(DeliverReq(s, e.reqId));
    }
  }

  lemma AdvanceInv(s: Rx)
    requires Inv(s)
    ensures Inv(AdvanceCq(s))
  {
    forall id | 0 <= id < s.sqDepth ensures IdOk(AdvanceCq(s), id) { assert IdOk(s, id); }
  }

  // ---- reset ----

  /** After a reset every ID is free, no slot holds a buffer or a capacity and
      every buffer that was posted is released. */
  lemma ResetGood(s: Rx, hand: multiset<Netbuf>)
    requires Good(s, hand)
    ensures var t := Reset(s);
            && Good(t, hand) && !t.hwValid && t.ids.free.count == s.sqDepth
            && (forall id :: 0 <= id < s.sqDepth ==> Emptied(t, id))
            && t.log.taken == s.log.taken && t.log.gone == s.log.gone + ResetFates(s.slots)
  {
    hide IsPow2, Phase, IdPool.Inv;
    ResetEmpties(s);
    var t := Reset(s);
    BagNone(t.slots);
    HeldBag(s.slots);
    assert Bufs(t.log.gone) == Bufs(s.log.gone) + Held(s.slots);
    ResetLedger(Bag(s.slots), hand, multiset(Bufs(s.log.gone)));
    PhaseFirst(0, s.cqDepth);
    PhaseFirst(0, s.sqDepth);
  }

  ghost predicate Emptied(t: Rx, id: nat)
    requires Shape(t) && id < t.sqDepth
  {
    !t.ids.owned[id] && !t.inFlight[id] && t.slots[id] == Null && t.caps[id] == 0 && t.addrs[id] == NoAddr
  }

  lemma ResetEmpties(s: Rx)
    requires Inv(s)
    ensures forall id :: 0 <= id < s.sqDepth ==> Emptied(Reset(s), id) && IdOk(Reset(s), id)
  {
    forall id | 0 <= id < s.sqDepth ensures Emptied(Reset(s), id) { assert IdOk(s, id); }
  }

  lemma ResetLedger(held: multiset<Netbuf>, hand: multiset<Netbuf>, gone: multiset<Netbuf>)
    ensures held + (hand + gone) == multiset{} + (hand + (gone + held))
  {
  }

  lemma RecreatedGood(s: Rx, hand: multiset<Netbuf>)
    requires Good(s, hand)
    ensures Good(s.(hwValid := true), hand)
  {
    forall id | 0 <= id < s.sqDepth ensures IdOk(s.(hwValid := true), id) { assert IdOk(s, id); }
  }

  lemma InitGood(sqDepth: nat, cqDepth: nat)
    requires DepthOk(sqDepth) && DepthOk(cqDepth)
    ensures Good(Init(sqDepth, cqDepth), multiset{})
  {
    var s := Init(sqDepth, cqDepth);
    forall id | 0 <= id < s.sqDepth ensures IdOk(s, id) {}
    BagNone(s.slots);
    PhaseFirst(0, cqDepth);
    PhaseFirst(0, sqDepth);
  }

  // ---- stale in-flight flags ----

  /** The in-flight flags mark exactly the allocated IDs. */
  ghost predicate FlagsExact(s: Rx) {
    s.inFlight == s.ids.owned
  }

  /** A completion leaves the flags exact unless it is longer than the buffer
      posted for it: that path returns the ID and keeps the flag. */
  lemma FlagsExactIff(s: Rx, e: RxCdesc)
    requires Inv(s) && FlagsExact(s)
    ensures FlagsExact(Handle(s, e)) <==> Examine(s, e) != Oversize
  {
    if Examine(s, e) == Oversize {
      DropKeeps(s, e.reqId);
      assert !Handle(s, e).ids.owned[e.reqId] && Handle(s, e).inFlight[e.reqId];
    } else if Examine(s, e) == Deliver {
      DeliverKeeps(s, e.reqId);
    }
  }

  /** With any flags, a completion for an ID that is not allocated takes no
      buffer and no ID: only the flag and the log of empty packets change. */
  lemma StaleHarmless(s: Rx, e: RxCdesc)
    requires Inv(s) && e.reqId < s.sqDepth && !s.ids.owned[e.reqId]
    ensures var t := Handle(s, e);
            t == s.(cqHead := t.cqHead, cqPhase := t.cqPhase, ids := t.ids,
                    inFlight := if Examine(s, e) == Deliver then s.inFlight[e.reqId := false] else s.inFlight)
    ensures Handle(s, e).ids.owned == s.ids.owned
    ensures Examine(s, e) == Deliver ==> PktOf(s, e).netbuf == Null && e.body.len == 0
  {
    assert IdOk(s, e.reqId);
    DropKeeps(s, e.reqId);
    DeliverKeeps(s, e.reqId);
    var id := e.reqId;
    assert s.slots[id := Null] == s.slots && s.caps[id := 0] == s.caps && s.addrs[id := NoAddr] == s.addrs;
    assert s.log.gone + Releases(s.slots[id]) == s.log.gone;
    assert s.ids.owned[id := false] == s.ids.owned;
  }

  // ---- poll-loop termination ----

  /** How many entries the poll loop consumes, skipped and dropped included. */
  ghost function Consumed(s: Rx, max: nat, obs: seq<RxCdesc>): nat
    requires Shape(s)
    decreases |obs|
  {
    if max == 0 || obs == [] || Examine(s, obs[0]) == Stop then 0
    else 1 + Consumed(Handle(s, obs[0]), if Examine(s, obs[0]) == Deliver then max - 1 else max, obs[1..])
  }

  lemma HandleHead(s: Rx, e: RxCdesc)
    requires Inv(s) && PhasesOk(s) && Examine(s, e) != Stop
    ensures var t := Handle(s, e);
            Inv(t) && PhasesOk(t) && t.cqHead == (s.cqHead + 1) % U16
  {
    hide Inv, DropReq, DeliverReq, Phase, IsPow2;
    if e.reqId < s.sqDepth {
      DropKeeps(s, e.reqId);
      DeliverKeeps(s, e.reqId);
      AdvanceInv(DropReq(s, e.reqId));
      AdvanceInv(DeliverReq(s, e.reqId));
    }
    AdvanceInv(s);
    CounterStep(s.cqHead, s.cqDepth);
    WrapHarmless(s.cqHead + 1, s.cqDepth);
  }

  lemma {:induction false} ConsumedPhases(s: Rx, max: nat, obs: seq<RxCdesc>, k: nat)
    requires Inv(s) && PhasesOk(s) && k < Consumed(s, max, obs)
    ensures k < |obs| && obs[k].phase == Phase(s.cqHead + k, s.cqDepth)
    decreases |obs|
  {
    hide Inv, Handle, Phase, Pow2, IsPow2;
    if k > 0 {
      HandleHead(s, obs[0]);
      WrapThenAdd(s.cqHead + 1, k - 1, s.cqDepth);
      ConsumedPhases(Handle(s, obs[0]), if Examine(s, obs[0]) == Deliver then max - 1 else max, obs[1..], k - 1);
    }
  }

  /** Over completion memory that does not change, the loop consumes at most
      one entry per slot, although skipped and dropped entries use no budget. */
  lemma PollTerminates(s: Rx, max: nat, cq: seq<RxCdesc>, limit: nat)
    requires Inv(s) && PhasesOk(s) && |cq| == s.cqDepth
    ensures Consumed(s, max, Window(cq, s.cqHead, limit)) <= s.cqDepth
  {
    hide Inv, Consumed;
    var obs, d := Window(cq, s.cqHead, limit), s.cqDepth;
    PhaseNextPass(s.cqHead, d);
    if Consumed(s, max, obs) > d {
      ConsumedPhases(s, max, obs, 0);
      ConsumedPhases(s, max, obs, d);
    }
  }

  /** When the device rewrites the memory during the call, the loop consumes at
      most one entry per rewrite and one per slot. */
  lemma PollEnds(s: Rx, max: nat, cq: seq<RxCdesc>, writes: seq<seq<RxCdesc>>)
    requires Inv(s) && PhasesOk(s) && |cq| == s.cqDepth && WritesOk(writes, |cq|)
    ensures Consumed(s, max, Reads(cq, writes, s.cqHead)) <= |writes| + s.cqDepth
  {
    hide Inv, Consumed;
    var obs, d, w := Reads(cq, writes, s.cqHead), s.cqDepth, |writes|;
    PhaseNextPass(s.cqHead + w, d);
    if Consumed(s, max, obs) > w + d {
      ConsumedPhases(s, max, obs, w);
      ConsumedPhases(s, max, obs, w + d);
    }
  }
}
