/** The netdev receive layer on top of an RX ring: buffers come from an
    allocator, low-memory buffers are received through bounce slots
    (`ena_netbuf_alloc_helper`, `ena_rx_refill`, the packet part of
    `ena_netdev_rxq_recv`). */
module RxNetdev {
  import opened IdLists
  import opened IdFifo
  import opened RingTypes
  import B = BounceSlots
  import opened RxRing
  import opened RxAccounting

  /** `ENA_RX_BUF_SIZE`, the size of one bounce slot. */
  const RX_BUF_SIZE := 2048

  /** Bounce pool of the queue; `pending` is the slot in hand, -1 for none. */
  datatype Rxq = Rxq(slots: B.Slots, pending: int)

  datatype Net = Net(rx: Rx, q: Rxq)

  // ---- refilling ----

  /** What the buffer allocator returns; `low` tells that the buffer lies
      below the DMA limit. */
  datatype Offer = NoBuffer | Offered(nb: Netbuf, low: bool)

  datatype Alloc = NoAlloc | NoSlot(nb: Netbuf) | Got(nb: Netbuf, len: nat, addr: Addr)

  /** `ena_netbuf_alloc_helper`: a low buffer takes a bounce slot; without a
      free slot the buffer goes back to its allocator. */
  function AllocHelper(q: Rxq, offer: Offer): (r: (Rxq, Alloc))
    requires B.Shape(q.slots)
    ensures B.Shape(r.0.slots) && |r.0.slots.map_| == |q.slots.map_|
  {
    match offer
    case NoBuffer => (q, NoAlloc)
    case Offered(nb, low) =>
      if !low then (q, Got(nb, nb.size, Own))
      else if q.slots.free.count == 0 then (q, NoSlot(nb))
      else
        PopContents(q.slots.free);
        var (slot, slots) := B.Take(q.slots);
        (Rxq(slots, slot), Got(nb, if nb.size < RX_BUF_SIZE then nb.size else RX_BUF_SIZE, Bounce(slot)))
  }

  /** The posted request keeps the slot in hand. */
  function CommitSlot(q: Rxq, id: nat): Rxq
    requires id < |q.slots.map_|
  {
    Rxq(q.slots.(map_ := q.slots.map_[id := q.pending]), -1)
  }

  /** A failed submit puts the slot in hand back. */
  function RollbackSlot(q: Rxq): Rxq
    requires B.Shape(q.slots)
  {
    Rxq(if q.pending >= 0 then B.Give(q.slots, q.pending) else q.slots, -1)
  }

  function LogTaken(s: Rx, nb: Netbuf): (t: Rx)
    requires Shape(s)
    ensures Follows(s, t)
  {
    s.(log := s.log.(taken := s.log.taken + [nb]))
  }

  function LogReleased(s: Rx, nb: Netbuf): (t: Rx)
    requires Shape(s)
    ensures Follows(s, t)
  {
    s.(log := s.log.(gone := s.log.gone + [Released(nb)]))
  }

  // ---- where every bounce slot is ----

  ghost function Total(q: Rxq): multiset<nat>
    requires B.Shape(q.slots)
  {
    B.Account(q.slots) + B.UsedOne(q.pending)
  }

  /** No slot is in two places: waiting, mapped or in hand. */
  ghost predicate Apart(q: Rxq)
    ensures Apart(q) ==> B.Shape(q.slots)
  {
    B.Shape(q.slots) && -1 <= q.pending < |q.slots.map_| && Total(q) <= Each(|q.slots.map_|)
  }

  /** Every slot is in exactly one place. */
  ghost predicate Whole(q: Rxq) {
    B.Shape(q.slots) && Total(q) == Each(|q.slots.map_|)
  }

  lemma ApartSlots(q: Rxq)
    requires Apart(q)
    ensures B.Apart(q.slots)
  {
    forall x: nat ensures B.Account(q.slots)[x] <= Each(|q.slots.map_|)[x] {
      assert B.Account(q.slots)[x] <= Total(q)[x];
    }
  }

  lemma AllocMoves(q: Rxq, offer: Offer)
    requires Apart(q) && q.pending == -1
    ensures var (p, got) := AllocHelper(q, offer);
            && Apart(p) && Total(p) == Total(q) && p.slots.map_ == q.slots.map_
            && (if got.Got? then
                  && got.len <= got.nb.size && got.addr == AddrOf(p.pending)
                  && (got.addr.Bounce? ==> got.len <= RX_BUF_SIZE)
                else p == q)
  {
    hide B.Account;
    if offer.Offered? && offer.low && 0 < q.slots.free.count {
      B.TakeMoves(q.slots);
      var slot: nat := B.Take(q.slots).0;
      assert B.UsedOne(slot) == multiset{slot};
    }
  }

  ghost function AddrOf(slot: int): Addr {
    if slot >= 0 then Bounce(slot) else Own
  }

  /** The slot in hand moves into the map; a slot that was mapped there
      before is lost. */
  lemma CommitMoves(q: Rxq, id: nat)
    requires Apart(q) && id < |q.slots.map_|
    ensures var c := CommitSlot(q, id);
            && Apart(c) && Total(c) + B.UsedOne(q.slots.map_[id]) == Total(q)
            && (Whole(q) ==> (Whole(c) <==> q.slots.map_[id] < 0))
  {
    hide B.Account, B.Used;
    CommitTotal(q, id);
    LostOne(Total(CommitSlot(q, id)), Total(q), Each(|q.slots.map_|), B.UsedOne(q.slots.map_[id]));
  }

  lemma LostOne(t: multiset<nat>, q: multiset<nat>, each: multiset<nat>, lost: multiset<nat>)
    requires t + lost == q <= each
    ensures t <= each && (q == each ==> (t == each <==> lost == multiset{}))
  {
    assert |t + lost| == |t| + |lost|;
  }

  lemma CommitTotal(q: Rxq, id: nat)
    requires Apart(q) && id < |q.slots.map_|
    ensures B.Shape(CommitSlot(q, id).slots)
    ensures Total(CommitSlot(q, id)) + B.UsedOne(q.slots.map_[id]) == Total(q)
  {
    hide Apart, B.Used;
    assert -1 <= q.pending < |q.slots.map_| by { PendingBounds(q); }
    var c := CommitSlot(q, id);
    B.UsedUpdate(q.slots.map_, id, q.pending);
    CommitLedger(B.Waiting(q.slots.free), B.Used(q.slots.map_), B.Used(c.slots.map_), B.UsedOne(q.pending),
                 B.UsedOne(q.slots.map_[id]));
  }

  lemma PendingBounds(q: Rxq)
    requires Apart(q)
    ensures -1 <= q.pending < |q.slots.map_|
  {
  }

  lemma CommitLedger(free: multiset<nat>, was: multiset<nat>, now: multiset<nat>, hand: multiset<nat>, lost: multiset<nat>)
    requires now + lost == was + hand
    ensures ((free + now) + multiset{}) + lost == (free + was) + hand
  {
    assert ((free + now) + multiset{}) + lost == free + (now + lost);
  }

  lemma RollbackMoves(q: Rxq)
    requires Apart(q)
    ensures var c := RollbackSlot(q);
            Apart(c) && Total(c) == Total(q) && c.slots.map_ == q.slots.map_
  {
    if q.pending >= 0 {
      var x: nat := q.pending;
      assert B.UsedOne(q.pending) == multiset{x};
      B.GiveMoves(q.slots, x);
    }
  }

  lemma UnmapMoves(q: Rxq, id: nat)
    requires Apart(q) && q.pending == -1
    ensures var c := q.(slots := B.Unmap(q.slots, id));
            && Apart(c) && Total(c) == Total(q)
            && c.slots.map_ == (if id < |q.slots.map_| then q.slots.map_[id := -1] else q.slots.map_)
  {
    ApartSlots(q);
    B.UnmapMoves(q.slots, id);
  }

  // ---- invariants ----

  /** Holds over every run, resets included: the ring accounts for every
      buffer, no bounce slot is in two places, and the map names the slot that
      the device was told to write for each posted buffer. */
  ghost predicate Safe(n: Net, hand: multiset<Netbuf>)
    ensures Safe(n, hand) ==> Shape(n.rx) && B.Shape(n.q.slots) && |n.q.slots.map_| == n.rx.sqDepth
  {
    && Good(n.rx, hand) && Apart(n.q) && n.q.pending == -1 && |n.q.slots.map_| == n.rx.sqDepth
    && PostsMatch(n)
  }

  /** A posted buffer is at least as large as the length offered to the device,
      which was told to write to the slot mapped to the request. */
  ghost predicate PostsMatch(n: Net)
    requires Shape(n.rx) && |n.q.slots.map_| == n.rx.sqDepth
  {
    forall id :: 0 <= id < n.rx.sqDepth && n.rx.ids.owned[id] ==>
      && n.rx.addrs[id] == AddrOf(n.q.slots.map_[id])
      && n.rx.slots[id].Buf? && n.rx.caps[id] <= n.rx.slots[id].nb.size
  }

  /** Holds between resets: every slot is in exactly one place, and a mapped
      request is posted, or polled and not yet taken (`out`). */
  ghost predicate Sound(n: Net, hand: multiset<Netbuf>, out: set<nat>)
    ensures Sound(n, hand, out) ==> Safe(n, hand)
  {
    && Safe(n, hand) && Whole(n.q)
    && forall id :: 0 <= id < n.rx.sqDepth && n.q.slots.map_[id] >= 0 ==> n.rx.ids.owned[id] || id in out
  }

  // ---- one refill iteration ----

  /** One iteration of the loop of `ena_rx_refill`; the flag tells whether the
      loop goes on. */
  function RefillOne(n: Net, offer: Offer): (Net, bool)
    requires Shape(n.rx) && B.Shape(n.q.slots) && |n.q.slots.map_| == n.rx.sqDepth
  {
    var (p, got) := AllocHelper(n.q, offer);
    match got
    case NoAlloc => (n, false)
    case NoSlot(nb) => (Net(LogReleased(LogTaken(n.rx, nb), nb), p), false)
    case Got(nb, len, addr) =>
      var (t, res) := SubmitOne(LogTaken(n.rx, nb), nb, len, addr);
      match res
      case Sent(id) =>
        PopContents(n.rx.ids.free);
        (Net(t, CommitSlot(p, id)), true)
      case Failed(_) =>
        (Net(LogReleased(t, nb), RollbackSlot(p)), false)
  }

  lemma TakenGood(s: Rx, nb: Netbuf, hand: multiset<Netbuf>)
    requires Good(s, hand)
    ensures Good(LogTaken(s, nb), hand + multiset{nb})
  {
    var t := LogTaken(s, nb);
    forall id | 0 <= id < s.sqDepth ensures IdOk(t, id) { assert IdOk(s, id); }
    TakenLedger(Bag(s.slots), hand, multiset(Bufs(s.log.gone)), nb);
  }

  lemma TakenLedger(held: multiset<Netbuf>, hand: multiset<Netbuf>, gone: multiset<Netbuf>, nb: Netbuf)
    ensures (held + (hand + gone)) + multiset{nb} == held + ((hand + multiset{nb}) + gone)
  {
  }

  lemma ReleasedGood(s: Rx, nb: Netbuf)
    requires Good(s, multiset{nb})
    ensures Good(LogReleased(s, nb), multiset{})
  {
    var t := LogReleased(s, nb);
    forall id | 0 <= id < s.sqDepth ensures IdOk(t, id) { assert IdOk(s, id); }
    assert Bufs(t.log.gone) == Bufs(s.log.gone) + [nb];
    ReleasedLedger(Bag(s.slots), multiset(Bufs(s.log.gone)), nb);
  }

  lemma ReleasedLedger(held: multiset<Netbuf>, gone: multiset<Netbuf>, nb: Netbuf)
    ensures held + (multiset{nb} + gone) == held + (multiset{} + (gone + multiset{nb}))
  {
  }

  /** The ring after one refill iteration. */
  lemma RefillRing(n: Net, offer: Offer)
    requires Safe(n, multiset{})
    ensures var (m, more) := RefillOne(n, offer);
            && Good(m.rx, multiset{}) && Follows(n.rx, m.rx)
            && (!more ==>
                m.rx.ids == n.rx.ids && m.rx.addrs == n.rx.addrs && m.rx.slots == n.rx.slots && m.rx.caps == n.rx.caps)
  {
    hide Good, Apart, Total, SubmitOne;
    AllocMoves(n.q, offer);
    var got := AllocHelper(n.q, offer).1;
    match got
    case NoAlloc =>
    case NoSlot(nb) =>
      TakenGood(n.rx, nb, multiset{});
      assert multiset{} + multiset{nb} == multiset{nb};
      ReleasedGood(LogTaken(n.rx, nb), nb);
    case Got(nb, len, addr) =>
      TakenGood(n.rx, nb, multiset{});
      assert multiset{} + multiset{nb} == multiset{nb};
      RxAccounting.SubmitGood(LogTaken(n.rx, nb), nb, len, addr, multiset{});
      if SubmitOne(LogTaken(n.rx, nb), nb, len, addr).1.Failed? { ReleasedGood(LogTaken(n.rx, nb), nb); }
  }

  /** The caller can tell beforehand whether a refill iteration posts the
      offered buffer. */
  predicate Posts(n: Net, offer: Offer): (b: bool)
    ensures b ==> 0 < n.rx.ids.free.count
  {
    && offer.Offered? && n.rx.hwValid && 0 < n.rx.ids.free.count && 0 < offer.nb.size
    && (if offer.low then 0 < n.q.slots.free.count else offer.nb.size <= 0xFFFF)
  }

  /** The ID that the next post gets. */
  function NextId(n: Net): (id: nat)
    requires Shape(n.rx) && 0 < n.rx.ids.free.count
    ensures id < n.rx.sqDepth
  {
    n.rx.ids.free.Front()
  }

  lemma PostsIff(n: Net, offer: Offer)
    requires Safe(n, multiset{})
    ensures RefillOne(n, offer).1 <==> Posts(n, offer)
    ensures Posts(n, offer) ==> RefillOne(n, offer).0.q == CommitSlot(AllocHelper(n.q, offer).0, NextId(n))
  {
    hide Good, Apart, PostsMatch;
  }

  /** What a refill iteration that posts a buffer does to the ring. */
  lemma RefillTracks(n: Net, offer: Offer)
    requires Safe(n, multiset{}) && Posts(n, offer)
    ensures var t := RefillOne(n, offer).0.rx;
            var id := NextId(n);
            && !n.rx.ids.owned[id] && Follows(n.rx, t) && t.ids.owned == n.rx.ids.owned[id := true]
            && t.addrs == n.rx.addrs[id := AddrOf(AllocHelper(n.q, offer).0.pending)]
            && t.slots == n.rx.slots[id := Buf(offer.nb)]
            && t.caps == n.rx.caps[id := t.caps[id]] && t.caps[id] <= offer.nb.size
            && t.hwValid && t.cqPhase == n.rx.cqPhase
  {
    hide Good, Apart, Total;
    PostsIff(n, offer);
    AllocMoves(n.q, offer);
    var got := AllocHelper(n.q, offer).1;
    var s := LogTaken(n.rx, got.nb);
    TakenGood(n.rx, got.nb, multiset{});
    GoodFacts(s, multiset{} + multiset{got.nb});
    SubmitKeeps(s, got.nb, got.len, got.addr);
  }

  lemma RefillOneSafe(n: Net, offer: Offer)
    requires Safe(n, multiset{})
    ensures Safe(RefillOne(n, offer).0, multiset{})
  {
    hide Good, Apart, Total, RefillOne, Posts;
    RefillRing(n, offer);
    RefillPool(n, offer);
    PostsIff(n, offer);
    if Posts(n, offer) { RefillTracks(n, offer); }
  }

  /** What a refill iteration does to the bounce pool. A slot that was mapped
      to the posted request before is lost. */
  lemma RefillPool(n: Net, offer: Offer)
    requires Safe(n, multiset{})
    ensures var q := RefillOne(n, offer).0.q;
            && Apart(q) && q.pending == -1 && |q.slots.map_| == n.rx.sqDepth
            && (if Posts(n, offer) then
                  && q.slots.map_ == n.q.slots.map_[NextId(n) := AllocHelper(n.q, offer).0.pending]
                  && Total(q) + B.UsedOne(n.q.slots.map_[NextId(n)]) == Total(n.q)
                else q.slots.map_ == n.q.slots.map_ && Total(q) == Total(n.q))
  {
    hide Good, Apart, Total;
    PostsIff(n, offer);
    AllocMoves(n.q, offer);
    if Posts(n, offer) {
      CommitMoves(AllocHelper(n.q, offer).0, NextId(n));
    } else {
      RollbackMoves(AllocHelper(n.q, offer).0);
    }
  }

  /** A refill iteration keeps the pool whole exactly when it posts nothing or
      posts under an ID that has no slot mapped. */
  lemma RefillWholeIff(n: Net, offer: Offer)
    requires Safe(n, multiset{}) && Whole(n.q)
    ensures Whole(RefillOne(n, offer).0.q) <==> !(Posts(n, offer) && n.q.slots.map_[NextId(n)] >= 0)
  {
    hide Good, Apart, Total, RefillOne, Posts;
    RefillPool(n, offer);
    if Posts(n, offer) {
      LostOne(Total(RefillOne(n, offer).0.q), Total(n.q), Each(n.rx.sqDepth), B.UsedOne(n.q.slots.map_[NextId(n)]));
    }
  }

  lemma RefillOneSound(n: Net, offer: Offer)
    requires Sound(n, multiset{}, {})
    ensures Sound(RefillOne(n, offer).0, multiset{}, {})
  {
    hide Good, Apart, Total, Whole, RefillOne, Posts;
    RefillOneSafe(n, offer);
    RefillWholeIff(n, offer);
    RefillPool(n, offer);
    RefillRing(n, offer);
    PostsIff(n, offer);
    if Posts(n, offer) { RefillTracks(n, offer); }
  }

  /** `ena_rx_refill` for a positive count: one offer per iteration, and no
      buffer after the last. Returns how many buffers were posted. */
  function Refill(n: Net, count: nat, offers: seq<Offer>): (r: (Net, nat))
    requires Safe(n, multiset{})
    ensures Safe(r.0, multiset{}) && r.0.rx.sqDepth == n.rx.sqDepth
    ensures Sound(n, multiset{}, {}) ==> Sound(r.0, multiset{}, {})
    decreases |offers|
  {
    if count == 0 || n.rx.ids.free.count == 0 || offers == [] then (n, 0)
    else
      RefillOneSafe(n, offers[0]);
      RefillRing(n, offers[0]);
      var (m, more) := RefillOne(n, offers[0]);
      assert Sound(n, multiset{}, {}) ==> Sound(m, multiset{}, {}) by {
        if Sound(n, multiset{}, {}) { RefillOneSound(n, offers[0]); }
      }
      if !more then (m, 0)
      else
        var (u, k) := Refill(m, count - 1, offers[1..]);
        (u, k + 1)
  }

  // ---- polling with the drop of bounce slots ----

  /** One completion: an oversize packet gives its bounce slot back. */
  function NetHandle(n: Net, e: RxCdesc): (m: Net)
    requires Shape(n.rx) && B.Shape(n.q.slots)
    ensures Follows(n.rx, m.rx)
  {
    Net(Handle(n.rx, e), if Examine(n.rx, e) == Oversize then n.q.(slots := B.Unmap(n.q.slots, e.reqId)) else n.q)
  }

  lemma HandleApart(n: Net, e: RxCdesc)
    requires Shape(n.rx) && Apart(n.q) && n.q.pending == -1
    ensures Apart(NetHandle(n, e).q) && NetHandle(n, e).q.pending == -1 && NetHandle(n, e).rx == Handle(n.rx, e)
    ensures |NetHandle(n, e).q.slots.map_| == |n.q.slots.map_|
  {
    UnmapMoves(n.q, e.reqId);
  }

  /** The poll loop together with the bounce slots it gives back. */
  ghost function NetLoop(n: Net, max: nat, obs: seq<RxCdesc>): (m: Net)
    requires Shape(n.rx) && Apart(n.q) && n.q.pending == -1
    ensures m.rx == PollLoop(n.rx, max, obs).0
    ensures Apart(m.q) && m.q.pending == -1 && |m.q.slots.map_| == |n.q.slots.map_|
    decreases |obs|
  {
    if max == 0 || obs == [] || Examine(n.rx, obs[0]) == Stop then n
    else
      var e := obs[0];
      hide NetHandle, Handle, Apart;
      HandleApart(n, e);
      NetLoop(NetHandle(n, e), if Examine(n.rx, e) == Deliver then max - 1 else max, obs[1..])
  }

  /** The requests of the packets that carry a buffer. */
  ghost function OutIds(pkts: seq<RxPkt>): set<nat> {
    if pkts == [] then {} else OutId(pkts[0].netbuf, pkts[0].reqId) + OutIds(pkts[1..])
  }

  lemma SkipSafe(n: Net, hand: multiset<Netbuf>)
    requires Safe(n, hand)
    ensures Safe(n.(rx := AdvanceCq(n.rx)), hand)
    ensures forall out :: Sound(n, hand, out) ==> Sound(n.(rx := AdvanceCq(n.rx)), hand, out)
  {
    AdvanceGood(n.rx, hand);
  }

  lemma DropSafe(n: Net, id: nat, hand: multiset<Netbuf>)
    requires Safe(n, hand) && id < n.rx.sqDepth
    ensures var m := Net(AdvanceCq(DropReq(n.rx, id)), n.q.(slots := B.Unmap(n.q.slots, id)));
            Safe(m, hand) && forall out :: Sound(n, hand, out) ==> Sound(m, hand, out)
  {
    hide Good, Apart, Total, DropReq, B.Unmap;
    GoodFacts(n.rx, hand);
    DropKeeps(n.rx, id);
    DropGood(n.rx, id, hand);
    AdvanceGood(DropReq(n.rx, id), hand);
    UnmapMoves(n.q, id);
  }

  lemma DeliverSafe(n: Net, id: nat, hand: multiset<Netbuf>)
    requires Safe(n, hand) && id < n.rx.sqDepth
    ensures var m := n.(rx := AdvanceCq(DeliverReq(n.rx, id)));
            var more := hand + Unit(n.rx.slots[id]);
            && Safe(m, more)
            && forall out :: Sound(n, hand, out) ==> Sound(m, more, out + OutId(n.rx.slots[id], id))
  {
    hide Good, Apart, Total, DeliverReq;
    GoodFacts(n.rx, hand);
    DeliverKeeps(n.rx, id);
    DeliverGood(n.rx, id, hand);
    AdvanceGood(DeliverReq(n.rx, id), hand + Unit(n.rx.slots[id]));
    assert IdOk(n.rx, id);
  }

  lemma HandleSafe(n: Net, e: RxCdesc, hand: multiset<Netbuf>)
    requires Safe(n, hand)
    ensures var p := HandsOut(n.rx, e);
            && Safe(NetHandle(n, e), hand + Unit(p))
            && forall out :: Sound(n, hand, out) ==> Sound(NetHandle(n, e), hand + Unit(p), out + OutId(p, e.reqId))
  {
    hide Safe, Sound, DropReq, DeliverReq, AdvanceCq, B.Unmap;
    var p := HandsOut(n.rx, e);
    assert hand + multiset{} == hand;
    assert forall out: set<nat> :: out + {} == out;
    match Examine(n.rx, e)
    case Stop =>
    case Skip => SkipSafe(n, hand);
    case Oversize => DropSafe(n, e.reqId, hand);
    case Deliver => DeliverSafe(n, e.reqId, hand);
  }

  ghost function OutId(p: Ptr, id: nat): set<nat> {
    if p.Buf? then {id} else {}
  }

  lemma {:induction false} NetLoopSafe(n: Net, max: nat, obs: seq<RxCdesc>, hand: multiset<Netbuf>, out: set<nat>)
    requires Safe(n, hand) && Apart(n.q) && n.q.pending == -1
    ensures var m, pkts := NetLoop(n, max, obs), PollLoop(n.rx, max, obs).1;
            && Safe(m, hand + PktBufs(pkts))
            && (Sound(n, hand, out) ==> Sound(m, hand + PktBufs(pkts), out + OutIds(pkts)))
    decreases |obs|
  {
    hide Safe, Sound, Apart, NetHandle, PktBufs, OutIds;
    if max == 0 || obs == [] || Examine(n.rx, obs[0]) == Stop {
      NoPktBufs(hand);
      NoOutIds(out);
    } else {
      var e, rest := obs[0], obs[1..];
      var p, less := HandsOut(n.rx, e), if Examine(n.rx, e) == Deliver then max - 1 else max;
      HandleSafe(n, e, hand);
      HandleApart(n, e);
      NetLoopSafe(NetHandle(n, e), less, rest, hand + Unit(p), out + OutId(p, e.reqId));
      PollUnfolds(n.rx, max, obs);
      OutUnfolds(n.rx, max, obs);
      var more := PollLoop(Handle(n.rx, e), less, rest).1;
      assert (hand + Unit(p)) + PktBufs(more) == hand + (Unit(p) + PktBufs(more));
      assert (out + OutId(p, e.reqId)) + OutIds(more) == out + (OutId(p, e.reqId) + OutIds(more));
    }
  }

  lemma NoOutIds(out: set<nat>)
    ensures out + OutIds([]) == out
  {
  }

  lemma OutUnfolds(s: Rx, max: nat, obs: seq<RxCdesc>)
    requires Shape(s) && max > 0 && obs != [] && Examine(s, obs[0]) != Stop
    ensures var e := obs[0];
            var more := PollLoop(Handle(s, e), if Examine(s, e) == Deliver then max - 1 else max, obs[1..]).1;
            OutIds(PollLoop(s, max, obs).1) == OutId(HandsOut(s, e), e.reqId) + OutIds(more)
  {
    hide Handle;
    PollUnfolds(s, max, obs);
    var e := obs[0];
    var more := PollLoop(Handle(s, e), if Examine(s, e) == Deliver then max - 1 else max, obs[1..]).1;
    assert ([PktOf(s, e)] + more)[1..] == more;
  }

  // ---- taking a polled packet ----

  /** The receive loop's test on a polled packet: its data lies inside the
      bounce slot and the buffer, or inside the buffer alone. */
  predicate Fits(pkt: RxPkt, nb: Netbuf, bounced: bool) {
    if bounced then pkt.len <= nb.size && pkt.offset + pkt.len <= RX_BUF_SIZE
    else pkt.offset != 0 ==> pkt.offset + pkt.len <= nb.size
  }

  /** A packet is copied out of the bounce slot mapped to its request, if any. */
  function FateOf(q: Rxq, pkt: RxPkt, nb: Netbuf): (f: Fate)
    ensures f.nb == nb
  {
    var bounced := pkt.reqId < |q.slots.map_| && q.slots.map_[pkt.reqId] >= 0;
    if !Fits(pkt, nb, bounced) then Refused(nb)
    else Passed(pkt, nb, if bounced then Bounce(q.slots.map_[pkt.reqId]) else Own)
  }

  function LogFate(s: Rx, fate: Fate): (t: Rx)
    requires Shape(s)
    ensures Follows(s, t)
  {
    s.(log := s.log.(gone := s.log.gone + [fate]))
  }

  /** Give the bounce slot back and pass the buffer up, or drop it. */
  function Take(n: Net, pkt: RxPkt): Net
    requires Shape(n.rx) && B.Shape(n.q.slots)
  {
    match pkt.netbuf
    case Null => n
    case Buf(nb) =>
      Net(LogFate(n.rx, FateOf(n.q, pkt, nb)), n.q.(slots := B.Unmap(n.q.slots, pkt.reqId)))
  }

  lemma FateGood(s: Rx, fate: Fate)
    requires Good(s, multiset{fate.nb})
    ensures Good(LogFate(s, fate), multiset{})
  {
    var t := LogFate(s, fate);
    forall id | 0 <= id < s.sqDepth ensures IdOk(t, id) { assert IdOk(s, id); }
    assert Bufs(t.log.gone) == Bufs(s.log.gone) + [fate.nb];
    ReleasedLedger(Bag(s.slots), multiset(Bufs(s.log.gone)), fate.nb);
  }

  lemma TakeSafe(n: Net, pkt: RxPkt)
    requires Safe(n, Unit(pkt.netbuf)) && (pkt.netbuf.Buf? ==> pkt.reqId < n.rx.sqDepth && !n.rx.ids.owned[pkt.reqId])
    ensures Safe(Take(n, pkt), multiset{}) && Follows(n.rx, Take(n, pkt).rx)
    ensures Sound(n, Unit(pkt.netbuf), OutId(pkt.netbuf, pkt.reqId)) ==> Sound(Take(n, pkt), multiset{}, {})
  {
    hide Good, Apart, Total, B.Unmap;
    match pkt.netbuf
    case Null =>
    case Buf(nb) =>
      UnmapMoves(n.q, pkt.reqId);
      FateGood(n.rx, FateOf(n.q, pkt, nb));
  }

  // ---- one receive ----

  lemma HandleOwned(s: Rx, e: RxCdesc)
    requires Inv(s)
    ensures var t := Handle(s, e);
            && Inv(t)
            && (Examine(s, e) == Oversize || Examine(s, e) == Deliver ==>
                t.ids.owned == s.ids.owned[e.reqId := false] && t.slots[e.reqId] == Null)
            && (Examine(s, e) == Stop || Examine(s, e) == Skip ==> t.ids.owned == s.ids.owned)
  {
    HandleShrinks(s, e);
    if e.reqId < s.sqDepth {
      DropKeeps(s, e.reqId);
      DeliverKeeps(s, e.reqId);
    }
  }

  /** A polled request is not allocated any more. */
  lemma {:induction false} PollFrees(s: Rx, max: nat, obs: seq<RxCdesc>)
    requires Inv(s)
    ensures var (t, pkts, _) := PollLoop(s, max, obs);
            && Inv(t)
            && (forall id :: 0 <= id < s.sqDepth && t.ids.owned[id] ==> s.ids.owned[id])
            && (forall k :: 0 <= k < |pkts| ==> pkts[k].reqId < s.sqDepth && !t.ids.owned[pkts[k].reqId])
    decreases |obs|
  {
    hide Inv, Handle;
    if max > 0 && obs != [] && Examine(s, obs[0]) != Stop {
      HandleOwned(s, obs[0]);
      PollFrees(Handle(s, obs[0]), if Examine(s, obs[0]) == Deliver then max - 1 else max, obs[1..]);
    }
  }

  /** The poll loop leaves the map entry of a request that is not in flight ... */
  lemma {:induction false} LoopMapIdle(n: Net, max: nat, obs: seq<RxCdesc>, id: nat)
    requires Inv(n.rx) && Apart(n.q) && n.q.pending == -1 && |n.q.slots.map_| == n.rx.sqDepth
    requires id < n.rx.sqDepth && !n.rx.inFlight[id]
    ensures NetLoop(n, max, obs).q.slots.map_[id] == n.q.slots.map_[id]
    decreases |obs|
  {
    hide Inv, Apart, NetHandle, NetLoop, PollLoop, Examine, Handle;
    if max > 0 && obs != [] && Examine(n.rx, obs[0]) != Stop {
      HandleMap(n, obs[0]);
      LoopMapIdle(NetHandle(n, obs[0]), if Examine(n.rx, obs[0]) == Deliver then max - 1 else max, obs[1..], id);
      NetUnfolds(n, max, obs);
    } else {
      NetStops(n, max, obs);
    }
  }

  /** ... and the map entry of a packet it hands out with a buffer. */
  lemma {:induction false} LoopMap(n: Net, max: nat, obs: seq<RxCdesc>, k: nat)
    requires Inv(n.rx) && Apart(n.q) && n.q.pending == -1 && |n.q.slots.map_| == n.rx.sqDepth
    requires var pkts := PollLoop(n.rx, max, obs).1; k < |pkts| && pkts[k].netbuf.Buf?
    ensures var id := PollLoop(n.rx, max, obs).1[k].reqId;
            id < n.rx.sqDepth && NetLoop(n, max, obs).q.slots.map_[id] == n.q.slots.map_[id]
    decreases |obs|
  {
    hide Inv, Apart, NetHandle, NetLoop, PollLoop, Examine, Handle, Drawn;
    if max == 0 || obs == [] || Examine(n.rx, obs[0]) == Stop {
      NetStops(n, max, obs);
    } else {
      var e := obs[0];
      var less := if Examine(n.rx, e) == Deliver then max - 1 else max;
      HandleMap(n, e);
      NetUnfolds(n, max, obs);
      PollUnfolds(n.rx, max, obs);
      if Examine(n.rx, e) == Deliver && k == 0 {
        LoopMapIdle(NetHandle(n, e), less, obs[1..], e.reqId);
      } else {
        var at := if Examine(n.rx, e) == Deliver then k - 1 else k;
        LoopMap(NetHandle(n, e), less, obs[1..], at);
        PollDraws(Handle(n.rx, e), less, obs[1..]);
        DrawnAt(Handle(n.rx, e), PollLoop(Handle(n.rx, e), less, obs[1..]).1, at);
      }
    }
  }

  lemma DrawnAt(s: Rx, pkts: seq<RxPkt>, k: nat)
    requires Shape(s) && Drawn(s, pkts) && k < |pkts|
    ensures PktDrawn(s, pkts[k])
  {
  }

  lemma NetUnfolds(n: Net, max: nat, obs: seq<RxCdesc>)
    requires Shape(n.rx) && Apart(n.q) && n.q.pending == -1
    requires max > 0 && obs != [] && Examine(n.rx, obs[0]) != Stop
    ensures Apart(NetHandle(n, obs[0]).q) && NetHandle(n, obs[0]).q.pending == -1
    ensures NetLoop(n, max, obs)
         == NetLoop(NetHandle(n, obs[0]), if Examine(n.rx, obs[0]) == Deliver then max - 1 else max, obs[1..])
    ensures Examine(n.rx, obs[0]) == Deliver ==> obs[0].reqId < n.rx.sqDepth
  {
    hide Apart, NetHandle;
    HandleApart(n, obs[0]);
  }

  lemma NetStops(n: Net, max: nat, obs: seq<RxCdesc>)
    requires Shape(n.rx) && Apart(n.q) && n.q.pending == -1
    requires max == 0 || obs == [] || Examine(n.rx, obs[0]) == Stop
    ensures NetLoop(n, max, obs) == n && PollLoop(n.rx, max, obs).1 == []
  {
  }

  lemma HandleMap(n: Net, e: RxCdesc)
    requires Inv(n.rx) && Apart(n.q) && n.q.pending == -1 && |n.q.slots.map_| == n.rx.sqDepth
    ensures var m := NetHandle(n, e);
            && Inv(m.rx) && m.rx == Handle(n.rx, e) && Apart(m.q) && m.q.pending == -1
            && |m.q.slots.map_| == n.rx.sqDepth == m.rx.sqDepth
            && (forall id :: 0 <= id < n.rx.sqDepth && m.rx.inFlight[id] ==> n.rx.inFlight[id])
            && (Examine(n.rx, e) == Oversize ==>
                && n.rx.inFlight[e.reqId] && m.rx.slots[e.reqId] == Null
                && forall id :: 0 <= id < n.rx.sqDepth && id != e.reqId ==> m.q.slots.map_[id] == n.q.slots.map_[id])
            && (Examine(n.rx, e) != Oversize ==> m.q == n.q)
            && (Examine(n.rx, e) == Deliver ==> !m.rx.inFlight[e.reqId])
  {
    HandleShrinks(n.rx, e);
    HandleOwned(n.rx, e);
    UnmapMoves(n.q, e.reqId);
  }

  /** One pass of the receive loop: poll one packet and take it. Returns the
      packets polled and the number of completions the ring dropped. */
  ghost function Receive(n: Net, obs: seq<RxCdesc>): (r: (Net, seq<RxPkt>, nat))
    requires Safe(n, multiset{})
    ensures |r.1| <= 1
  {
    SafeParts(n, multiset{});
    if !n.rx.hwValid then (n, [], 0)
    else
      var (_, pkts, dropped) := PollLoop(n.rx, 1, obs);
      var m := NetLoop(n, 1, obs);
      (if pkts == [] then m else Take(m, pkts[0]), pkts, dropped)
  }

  lemma SafeParts(n: Net, hand: multiset<Netbuf>)
    requires Safe(n, hand)
    ensures Inv(n.rx) && Apart(n.q) && n.q.pending == -1 && PostsMatch(n)
  {
  }

  lemma OnePkt(pkts: seq<RxPkt>)
    requires |pkts| == 1
    ensures multiset{} + PktBufs(pkts) == Unit(pkts[0].netbuf) && {} + OutIds(pkts) == OutId(pkts[0].netbuf, pkts[0].reqId)
  {
    assert PktBufs(pkts[1..]) == multiset{} && OutIds(pkts[1..]) == {};
  }

  lemma ReceiveSafe(n: Net, obs: seq<RxCdesc>)
    requires Safe(n, multiset{})
    ensures var m := Receive(n, obs).0;
            && Safe(m, multiset{}) && m.rx.sqDepth == n.rx.sqDepth
            && (Sound(n, multiset{}, {}) ==> Sound(m, multiset{}, {}))
  {
    hide Safe, Sound, Inv, Apart, NetLoop, PollLoop, Take, PktBufs, OutIds;
    SafeParts(n, multiset{});
    if n.rx.hwValid {
      var pkts := PollLoop(n.rx, 1, obs).1;
      NetLoopSafe(n, 1, obs, multiset{}, {});
      if pkts == [] {
        NoPktBufs(multiset{});
        NoOutIds({});
      } else {
        OnePkt(pkts);
        PollFrees(n.rx, 1, obs);
        TakeSafe(NetLoop(n, 1, obs), pkts[0]);
      }
    }
  }

  /** What a receive does with the packet it polls: the buffer is the one
      posted under the packet's request, no longer than the capacity posted,
      and its data is read from where the device was told to write it and
      lies inside that slot or buffer. */
  lemma ReceiveTakes(n: Net, obs: seq<RxCdesc>)
    requires Safe(n, multiset{}) && |Receive(n, obs).1| == 1 && Receive(n, obs).1[0].netbuf.Buf?
    ensures var (m, pkts, _) := Receive(n, obs);
            var id := pkts[0].reqId;
            && id < n.rx.sqDepth && n.rx.ids.owned[id] && n.rx.slots[id] == pkts[0].netbuf
            && pkts[0].len <= n.rx.caps[id] <= pkts[0].netbuf.nb.size
            && |m.rx.log.gone| > 0
            && var f := m.rx.log.gone[|m.rx.log.gone| - 1];
               f.nb == pkts[0].netbuf.nb && (f.Passed? ==>
                 && f.pkt == pkts[0] && f.from == n.rx.addrs[id]
                 && f.pkt.offset + f.pkt.len <= (if f.from.Bounce? then RX_BUF_SIZE else f.nb.size))
  {
    hide Safe, Apart, NetLoop, PollLoop, Good;
    SafeParts(n, multiset{});
    var p := Receive(n, obs).1[0];
    PollDraws(n.rx, 1, obs);
    assert PktDrawn(n.rx, p) && IdOk(n.rx, p.reqId);
    LoopMap(n, 1, obs, 0);
  }

  // ---- runs ----

  datatype NetStep =
    | RefillStep(count: nat, offers: seq<Offer>)
    | ReceiveStep(obs: seq<RxCdesc>)
    | DeviceReset
    | Recreated  // the queue is live again

  ghost function ApplyNet(n: Net, step: NetStep): Net
    requires Safe(n, multiset{})
  {
    match step
    case RefillStep(count, offers) => Refill(n, count, offers).0
    case ReceiveStep(obs) => Receive(n, obs).0
    case DeviceReset => n.(rx := Reset(n.rx))
    case Recreated => n.(rx := n.rx.(hwValid := true))
  }

  ghost function InitNet(depth: nat): Net
    requires DepthOk(depth)
  {
    Net(Init(depth, depth), Rxq(B.Init(depth), -1))
  }

  lemma InitSound(depth: nat)
    requires DepthOk(depth)
    ensures Sound(InitNet(depth), multiset{}, {})
  {
    InitGood(depth, depth);
    B.InitWhole(depth);
    var q := InitNet(depth).q;
    assert Total(q) == B.Account(q.slots);
  }

  lemma ResetSafe(n: Net)
    requires Safe(n, multiset{})
    ensures Safe(n.(rx := Reset(n.rx)), multiset{})
  {
    ResetGood(n.rx, multiset{});
  }

  lemma RecreatedSafe(n: Net)
    requires Safe(n, multiset{})
    ensures var m := n.(rx := n.rx.(hwValid := true));
            Safe(m, multiset{}) && (Sound(n, multiset{}, {}) ==> Sound(m, multiset{}, {}))
  {
    RecreatedGood(n.rx, multiset{});
  }

  lemma StepSafe(n: Net, step: NetStep)
    requires Safe(n, multiset{})
    ensures var m := ApplyNet(n, step);
            && Safe(m, multiset{}) && m.rx.sqDepth == n.rx.sqDepth
            && (Sound(n, multiset{}, {}) && !step.DeviceReset? ==> Sound(m, multiset{}, {}))
  {
    hide Safe, Sound, Receive, Refill;
    match step
    case RefillStep(count, offers) =>
    case ReceiveStep(obs) => ReceiveSafe(n, obs);
    case DeviceReset => ResetSafe(n);
    case Recreated => RecreatedSafe(n);
  }

  ghost function RunNet(depth: nat, steps: seq<NetStep>): (n: Net)
    requires DepthOk(depth)
    ensures Safe(n, multiset{}) && n.rx.sqDepth == depth
    ensures (forall i :: 0 <= i < |steps| ==> !steps[i].DeviceReset?) ==> Sound(n, multiset{}, {})
    decreases |steps|
  {
    hide Safe, Sound, ApplyNet;
    if steps == [] then InitSound(depth); InitNet(depth)
    else
      var n := RunNet(depth, steps[..|steps| - 1]);
      StepSafe(n, steps[|steps| - 1]);
      ApplyNet(n, steps[|steps| - 1])
  }

  // ---- theorems ----

  /** Each time the driver takes a buffer from the allocator, that buffer ends
      up in exactly one slot or leaves exactly once, passed on or released;
      over every run, with any completions and any resets. */
  lemma RxConservation(depth: nat, steps: seq<NetStep>, nb: Netbuf)
    requires DepthOk(depth)
    ensures var s := RunNet(depth, steps).rx;
            multiset(s.log.taken)[nb] == |Holders(s.slots, nb)| + multiset(Bufs(s.log.gone))[nb]
  {
    var s := RunNet(depth, steps).rx;
    HolderCount(s.slots, nb);
    assert Conserved(s, multiset{});
  }

  /** Over every run: an ID that is not allocated has an empty slot, and an
      allocated one is in flight, holds a buffer at least as large as the
      length offered, and was posted with the bounce slot mapped to it. The
      pool-full error never happens. */
  lemma RxSlots(depth: nat, steps: seq<NetStep>, id: nat)
    requires DepthOk(depth) && id < depth
    ensures var n := RunNet(depth, steps);
            && (!n.rx.ids.owned[id] ==> n.rx.slots[id] == Null && n.rx.caps[id] == 0)
            && (n.rx.ids.owned[id] ==>
                && n.rx.inFlight[id] && n.rx.slots[id].Buf? && 0 < n.rx.caps[id] <= n.rx.slots[id].nb.size
                && n.rx.addrs[id] == AddrOf(n.q.slots.map_[id]))
            && n.rx.log.faults == 0
  {
    hide Apart;
    var n := RunNet(depth, steps);
    assert IdOk(n.rx, id);
  }

  /** Between resets: after every step each bounce slot is waiting or mapped
      to exactly one request, that request is posted, and none is in hand. */
  lemma RxBounceConservation(depth: nat, steps: seq<NetStep>, slot: nat)
    requires DepthOk(depth) && slot < depth
    requires forall i :: 0 <= i < |steps| ==> !steps[i].DeviceReset?
    ensures var n := RunNet(depth, steps);
            var q := n.q.slots;
            && n.q.pending == -1
            && multiset(q.free.Contents())[slot] + B.Used(q.map_)[slot] == 1
            && (forall id :: 0 <= id < |q.map_| && q.map_[id] >= 0 ==> n.rx.ids.owned[id])
  {
    hide Good;
    var q := RunNet(depth, steps).q;
    assert Total(q)[slot] == Each(|q.slots.map_|)[slot];
  }

  /** Over every run, resets included: two posted buffers never share a
      bounce slot. */
  lemma RxBounceNoSharing(depth: nat, steps: seq<NetStep>, i: nat, j: nat)
    requires DepthOk(depth) && i < j < depth
    ensures var s := RunNet(depth, steps).rx;
            s.ids.owned[i] && s.ids.owned[j] && s.addrs[i].Bounce? ==> s.addrs[i] != s.addrs[j]
  {
    hide Good;
    var n := RunNet(depth, steps);
    ApartSlots(n.q);
    B.ApartMeans(n.q.slots, i, j);
  }
}
