/** The RX bounce slots over every run, resets included: how many are lost, and
    by which posts. Also two short runs: one that loses a slot, one that leaves
    a stale in-flight flag. */
module RxBounce {
  import opened RingTypes
  import opened RxRing
  import opened RxAccounting
  import opened RxNetdev
  import B = BounceSlots

  /** How many posts of a refill name an ID that still has a slot. */
  ghost function Overwritten(n: Net, count: nat, offers: seq<Offer>): nat
    requires Safe(n, multiset{})
    decreases |offers|
  {
    if count == 0 || n.rx.ids.free.count == 0 || offers == [] || !Posts(n, offers[0]) then 0
    else
      hide Safe, RefillOne, Posts;
      RefillOneSafe(n, offers[0]);
      (if n.q.slots.map_[NextId(n)] >= 0 then 1 else 0) + Overwritten(RefillOne(n, offers[0]).0, count - 1, offers[1..])
  }

  /** How many posts of a run did that. */
  ghost function Lost(depth: nat, steps: seq<NetStep>): nat
    requires DepthOk(depth)
    decreases |steps|
  {
    if steps == [] then 0
    else
      var k := |steps| - 1;
      var n := RunNet(depth, steps[..k]);
      Lost(depth, steps[..k]) +
      if steps[k].RefillStep? then Overwritten(n, steps[k].count, steps[k].offers) else 0
  }

  lemma UsedOneSize(x: int)
    ensures |B.UsedOne(x)| == if x >= 0 then 1 else 0
  {
  }

  lemma {:induction false} RefillTotal(n: Net, count: nat, offers: seq<Offer>)
    requires Safe(n, multiset{})
    ensures |Total(Refill(n, count, offers).0.q)| + Overwritten(n, count, offers) == |Total(n.q)|
    decreases |offers|
  {
    hide Safe, Sound, Total, RefillOne, Posts, Apart;
    if count > 0 && n.rx.ids.free.count > 0 && offers != [] {
      RefillPool(n, offers[0]);
      PostsIff(n, offers[0]);
      RefillOneSafe(n, offers[0]);
      if Posts(n, offers[0]) {
        UsedOneSize(n.q.slots.map_[NextId(n)]);
        RefillTotal(RefillOne(n, offers[0]).0, count - 1, offers[1..]);
      }
    }
  }

  lemma {:induction false} NetLoopTotal(n: Net, max: nat, obs: seq<RxCdesc>)
    requires Shape(n.rx) && Apart(n.q) && n.q.pending == -1
    ensures Total(NetLoop(n, max, obs).q) == Total(n.q)
    decreases |obs|
  {
    hide Apart, Total, NetHandle;
    if max > 0 && obs != [] && Examine(n.rx, obs[0]) != Stop {
      HandleApart(n, obs[0]);
      HandleTotal(n, obs[0]);
      NetLoopTotal(NetHandle(n, obs[0]), if Examine(n.rx, obs[0]) == Deliver then max - 1 else max, obs[1..]);
    }
  }

  lemma HandleTotal(n: Net, e: RxCdesc)
    requires Shape(n.rx) && Apart(n.q) && n.q.pending == -1
    ensures Apart(NetHandle(n, e).q) && Total(NetHandle(n, e).q) == Total(n.q)
  {
    UnmapMoves(n.q, e.reqId);
  }

  lemma ReceiveTotal(n: Net, obs: seq<RxCdesc>)
    requires Safe(n, multiset{}) && Apart(Receive(n, obs).0.q)
    ensures Total(Receive(n, obs).0.q) == Total(n.q)
  {
    hide Safe, Inv, Apart, Total, NetLoop, PollLoop, PostsMatch;
    SafeParts(n, multiset{});
    if n.rx.hwValid {
      NetLoopTotal(n, 1, obs);
      var pkts := PollLoop(n.rx, 1, obs).1;
      if pkts != [] && pkts[0].netbuf.Buf? { UnmapMoves(NetLoop(n, 1, obs).q, pkts[0].reqId); }
    }
  }

  lemma StepTotal(n: Net, step: NetStep)
    requires Safe(n, multiset{}) && Safe(ApplyNet(n, step), multiset{})
    ensures |Total(ApplyNet(n, step).q)| +
            (if step.RefillStep? then Overwritten(n, step.count, step.offers) else 0) == |Total(n.q)|
  {
    hide Safe, Total, Refill, Receive, Overwritten, PostsMatch, Inv, Apart;
    SafeParts(ApplyNet(n, step), multiset{});
    match step
    case RefillStep(count, offers) => RefillTotal(n, count, offers);
    case ReceiveStep(obs) => ReceiveTotal(n, obs);
    case DeviceReset =>
    case Recreated =>
  }

  lemma {:induction false} RunTotal(depth: nat, steps: seq<NetStep>)
    requires DepthOk(depth)
    ensures |Total(RunNet(depth, steps).q)| + Lost(depth, steps) == depth
    decreases |steps|
  {
    hide Safe, Sound, ApplyNet, Total, Overwritten;
    if steps == [] {
      InitSlots(depth);
    } else {
      var k := |steps| - 1;
      RunTotal(depth, steps[..k]);
      StepSafe(RunNet(depth, steps[..k]), steps[k]);
      StepTotal(RunNet(depth, steps[..k]), steps[k]);
    }
  }

  lemma InitSlots(depth: nat)
    requires DepthOk(depth)
    ensures B.Shape(InitNet(depth).q.slots) && |Total(InitNet(depth).q)| == depth
  {
    hide B.Account;
    var b := B.Init(depth);
    B.InitWhole(depth);
    B.WholeSize(b);
    assert Total(InitNet(depth).q) == B.Account(b);
  }

  lemma IdleTotal(n: Net)
    requires Safe(n, multiset{})
    ensures B.Apart(n.q.slots) && Total(n.q) == B.Account(n.q.slots) && (Whole(n.q) <==> B.Whole(n.q.slots))
  {
    hide Good, B.Account, PostsMatch;
    ApartSlots(n.q);
    assert B.Account(n.q.slots) + multiset{} == B.Account(n.q.slots);
  }

  // ---- theorems ----

  /** Over every run: the waiting slots, the mapped requests and the posts that
      overwrote a map entry add up to the number of slots; the pool is whole
      exactly when no post did. */
  lemma RxBounceLedger(depth: nat, steps: seq<NetStep>)
    requires DepthOk(depth)
    ensures var q := RunNet(depth, steps).q;
            && q.slots.free.count + |B.Mapped(q.slots.map_)| + Lost(depth, steps) == depth
            && (Whole(q) <==> Lost(depth, steps) == 0)
  {
    hide Safe, Sound, Total, Whole, B.Account, B.Apart, B.Whole, Lost;
    RunTotal(depth, steps);
    IdleTotal(RunNet(depth, steps));
    B.LostCount(RunNet(depth, steps).q.slots, Lost(depth, steps));
  }

  lemma RunOf(depth: nat, steps: seq<NetStep>, step: NetStep)
    requires DepthOk(depth)
    ensures RunNet(depth, steps + [step]) == ApplyNet(RunNet(depth, steps), step)
    ensures Lost(depth, steps + [step]) == Lost(depth, steps) +
            if step.RefillStep? then Overwritten(RunNet(depth, steps), step.count, step.offers) else 0
  {
    hide Safe, Sound, ApplyNet, Overwritten;
    assert (steps + [step])[..|steps|] == steps;
  }

  lemma FourSteps(a: NetStep, b: NetStep, c: NetStep, d: NetStep)
    ensures ((([] + [a]) + [b]) + [c]) + [d] == [a, b, c, d]
  {
  }

  /** A run that loses a slot, for every depth: a buffer posted with a bounce
      slot, a reset before its completion, and another such buffer on the ring
      that is live again. */
  lemma ResetRunLosesSlot(depth: nat, nb: Netbuf)
    requires DepthOk(depth) && 0 < nb.size
    ensures var refill := RefillStep(1, [Offered(nb, true)]);
            var run := [refill, DeviceReset, Recreated, refill];
            Lost(depth, run) == 1 && !Whole(RunNet(depth, run).q)
  {
    hide RunNet, Lost, Safe, Sound, ApplyNet, Overwritten, Whole, Reset, B.Mapped;
    var refill := RefillStep(1, [Offered(nb, true)]);
    FirstPost(depth, nb, true);
    var one, two := [] + [refill], ([] + [refill]) + [DeviceReset];
    var three := two + [Recreated];
    RunOf(depth, [], refill);
    RunOf(depth, one, DeviceReset);
    RunOf(depth, two, Recreated);
    RunOf(depth, three, refill);
    SecondPost(RunNet(depth, one), nb);
    FourSteps(refill, DeviceReset, Recreated, refill);
    RxBounceLedger(depth, [refill, DeviceReset, Recreated, refill]);
  }

  /** The first post of a run gets request 0, and slot 0 if its buffer is low. */
  lemma FirstPost(depth: nat, nb: Netbuf, low: bool)
    requires DepthOk(depth) && 0 < nb.size && (!low ==> nb.size <= 0xFFFF)
    ensures var n, offer := RunNet(depth, []), Offered(nb, low);
            var m := ApplyNet(n, RefillStep(1, [offer]));
            && Overwritten(n, 1, [offer]) == 0 && Lost(depth, []) == 0
            && Posts(n, offer) && NextId(n) == 0 && m == RefillOne(n, offer).0 && n.rx.cqPhase == 1
            && 0 < |m.q.slots.map_| && (low ==> m.q.slots.map_[0] == 0 && 0 < m.q.slots.free.count)
  {
    hide Safe, Sound, RefillOne;
    InitSound(depth);
    var n, offer := InitNet(depth), Offered(nb, low);
    assert Posts(n, offer) && NextId(n) == 0;
    OnePost(n, offer);
    PostsIff(n, offer);
    if low { assert AllocHelper(n.q, offer).0.pending == 0; }
  }

  lemma OnePost(n: Net, offer: Offer)
    requires Safe(n, multiset{}) && Posts(n, offer)
    ensures Refill(n, 1, [offer]).0 == RefillOne(n, offer).0
    ensures Overwritten(n, 1, [offer]) == if n.q.slots.map_[NextId(n)] >= 0 then 1 else 0
  {
    hide Safe, Sound, RefillOne, Posts;
    PostsIff(n, offer);
    RefillOneSafe(n, offer);
  }

  lemma SecondPost(n: Net, nb: Netbuf)
    requires Safe(n, multiset{}) && n.q.slots.map_[0] >= 0 && 0 < n.q.slots.free.count && 0 < nb.size
    ensures var m := n.(rx := Reset(n.rx));
            && ApplyNet(n, DeviceReset) == m && Safe(m, multiset{}) && Safe(ApplyNet(m, Recreated), multiset{})
            && Overwritten(ApplyNet(m, Recreated), 1, [Offered(nb, true)]) == 1
  {
    hide Safe, Sound, Overwritten;
    ResetSafe(n);
    var m := n.(rx := Reset(n.rx));
    RecreatedSafe(m);
    var u := ApplyNet(m, Recreated);
    assert Posts(u, Offered(nb, true)) && NextId(u) == 0;
    OnePost(u, Offered(nb, true));
  }

  /** A run that leaves a stale flag, for every depth: one posted buffer and a
      completion longer than it. */
  lemma OversizeRunStalesFlag(depth: nat, nb: Netbuf, body: RxBody)
    requires DepthOk(depth) && 0 < nb.size <= 0xFFFF && body.len > nb.size
    ensures var run := [RefillStep(1, [Offered(nb, false)]), ReceiveStep([Cdesc(1, 0, body)])];
            var s := RunNet(depth, run).rx;
            !FlagsExact(s) && s.inFlight[0] && !s.ids.owned[0] && s.slots[0] == Null
  {
    hide RunNet, Safe, Sound, Posts, RefillOne, Refill, Receive;
    var offer, e := Offered(nb, false), Cdesc(1, 0, body);
    var n := RunNet(depth, []);
    FirstPost(depth, nb, false);
    RunOf(depth, [], RefillStep(1, [offer]));
    RunOf(depth, [] + [RefillStep(1, [offer])], ReceiveStep([e]));
    assert [] + [RefillStep(1, [offer])] + [ReceiveStep([e])] == [RefillStep(1, [offer]), ReceiveStep([e])];
    RefillTracks(n, offer);
    OversizeStales(RunNet(depth, [] + [RefillStep(1, [offer])]), e);
  }

  lemma OversizeStales(n: Net, e: RxCdesc)
    requires Safe(n, multiset{}) && n.rx.hwValid && e.reqId < n.rx.sqDepth && n.rx.ids.owned[e.reqId]
    requires e.phase == n.rx.cqPhase && e.body.len > n.rx.caps[e.reqId]
    ensures var s := Receive(n, [e]).0.rx;
            && s.inFlight == n.rx.inFlight && s.inFlight[e.reqId]
            && s.ids.owned == n.rx.ids.owned[e.reqId := false] && s.slots == n.rx.slots[e.reqId := Null]
  {
    hide Apart, PostsMatch;
    SafeParts(n, multiset{});
    assert IdOk(n.rx, e.reqId) && Examine(n.rx, e) == Oversize;
    DropKeeps(n.rx, e.reqId);
  }
}
