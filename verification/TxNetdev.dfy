/** The netdev transmit layer on top of a TX ring: low-memory packets travel
    through bounce slots (`ena_netdev_txq_xmit`, `ena_netdev_txq_reclaim_slot`). */
module TxNetdev {
  import opened IdLists
  import opened IdFifo
  import opened RingTypes
  import B = BounceSlots
  import opened TxRing
  import opened TxRuns

  const BOUNCE_SIZE := 4096
  const STALL_LIMIT := 256

  datatype Txq = Txq(slots: B.Slots, inUse: bool, waitPolls: nat)

  datatype Net = Net(tx: Tx, q: Txq)

  /** A packet handed to the device; `low` tells that its address lies below
      the DMA limit, so it must be copied into a bounce slot. */
  datatype Frame = Frame(pkt: Pkt, low: bool)

  ghost predicate ShapeNet(n: Net) {
    Shape(n.tx) && B.Shape(n.q.slots) && |n.q.slots.map_| == n.tx.sqDepth
  }

  /** `ena_netdev_txq_reclaim_slot`. */
  function ReclaimSlot(q: Txq, req: nat): Txq
    requires B.Shape(q.slots)
  {
    if req >= |q.slots.map_| || q.slots.map_[req] < 0 then q
    else
      var slots := B.Unmap(q.slots, req);
      Txq(slots, slots.free.count < |slots.map_|, 0)
  }

  /** `ena_tx_poll_completions` with its tests before the lock. */
  function PollCompletions(s: Tx, cpu: nat, budget: nat, obs: seq<TxCdesc>): (r: (Tx, nat))
    requires Shape(s)
    ensures Follows(s, r.0)
  {
    if !s.hwValid then (s, 0)
    else if s.ids.free.count >= s.sqDepth then (s, 0)
    else PollLocked(s, cpu, if budget == 0 then s.cqDepth else budget, obs)
  }

  /** `ena_tx_submit` with its tests before the lock. */
  function SubmitPkt(s: Tx, cpu: nat, pkt: Pkt): (r: (Tx, SubmitResult))
    requires Shape(s)
    ensures Follows(s, r.0)
  {
    if !s.hwValid then (s, Failed(ENODEV))
    else if pkt.len == 0 || pkt.len > 0xFFFF then (s, Failed(EINVAL))
    else SubmitLocked(s, cpu, pkt)
  }

  /** The poll loop together with the completion callback it makes. */
  ghost function NetLoop(n: Net, cpu: nat, budget: nat, obs: seq<TxCdesc>): (m: Net)
    requires Shape(n.tx) && B.Apart(n.q.slots)
    ensures m.tx == PollLoop(n.tx, cpu, budget, obs).0
    ensures B.Apart(m.q.slots) && |m.q.slots.map_| == |n.q.slots.map_|
    decreases |obs|
  {
    if budget == 0 || obs == [] then n
    else
      match Examine(n.tx, obs[0])
      case Stop => n
      case Skip => NetLoop(n.(tx := AdvanceCq(n.tx)), cpu, budget, obs[1..])
      case Complete =>
        B.UnmapMoves(n.q.slots, obs[0].reqId);
        NetLoop(Net(AdvanceCq(CompleteReq(n.tx, cpu, obs[0])), ReclaimSlot(n.q, obs[0].reqId)),
                cpu, budget - 1, obs[1..])
  }

  /** One poll: the ring and its callback. */
  ghost function PollNet(n: Net, cpu: nat, budget: nat, obs: seq<TxCdesc>): (m: Net)
    requires ShapeNet(n) && B.Apart(n.q.slots)
    ensures m.tx == PollCompletions(n.tx, cpu, budget, obs).0
    ensures ShapeNet(m) && B.Apart(m.q.slots) && Follows(n.tx, m.tx)
  {
    if !n.tx.hwValid || n.tx.ids.free.count >= n.tx.sqDepth then n
    else
      NetLoop(n.(tx := Drain(n.tx, cpu, 0)), cpu, if budget == 0 then n.tx.cqDepth else budget, obs)
  }

  /** The transmit call after its poll. */
  function Send(n: Net, cpu: nat, f: Frame): (r: (Net, SubmitResult))
    requires ShapeNet(n)
    ensures Follows(n.tx, r.0.tx)
  {
    var q := if n.q.slots.free.count == 0 && n.q.waitPolls < STALL_LIMIT
             then n.q.(waitPolls := n.q.waitPolls + 1) else n.q;
    if !f.low then
      var (t, r) := SubmitPkt(n.tx, cpu, f.pkt);
      (Net(t, q), r)
    else if q.slots.free.count == 0 then (Net(n.tx, q), Failed(EBUSY))
    else if f.pkt.len > BOUNCE_SIZE then (Net(n.tx, q), Failed(EINVAL))
    else
      var (slot, taken) := B.Take(q.slots);
      PopContents(q.slots.free);
      var nb := |taken.map_|;
      var (t, r) := SubmitPkt(n.tx, cpu, f.pkt);
      match r
      case Sent(id) =>
        var slots := if id < nb then taken.(map_ := taken.map_[id := slot]) else taken;
        (Net(t, Txq(slots, slots.free.count < nb, 0)), r)
      case Failed(_) =>
        var slots := B.Give(taken, slot);
        (Net(t, q.(slots := slots, inUse := slots.free.count < nb)), r)
  }

  /** `ena_netdev_txq_xmit`. */
  ghost function Xmit(n: Net, cpu: nat, f: Frame, budget: nat, obs: seq<TxCdesc>): (r: (Net, SubmitResult))
    requires ShapeNet(n) && B.Apart(n.q.slots)
    ensures Follows(n.tx, r.0.tx)
  {
    Send(PollNet(n, cpu, budget, obs), cpu, f)
  }

  // ---- invariants ----

  /** Holds over every run, resets included. */
  ghost predicate Safe(n: Net)
    ensures Safe(n) ==> ShapeNet(n) && Good(n.tx) && B.Apart(n.q.slots)
  {
    && Good(n.tx) && B.Apart(n.q.slots) && |n.q.slots.map_| == n.tx.sqDepth
  }

  /** Holds between resets. */
  ghost predicate Sound(n: Net)
    ensures Sound(n) ==> Safe(n)
  {
    && Safe(n) && B.Whole(n.q.slots)
    && (n.q.inUse <==> n.q.slots.free.count < n.tx.sqDepth)
    && MappedInFlight(n)
  }

  /** A request with a bounce slot is in flight. */
  ghost predicate MappedInFlight(n: Net)
    requires Safe(n)
  {
    forall id :: 0 <= id < n.tx.sqDepth && n.q.slots.map_[id] >= 0 ==> n.tx.inFlight[id]
  }

  lemma ReclaimSlotKeeps(q: Txq, req: nat)
    requires B.Apart(q.slots)
    ensures var r := ReclaimSlot(q, req);
            && B.Apart(r.slots) && B.Account(r.slots) == B.Account(q.slots)
            && r.slots.map_ == (if req < |q.slots.map_| then q.slots.map_[req := -1] else q.slots.map_)
            && (if req < |q.slots.map_| && q.slots.map_[req] >= 0
                then (r.inUse <==> r.slots.free.count < |r.slots.map_|) && r.waitPolls == 0
                else r == q)
  {
    B.UnmapMoves(q.slots, req);
  }

  /** One matched completion: the ring step and its callback. */
  lemma CompleteSound(n: Net, cpu: nat, e: TxCdesc)
    requires Sound(n) && Examine(n.tx, e) == Complete
    ensures Sound(Net(AdvanceCq(CompleteReq(n.tx, cpu, e)), ReclaimSlot(n.q, e.reqId)))
  {
    hide Good, CompleteReq, AdvanceCq, ReclaimSlot, B.Account, B.Shape;
    CompleteFlight(n.tx, cpu, e);
    ReclaimSlotKeeps(n.q, e.reqId);
  }

  lemma CompleteFlight(s: Tx, cpu: nat, e: TxCdesc)
    requires Good(s) && Examine(s, e) == Complete
    ensures var t := AdvanceCq(CompleteReq(s, cpu, e));
            Good(t) && t.sqDepth == s.sqDepth && t.inFlight == s.inFlight[e.reqId := false]
  {
    CompleteGood(s, cpu, e);
    CompleteKeeps(s, cpu, e);
    AdvanceKeeps(CompleteReq(s, cpu, e));
  }

  lemma AdvanceSound(n: Net)
    requires Sound(n)
    ensures Sound(n.(tx := AdvanceCq(n.tx)))
  {
    AdvanceKeeps(n.tx);
  }

  lemma {:induction false} NetLoopSound(n: Net, cpu: nat, budget: nat, obs: seq<TxCdesc>)
    requires Sound(n)
    ensures Sound(NetLoop(n, cpu, budget, obs))
    decreases |obs|
  {
    hide Good, Safe, Sound, CompleteReq, AdvanceCq, ReclaimSlot, B.Apart, B.Shape, PollLoop;
    if budget > 0 && obs != [] {
      match Examine(n.tx, obs[0])
      case Stop =>
      case Skip =>
        AdvanceSound(n);
        NetLoopSound(n.(tx := AdvanceCq(n.tx)), cpu, budget, obs[1..]);
      case Complete =>
        CompleteSound(n, cpu, obs[0]);
        NetLoopSound(Net(AdvanceCq(CompleteReq(n.tx, cpu, obs[0])), ReclaimSlot(n.q, obs[0].reqId)),
                     cpu, budget - 1, obs[1..]);
    }
  }

  lemma {:induction false} DrainFrame(s: Tx, cpu: nat, i: nat)
    requires Good(s) && i <= s.foreignCount
    ensures var t := Drain(s, cpu, i);
            t.inFlight == s.inFlight && t.sqDepth == s.sqDepth
    decreases s.foreignCount - i
  {
    if i < s.foreignCount {
      if s.foreign[i].owner != cpu {
        DrainFrame(s, cpu, i + 1);
      } else {
        DrainEntryKeeps(s, cpu, i);
        DrainEntryConserves(s, cpu, i);
        DrainFrame(DrainEntry(s, cpu, i), cpu, i);
      }
    }
  }

  lemma PollSound(n: Net, cpu: nat, budget: nat, obs: seq<TxCdesc>)
    requires Sound(n)
    ensures Sound(PollNet(n, cpu, budget, obs))
  {
    if n.tx.hwValid && n.tx.ids.free.count < n.tx.sqDepth {
      DrainKeeps(n.tx, cpu, 0);
      DrainFrame(n.tx, cpu, 0);
      NetLoopSound(n.(tx := Drain(n.tx, cpu, 0)), cpu, if budget == 0 then n.tx.cqDepth else budget, obs);
    }
  }

  lemma SubmitPktGood(s: Tx, cpu: nat, pkt: Pkt)
    requires Good(s)
    ensures var (t, r) := SubmitPkt(s, cpu, pkt);
            && Good(t)
            && (r.Failed? ==> t == s)
            && (r.Sent? ==> r.reqId < s.sqDepth && !s.inFlight[r.reqId] && t.inFlight == s.inFlight[r.reqId := true])
  {
    SubmitGood(s, cpu, pkt);
    SubmitKeeps(s, cpu, pkt);
    var (t, r) := SubmitPkt(s, cpu, pkt);
    if r.Sent? { assert IdOk(s, r.reqId, {}); }
  }

  /** The caller can tell beforehand whether a send posts its frame from a
      bounce slot. */
  predicate Bounces(n: Net, f: Frame): (b: bool)
    ensures b ==> 0 < n.tx.ids.free.count && 0 < n.q.slots.free.count
  {
    && f.low && n.tx.hwValid && 0 < f.pkt.len <= BOUNCE_SIZE
    && 0 < n.q.slots.free.count && 0 < n.tx.ids.free.count
  }

  /** The ID that the next post gets. */
  function NextId(n: Net): (id: nat)
    requires Shape(n.tx) && 0 < n.tx.ids.free.count
    ensures id < n.tx.sqDepth
  {
    n.tx.ids.free.Front()
  }

  /** A send moves a slot into the map entry of the ID it is given, which loses
      the slot that entry named, or changes neither the map nor the account. */
  lemma SendMoves(n: Net, cpu: nat, f: Frame)
    requires Safe(n)
    ensures var (m, r) := Send(n, cpu, f);
            var q := n.q.slots;
            && B.Apart(m.q.slots)
            && (if Bounces(n, f) then
                  && r == Sent(NextId(n)) && m.q.slots.map_ == q.map_[NextId(n) := q.free.Front()]
                  && B.Account(m.q.slots) + B.UsedOne(q.map_[NextId(n)]) == B.Account(q)
                else
                  && (f.low ==> r.Failed?) && m.q.slots.map_ == q.map_ && B.Account(m.q.slots) == B.Account(q))
  {
    hide Good, Send, B.Account, Bounces;
    if Bounces(n, f) { SendPosts(n, cpu, f); } else { SendKeeps(n, cpu, f); }
  }

  lemma PktSent(n: Net, cpu: nat, pkt: Pkt)
    requires Shape(n.tx)
    ensures var r := SubmitPkt(n.tx, cpu, pkt).1;
            && (r.Sent? <==> n.tx.hwValid && 0 < pkt.len <= 0xFFFF && 0 < n.tx.ids.free.count)
            && (r.Sent? ==> r == Sent(NextId(n)))
  {
  }

  lemma SendPosts(n: Net, cpu: nat, f: Frame)
    requires Safe(n) && Bounces(n, f)
    ensures var (m, r) := Send(n, cpu, f);
            var q := n.q.slots;
            && B.Apart(m.q.slots)
            && r == Sent(NextId(n)) && m.q.slots.map_ == q.map_[NextId(n) := q.free.Front()]
            && B.Account(m.q.slots) + B.UsedOne(q.map_[NextId(n)]) == B.Account(q)
  {
    hide Good, SubmitPkt, B.Account;
    PktSent(n, cpu, f.pkt);
    B.TakeThenName(n.q.slots, NextId(n));
  }

  lemma SendKeeps(n: Net, cpu: nat, f: Frame)
    requires Safe(n) && !Bounces(n, f)
    ensures var (m, r) := Send(n, cpu, f);
            && B.Apart(m.q.slots) && (f.low ==> r.Failed?)
            && m.q.slots.map_ == n.q.slots.map_ && B.Account(m.q.slots) == B.Account(n.q.slots)
  {
    hide Good, SubmitPkt, B.Account;
    PktSent(n, cpu, f.pkt);
    if 0 < n.q.slots.free.count { B.TakeThenGive(n.q.slots); }
  }

  /** A bounced send keeps the pool whole exactly when it posts nothing or posts
      under an ID that has no slot mapped. */
  lemma SendBounced(n: Net, cpu: nat, f: Frame)
    requires Safe(n) && f.low
    ensures var m := Send(n, cpu, f).0;
            && Safe(m)
            && (B.Whole(n.q.slots) ==>
                (B.Whole(m.q.slots) <==> !(Bounces(n, f) && n.q.slots.map_[NextId(n)] >= 0)))
  {
    hide Good, B.Account, Send, Bounces;
    SendMoves(n, cpu, f);
    SendRing(n, cpu, f);
    if Bounces(n, f) {
      var lost := B.UsedOne(n.q.slots.map_[NextId(n)]);
      LostSome(B.Account(Send(n, cpu, f).0.q.slots), B.Account(n.q.slots), lost);
    }
  }

  lemma LostSome(now: multiset<nat>, was: multiset<nat>, lost: multiset<nat>)
    requires now + lost == was
    ensures now == was <==> lost == multiset{}
  {
    assert |now + lost| == |now| + |lost|;
  }

  lemma SendRing(n: Net, cpu: nat, f: Frame)
    requires Safe(n)
    ensures var m := Send(n, cpu, f).0; Good(m.tx) && m.tx.sqDepth == n.tx.sqDepth
  {
    hide Good;
    SubmitPktGood(n.tx, cpu, f.pkt);
  }

  lemma SendSafe(n: Net, cpu: nat, f: Frame)
    requires Safe(n)
    ensures Safe(Send(n, cpu, f).0)
  {
    hide Good, B.Account, Send, Bounces;
    SendRing(n, cpu, f);
    SendMoves(n, cpu, f);
  }

  /** What a send does to the map: at most the entry of the ID it was given
      changes. */
  lemma SendMap(n: Net, cpu: nat, f: Frame)
    requires Safe(n)
    ensures var (m, r) := Send(n, cpu, f);
            && (r.Failed? || !f.low ==> m.q.slots.map_ == n.q.slots.map_)
            && (r.Sent? && f.low ==> r.reqId < |n.q.slots.map_| && 0 < n.q.slots.free.count
                                     && m.q.slots.map_ == n.q.slots.map_[r.reqId := n.q.slots.free.Front()])
            && (r.Failed? ==> m.tx == n.tx)
            && (r.Sent? ==> (m.tx, r) == SubmitPkt(n.tx, cpu, f.pkt))
  {
    hide Good, B.Apart;
    SubmitPktGood(n.tx, cpu, f.pkt);
  }

  lemma SendInUse(n: Net, cpu: nat, f: Frame)
    requires Safe(n) && (n.q.inUse <==> n.q.slots.free.count < n.tx.sqDepth)
    ensures var m := Send(n, cpu, f).0; m.q.inUse <==> m.q.slots.free.count < n.tx.sqDepth
  {
    hide Good, B.Apart, SubmitPkt;
  }

  lemma SendSound(n: Net, cpu: nat, f: Frame)
    requires Sound(n)
    ensures Sound(Send(n, cpu, f).0)
  {
    hide Good, Safe, B.Apart, B.Whole, Send, SubmitPkt, Bounces;
    SubmitPktGood(n.tx, cpu, f.pkt);
    SendMoves(n, cpu, f);
    SendMap(n, cpu, f);
    SendInUse(n, cpu, f);
    SendSafe(n, cpu, f);
    if f.low { SendBounced(n, cpu, f); } else { SendDirect(n, cpu, f); }
  }

  lemma SendDirect(n: Net, cpu: nat, f: Frame)
    requires Safe(n) && !f.low
    ensures Send(n, cpu, f).0.q.slots == n.q.slots
  {
  }

  // ---- runs ----

  datatype NetStep =
    | XmitStep(cpu: nat, f: Frame, budget: nat, obs: seq<TxCdesc>)
    | PollStep(cpu: nat, budget: nat, obs: seq<TxCdesc>)
    | DeviceReset
    | Recreated  // the queue is live again

  ghost function ApplyNet(n: Net, step: NetStep): (m: Net)
    requires Safe(n)
    ensures m.tx.sqDepth == n.tx.sqDepth
  {
    match step
    case XmitStep(cpu, f, budget, obs) => Xmit(n, cpu, f, budget, obs).0
    case PollStep(cpu, budget, obs) => PollNet(n, cpu, budget, obs)
    case DeviceReset => n.(tx := Reset(n.tx))
    case Recreated => n.(tx := n.tx.(hwValid := true))
  }

  ghost function InitNet(depth: nat): Net
    requires DepthOk(depth)
  {
    Net(Init(depth, depth), Txq(B.Init(depth), false, 0))
  }

  lemma InitSound(depth: nat)
    requires DepthOk(depth)
    ensures Sound(InitNet(depth))
  {
    InitGood(depth, depth);
    B.InitWhole(depth);
  }

  lemma PollSafe(n: Net, cpu: nat, budget: nat, obs: seq<TxCdesc>)
    requires Safe(n)
    ensures Safe(PollNet(n, cpu, budget, obs))
  {
    if n.tx.hwValid && n.tx.ids.free.count < n.tx.sqDepth {
      DrainKeeps(n.tx, cpu, 0);
      PollLoopKeeps(Drain(n.tx, cpu, 0), cpu, if budget == 0 then n.tx.cqDepth else budget, obs);
    }
  }

  lemma StepSafe(n: Net, step: NetStep)
    requires Safe(n)
    ensures Safe(ApplyNet(n, step))
    ensures Sound(n) && !step.DeviceReset? ==> Sound(ApplyNet(n, step))
  {
    hide Good, PollNet, Send, B.Apart, B.Whole;
    match step
    case XmitStep(cpu, f, budget, obs) =>
      PollSafe(n, cpu, budget, obs);
      SendSafe(PollNet(n, cpu, budget, obs), cpu, f);
      if Sound(n) {
        PollSound(n, cpu, budget, obs);
        SendSound(PollNet(n, cpu, budget, obs), cpu, f);
      }
    case PollStep(cpu, budget, obs) =>
      PollSafe(n, cpu, budget, obs);
      if Sound(n) { PollSound(n, cpu, budget, obs); }
    case DeviceReset => ResetKeeps(n.tx);
    case Recreated => RecreatedGood(n.tx);
  }

  ghost function RunNet(depth: nat, steps: seq<NetStep>): (n: Net)
    requires DepthOk(depth)
    ensures Safe(n) && n.tx.sqDepth == depth
    ensures (forall i :: 0 <= i < |steps| ==> !steps[i].DeviceReset?) ==> Sound(n)
    decreases |steps|
  {
    if steps == [] then InitSound(depth); InitNet(depth)
    else
      var n := RunNet(depth, steps[..|steps| - 1]);
      StepSafe(n, steps[|steps| - 1]);
      ApplyNet(n, steps[|steps| - 1])
  }

  /** Between resets: every bounce slot is either free or named by exactly one
      request, that request is in flight, and the busy flag says whether any
      slot is out of the pool. */
  lemma TxBounceConservation(depth: nat, steps: seq<NetStep>, slot: nat)
    requires DepthOk(depth) && slot < depth
    requires forall i :: 0 <= i < |steps| ==> !steps[i].DeviceReset?
    ensures var n := RunNet(depth, steps);
            var q := n.q.slots;
            && |q.map_| == |n.tx.inFlight| == depth
            && multiset(q.free.Contents())[slot] + B.Used(q.map_)[slot] == 1
            && (forall id :: 0 <= id < |q.map_| && q.map_[id] >= 0 ==> n.tx.inFlight[id])
            && (n.q.inUse <==> q.free.count < |q.map_|)
  {
    var q := RunNet(depth, steps).q.slots;
    assert B.Account(q)[slot] == Each(|q.map_|)[slot];
  }

  /** Over every run, resets included: no two requests share a bounce slot. */
  lemma TxBounceNoSharing(depth: nat, steps: seq<NetStep>, i: nat, j: nat)
    requires DepthOk(depth) && i < j < depth
    ensures var m := RunNet(depth, steps).q.slots.map_; m[i] >= 0 ==> m[i] != m[j]
  {
    B.ApartMeans(RunNet(depth, steps).q.slots, i, j);
  }

  /** A reset keeps the map but not the requests it names: the next bounced
      send that is given request 0 loses the slot still mapped to it. */
  lemma ResetLosesSlot(n: Net, cpu: nat, f: Frame)
    requires Sound(n) && n.q.slots.map_[0] >= 0 && 0 < n.q.slots.free.count
    requires f.low && PktOk(f.pkt) && f.pkt.len <= BOUNCE_SIZE
    ensures var after := n.(tx := Reset(n.tx).(hwValid := true));
            Safe(after) && Send(after, cpu, f).1 == Sent(0) && !B.Whole(Send(after, cpu, f).0.q.slots)
  {
    var after := n.(tx := Reset(n.tx).(hwValid := true));
    ResetKeeps(n.tx);
    RecreatedGood(Reset(n.tx));
    SendBounced(after, cpu, f);
  }
}
