/** The TX bounce slots over every run, resets included: how many are lost, and
    by which sends. */
module TxBounce {
  import opened RingTypes
  import opened TxRing
  import opened TxRuns
  import opened TxNetdev
  import B = BounceSlots

  /** The step posts from a bounce slot under an ID that still has a slot. */
  ghost predicate Overwrites(n: Net, step: NetStep)
    requires Safe(n)
  {
    match step
    case XmitStep(cpu, f, budget, obs) =>
      var p := PollNet(n, cpu, budget, obs);
      Bounces(p, f) && p.q.slots.map_[NextId(p)] >= 0
    case _ => false
  }

  /** How many steps of a run did that. */
  ghost function Lost(depth: nat, steps: seq<NetStep>): nat
    requires DepthOk(depth)
    decreases |steps|
  {
    if steps == [] then 0
    else
      var k := |steps| - 1;
      Lost(depth, steps[..k]) + if Overwrites(RunNet(depth, steps[..k]), steps[k]) then 1 else 0
  }

  lemma {:induction false} NetLoopAccount(n: Net, cpu: nat, budget: nat, obs: seq<TxCdesc>)
    requires Shape(n.tx) && B.Apart(n.q.slots)
    ensures B.Account(NetLoop(n, cpu, budget, obs).q.slots) == B.Account(n.q.slots)
    decreases |obs|
  {
    hide B.Shape, B.Account, ReclaimSlot, CompleteReq, AdvanceCq;
    if budget > 0 && obs != [] {
      match Examine(n.tx, obs[0])
      case Stop =>
      case Skip => NetLoopAccount(n.(tx := AdvanceCq(n.tx)), cpu, budget, obs[1..]);
      case Complete =>
        ReclaimSlotKeeps(n.q, obs[0].reqId);
        NetLoopAccount(Net(AdvanceCq(CompleteReq(n.tx, cpu, obs[0])), ReclaimSlot(n.q, obs[0].reqId)),
                       cpu, budget - 1, obs[1..]);
    }
  }

  lemma PollAccount(n: Net, cpu: nat, budget: nat, obs: seq<TxCdesc>)
    requires Safe(n)
    ensures B.Account(PollNet(n, cpu, budget, obs).q.slots) == B.Account(n.q.slots)
  {
    hide Good, Drain, B.Account, B.Apart, NetLoop;
    if n.tx.hwValid && n.tx.ids.free.count < n.tx.sqDepth {
      NetLoopAccount(n.(tx := Drain(n.tx, cpu, 0)), cpu, if budget == 0 then n.tx.cqDepth else budget, obs);
    }
  }

  /** A step loses one slot if it overwrites a map entry, and none otherwise. */
  lemma StepAccount(n: Net, step: NetStep)
    requires Safe(n) && B.Apart(ApplyNet(n, step).q.slots)
    ensures |B.Account(ApplyNet(n, step).q.slots)| + (if Overwrites(n, step) then 1 else 0) == |B.Account(n.q.slots)|
  {
    hide Good, PollNet, Send, B.Account, B.Apart, Bounces;
    match step
    case XmitStep(cpu, f, budget, obs) =>
      PollSafe(n, cpu, budget, obs);
      PollAccount(n, cpu, budget, obs);
      SendMoves(PollNet(n, cpu, budget, obs), cpu, f);
    case PollStep(cpu, budget, obs) => PollAccount(n, cpu, budget, obs);
    case DeviceReset =>
    case Recreated =>
  }

  lemma {:induction false} RunAccount(depth: nat, steps: seq<NetStep>)
    requires DepthOk(depth)
    ensures |B.Account(RunNet(depth, steps).q.slots)| + Lost(depth, steps) == depth
    decreases |steps|
  {
    hide Safe, Sound, ApplyNet, B.Account, Overwrites;
    if steps == [] {
      InitSound(depth);
      B.InitWhole(depth);
      B.WholeSize(RunNet(depth, steps).q.slots);
    } else {
      var k := |steps| - 1;
      RunAccount(depth, steps[..k]);
      SafeApart(RunNet(depth, steps));
      StepAccount(RunNet(depth, steps[..k]), steps[k]);
    }
  }

  lemma SafeApart(n: Net)
    requires Safe(n)
    ensures B.Apart(n.q.slots) && |n.q.slots.map_| == n.tx.sqDepth
  {
  }

  // ---- theorems ----

  /** Over every run: the free slots, the mapped requests and the sends that
      overwrote a map entry add up to the number of slots; the pool is whole
      exactly when no send did. */
  lemma TxBounceLedger(depth: nat, steps: seq<NetStep>)
    requires DepthOk(depth)
    ensures var b := RunNet(depth, steps).q.slots;
            && b.free.count + |B.Mapped(b.map_)| + Lost(depth, steps) == depth
            && (B.Whole(b) <==> Lost(depth, steps) == 0)
  {
    hide Safe, Sound, B.Account, B.Apart, B.Whole, Lost;
    RunAccount(depth, steps);
    SafeApart(RunNet(depth, steps));
    B.LostCount(RunNet(depth, steps).q.slots, Lost(depth, steps));
  }

  ghost predicate Fresh(p: Net, id: nat) {
    id < |p.tx.inFlight| && !p.tx.inFlight[id] && id < |p.q.slots.map_| && p.q.slots.map_[id] < 0
  }

  ghost predicate Posted(p: Net, m: Net, f: Frame, id: nat) {
    && id < |p.tx.inFlight| && m.tx.inFlight == p.tx.inFlight[id := true]
    && (!f.low ==> m.q.slots.map_ == p.q.slots.map_)
    && (f.low ==>
        && id < |p.q.slots.map_| && p.q.slots.free.Valid() && 0 < p.q.slots.free.count
        && m.q.slots.map_ == p.q.slots.map_[id := p.q.slots.free.Front()])
  }

  /** Between resets a transmit that succeeds is given an ID that is not in
      flight and has no bounce slot; a low frame then maps the oldest free slot
      to it. */
  lemma FreshEntry(depth: nat, steps: seq<NetStep>, cpu: nat, f: Frame, budget: nat, obs: seq<TxCdesc>)
    requires DepthOk(depth) && forall i :: 0 <= i < |steps| ==> !steps[i].DeviceReset?
    ensures var n := RunNet(depth, steps);
            var p := PollNet(n, cpu, budget, obs);
            var (m, r) := Xmit(n, cpu, f, budget, obs);
            r.Sent? ==> Fresh(p, r.reqId) && Posted(p, m, f, r.reqId)
  {
    hide Good, PollNet, Send, SubmitPkt, B.Apart, B.Whole, RunNet;
    var n := RunNet(depth, steps);
    PollSound(n, cpu, budget, obs);
    var p := PollNet(n, cpu, budget, obs);
    SendMap(p, cpu, f);
    SubmitPktGood(p.tx, cpu, f.pkt);
  }

  /** A run that loses a slot, for every depth: a bounced send, a reset before
      its completion, and a bounced send on the ring that is live again. */
  lemma ResetRunLosesSlot(depth: nat, cpu: nat, f: Frame, budget: nat)
    requires DepthOk(depth) && f.low && 0 < f.pkt.len <= BOUNCE_SIZE
    ensures var send := XmitStep(cpu, f, budget, []);
            var run := [send, DeviceReset, Recreated, send];
            Lost(depth, run) == 1 && !B.Whole(RunNet(depth, run).q.slots)
  {
    hide RunNet, Lost, Safe, Sound, ApplyNet, Overwrites, B.Whole, Reset, DepthOk, B.Mapped;
    var send := XmitStep(cpu, f, budget, []);
    FirstSend(depth, cpu, f, budget);
    var one, two := [] + [send], ([] + [send]) + [DeviceReset];
    var three := two + [Recreated];
    RunOf(depth, [], send);
    RunOf(depth, one, DeviceReset);
    RunOf(depth, two, Recreated);
    RunOf(depth, three, send);
    SecondSend(RunNet(depth, one), cpu, f, budget);
    FourSteps(send, DeviceReset, Recreated, send);
    TxBounceLedger(depth, [send, DeviceReset, Recreated, send]);
  }

  lemma FourSteps(a: NetStep, b: NetStep, c: NetStep, d: NetStep)
    ensures ((([] + [a]) + [b]) + [c]) + [d] == [a, b, c, d]
  {
  }

  lemma RunOf(depth: nat, steps: seq<NetStep>, step: NetStep)
    requires DepthOk(depth)
    ensures RunNet(depth, steps + [step]) == ApplyNet(RunNet(depth, steps), step)
    ensures Lost(depth, steps + [step])
         == Lost(depth, steps) + if Overwrites(RunNet(depth, steps), step) then 1 else 0
  {
    hide Safe, Sound, ApplyNet, Overwrites;
    assert (steps + [step])[..|steps|] == steps;
  }

  lemma FirstSend(depth: nat, cpu: nat, f: Frame, budget: nat)
    requires DepthOk(depth) && f.low && 0 < f.pkt.len <= BOUNCE_SIZE
    ensures var n, send := RunNet(depth, []), XmitStep(cpu, f, budget, []);
            && !Overwrites(n, send) && Lost(depth, []) == 0
            && 0 < |ApplyNet(n, send).q.slots.map_| && ApplyNet(n, send).q.slots.map_[0] == 0
            && ApplyNet(n, send).q.slots.free.count == depth - 1 > 0
  {
    InitSound(depth);
    var n := InitNet(depth);
    assert PollNet(n, cpu, budget, []) == n;
  }

  lemma SecondSend(n: Net, cpu: nat, f: Frame, budget: nat)
    requires Safe(n) && n.q.slots.map_[0] >= 0 && 0 < n.q.slots.free.count
    requires f.low && 0 < f.pkt.len <= BOUNCE_SIZE
    ensures var m := n.(tx := Reset(n.tx));
            && !Overwrites(n, DeviceReset) && ApplyNet(n, DeviceReset) == m && Safe(m)
            && !Overwrites(m, Recreated) && Safe(ApplyNet(m, Recreated))
            && Overwrites(ApplyNet(m, Recreated), XmitStep(cpu, f, budget, []))
  {
    hide Good, B.Apart, B.Account;
    StepSafe(n, DeviceReset);
    var m := n.(tx := Reset(n.tx));
    StepSafe(m, Recreated);
    var u := ApplyNet(m, Recreated);
    assert PollNet(u, cpu, budget, []) == u;
  }
}
