/** The receive path from allocator to network stack: the ring with its bounce
    slots and the reassembly of the packets it passes up. */
module RxFrames {
  import opened RingTypes
  import opened RxRing
  import opened RxAccounting
  import opened RxNetdev
  import R = Reassembly

  datatype Path = Path(net: Net, frames: R.State)

  /** What a receive pass hands to reassembly. */
  ghost function PollOf(r: (Net, seq<RxPkt>, nat)): R.Poll {
    var (m, pkts, dropped) := r;
    var gone := m.rx.log.gone;
    R.Poll(dropped > 0,
           if pkts == [] then R.Nothing
           else if pkts[0].netbuf.Null? then R.NoBuffer
           else if gone != [] && gone[|gone| - 1].Passed?
           then R.Good(R.Frag(pkts[0].netbuf.nb, pkts[0].first, pkts[0].last))
           else R.Bad(pkts[0].netbuf.nb))
  }

  ghost function Apply(p: Path, step: NetStep): Path
    requires Safe(p.net, multiset{})
  {
    Path(ApplyNet(p.net, step),
         if step.ReceiveStep? then R.Pass(p.frames, PollOf(Receive(p.net, step.obs))) else p.frames)
  }

  /** Buffers that went up to reassembly, and the others that left. */
  ghost function Up(gone: seq<Fate>): multiset<Netbuf> {
    if gone == [] then multiset{}
    else Up(gone[..|gone| - 1]) + (if gone[|gone| - 1].Released? then multiset{} else multiset{gone[|gone| - 1].nb})
  }

  ghost function Down(gone: seq<Fate>): multiset<Netbuf> {
    if gone == [] then multiset{}
    else Down(gone[..|gone| - 1]) + (if gone[|gone| - 1].Released? then multiset{gone[|gone| - 1].nb} else multiset{})
  }

  lemma {:induction false} UpAndDown(gone: seq<Fate>)
    ensures multiset(Bufs(gone)) == Up(gone) + Down(gone)
  {
    if gone != [] {
      var front, f := gone[..|gone| - 1], gone[|gone| - 1];
      UpAndDown(front);
      assert Bufs(gone) == Bufs(front) + [f.nb];
      if f.Released? { SplitDown(Up(front), Down(front), f.nb); } else { SplitUp(Up(front), Down(front), f.nb); }
    }
  }

  lemma SplitDown(u: multiset<Netbuf>, d: multiset<Netbuf>, nb: Netbuf)
    ensures (u + d) + multiset{nb} == (u + multiset{}) + (d + multiset{nb})
  {
  }

  lemma SplitUp(u: multiset<Netbuf>, d: multiset<Netbuf>, nb: Netbuf)
    ensures (u + d) + multiset{nb} == (u + multiset{nb}) + (d + multiset{})
  {
  }

  // ---- steps that pass nothing up ----

  /** The log grew by releases only. */
  ghost predicate OnlyReleases(a: seq<Fate>, b: seq<Fate>) {
    a <= b && forall i :: |a| <= i < |b| ==> b[i].Released?
  }

  lemma {:induction false} UpSame(a: seq<Fate>, b: seq<Fate>)
    requires OnlyReleases(a, b)
    ensures Up(a) == Up(b)
    decreases |b|
  {
    if |a| < |b| {
      UpSame(a, b[..|b| - 1]);
    } else {
      assert a == b;
    }
  }

  lemma HandleReleases(s: Rx, e: RxCdesc)
    requires Inv(s)
    ensures OnlyReleases(s.log.gone, Handle(s, e).log.gone) && Inv(Handle(s, e))
  {
    HandleShrinks(s, e);
    if e.reqId < s.sqDepth {
      DropKeeps(s, e.reqId);
      DeliverKeeps(s, e.reqId);
    }
  }

  lemma {:induction false} PollReleases(s: Rx, max: nat, obs: seq<RxCdesc>)
    requires Inv(s)
    ensures OnlyReleases(s.log.gone, PollLoop(s, max, obs).0.log.gone)
    decreases |obs|
  {
    hide Inv, Handle;
    if max > 0 && obs != [] && Examine(s, obs[0]) != Stop {
      HandleReleases(s, obs[0]);
      PollReleases(Handle(s, obs[0]), if Examine(s, obs[0]) == Deliver then max - 1 else max, obs[1..]);
    }
  }

  lemma RefillOneReleases(n: Net, offer: Offer)
    requires Safe(n, multiset{})
    ensures OnlyReleases(n.rx.log.gone, RefillOne(n, offer).0.rx.log.gone)
  {
    hide Safe, Apart;
  }

  lemma {:induction false} RefillReleases(n: Net, count: nat, offers: seq<Offer>)
    requires Safe(n, multiset{})
    ensures OnlyReleases(n.rx.log.gone, Refill(n, count, offers).0.rx.log.gone)
    decreases |offers|
  {
    hide Safe, RefillOne;
    if count > 0 && n.rx.ids.free.count > 0 && offers != [] {
      RefillOneReleases(n, offers[0]);
      RefillOneSafe(n, offers[0]);
      if RefillOne(n, offers[0]).1 { RefillReleases(RefillOne(n, offers[0]).0, count - 1, offers[1..]); }
    }
  }

  /** A receive passes up exactly what it hands to reassembly. */
  lemma ReceiveUp(n: Net, obs: seq<RxCdesc>)
    requires Safe(n, multiset{})
    ensures Up(Receive(n, obs).0.rx.log.gone) == Up(n.rx.log.gone) + multiset(R.Arrived([PollOf(Receive(n, obs))]))
  {
    hide Safe, Apart, Inv, PollLoop, NetLoop, Up;
    SafeParts(n, multiset{});
    var was, now := n.rx.log.gone, Receive(n, obs).0.rx.log.gone;
    assert R.Arrived([PollOf(Receive(n, obs))][1..]) == [];
    if n.rx.hwValid {
      var (t, pkts, _) := PollLoop(n.rx, 1, obs);
      PollReleases(n.rx, 1, obs);
      UpSame(was, t.log.gone);
      if pkts != [] && pkts[0].netbuf.Buf? {
        var f := FateOf(NetLoop(n, 1, obs).q, pkts[0], pkts[0].netbuf.nb);
        assert now == t.log.gone + [f];
        UpOneMore(t.log.gone, f);
      }
    }
  }

  lemma UpOneMore(gone: seq<Fate>, f: Fate)
    requires !f.Released?
    ensures Up(gone + [f]) == Up(gone) + multiset{f.nb}
  {
    assert (gone + [f])[..|gone|] == gone;
  }

  // ---- runs ----

  ghost predicate Accounted(p: Path)
    requires Safe(p.net, multiset{})
  {
    Up(p.net.rx.log.gone) == R.Where(p.frames)
  }

  lemma StepAccounted(p: Path, step: NetStep)
    requires Safe(p.net, multiset{}) && Accounted(p)
    ensures Safe(Apply(p, step).net, multiset{}) && Accounted(Apply(p, step))
  {
    hide Safe, Receive, Refill, Up, R.Where, R.Pass;
    StepSafe(p.net, step);
    match step
    case RefillStep(count, offers) =>
      RefillReleases(p.net, count, offers);
      UpSame(p.net.rx.log.gone, Refill(p.net, count, offers).0.rx.log.gone);
    case ReceiveStep(obs) =>
      ReceiveUp(p.net, obs);
      R.PassKeepsAll(p.frames, PollOf(Receive(p.net, obs)));
    case DeviceReset => UpSame(p.net.rx.log.gone, Reset(p.net.rx).log.gone);
    case Recreated =>
  }

  ghost function Run(depth: nat, steps: seq<NetStep>): (p: Path)
    requires DepthOk(depth)
    ensures Safe(p.net, multiset{}) && Accounted(p)
    decreases |steps|
  {
    hide Safe, Apply;
    if steps == [] then
      InitSound(depth);
      assert R.Where(R.EMPTY) == multiset{} by { assert R.Bufs([]) == []; }
      Path(InitNet(depth), R.EMPTY)
    else
      var p := Run(depth, steps[..|steps| - 1]);
      StepAccounted(p, steps[|steps| - 1]);
      Apply(p, steps[|steps| - 1])
  }

  /** Over every run, with any completions, drops and resets: each buffer the
      driver takes from the allocator is in exactly one place, namely a ring
      slot, a frame returned to the stack, the pending chain, or back with its
      allocator. */
  lemma EveryBufferAccounted(depth: nat, steps: seq<NetStep>, nb: Netbuf)
    requires DepthOk(depth)
    ensures var p := Run(depth, steps);
            var s := p.net.rx;
            multiset(s.log.taken)[nb] ==
              |Holders(s.slots, nb)|
              + multiset(R.Bufs(R.Flatten(p.frames.returned)))[nb] + multiset(R.Bufs(p.frames.chain))[nb]
              + multiset(p.frames.released)[nb] + Down(s.log.gone)[nb]
  {
    hide Apart;
    var s := Run(depth, steps).net.rx;
    HolderCount(s.slots, nb);
    UpAndDown(s.log.gone);
    assert Conserved(s, multiset{});
  }
}
