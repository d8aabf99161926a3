/** Accounting of the TX ring over every run: any interleaving of submit, poll
    and reset, from any cores, with any completion-queue contents. */
module TxRuns {
  import opened Bits
  import opened IdLists
  import opened RingTypes
  import opened RequestIds
  import opened TxRing

  // ---- runs ----

  datatype Step =
    | Submit(cpu: nat, pkt: Pkt)
    | Poll(cpu: nat, budget: nat, obs: seq<TxCdesc>)
    | ResetStep

  function Apply(s: Tx, step: Step): (t: Tx)
    requires Shape(s)
    ensures Follows(s, t)
  {
    match step
    case Submit(cpu, pkt) => SubmitLocked(s, cpu, pkt).0
    case Poll(cpu, budget, obs) => PollLocked(s, cpu, budget, obs).0
    case ResetStep => Reset(s)
  }

  // ---- invariant ----

  ghost function DeferredIds(s: Tx): (d: seq<nat>)
    requires Shape(s)
    ensures |d| == s.foreignCount
  {
    seq(s.foreignCount, k requires 0 <= k < s.foreignCount => s.foreign[k].reqId)
  }

  /** Each ID is in exactly one place: free, in flight, deferred, or in hand
      (`loose`: taken out of flight and not yet placed). Only an owned ID has
      a buffer, and a deferred one always has. */
  ghost predicate IdOk(s: Tx, id: nat, loose: set<nat>)
    requires Shape(s) && id < s.sqDepth
  {
    var deferred := id in DeferredIds(s);
    && (s.inFlight[id] ==> !deferred && id !in loose)
    && (deferred ==> id !in loose && s.slots[id].Buf?)
    && (s.ids.owned[id] <==> s.inFlight[id] || deferred || id in loose)
    && (s.slots[id].Buf? ==> s.ids.owned[id])
  }

  ghost predicate Inv(s: Tx, loose: set<nat>) {
    && Shape(s) && s.ids.Inv() && NoDup(DeferredIds(s))
    && (forall id :: 0 <= id < s.sqDepth ==> IdOk(s, id, loose))
  }

  ghost predicate PhasesOk(s: Tx) {
    Shape(s) && s.cqPhase == Phase(s.cqHead, s.cqDepth) && s.sqPhase == Phase(s.sqTail, s.sqDepth)
  }

  /** Every accepted buffer is held by a slot or was released. */
  ghost predicate Conserved(s: Tx) {
    multiset(s.log.accepted) == Bag(s.slots) + multiset(Bufs(s.log.released))
  }

  ghost function Bufs(r: seq<Release>): (b: seq<Netbuf>)
    ensures |b| == |r|
  {
    seq(|r|, i requires 0 <= i < |r| => r[i].nb)
  }

  // ---- one small step at a time ----

  lemma SubmitKeeps(s: Tx, cpu: nat, pkt: Pkt)
    requires Inv(s, {})
    ensures var (t, r) := SubmitLocked(s, cpu, pkt);
            && Inv(t, {}) && t.log.faults == s.log.faults
            && (r.Sent? <==> 0 < s.ids.free.count)
            && (r.Sent? ==> r.reqId < s.sqDepth && !s.ids.owned[r.reqId] && t.inFlight == s.inFlight[r.reqId := true])
  {
    if 0 < s.ids.free.count {
      AllocKeeps(s.ids);
      var (t, r) := SubmitLocked(s, cpu, pkt);
      assert DeferredIds(t) == DeferredIds(s);
      forall id | 0 <= id < s.sqDepth ensures IdOk(t, id, {}) { assert IdOk(s, id, {}); }
    }
  }

  lemma SubmitConserves(s: Tx, cpu: nat, pkt: Pkt)
    requires Inv(s, {}) && Conserved(s)
    ensures Conserved(SubmitLocked(s, cpu, pkt).0)
  {
    if 0 < s.ids.free.count {
      AllocKeeps(s.ids);
      var id := s.ids.Alloc().0.reqId;
      assert IdOk(s, id, {});
      var gone := multiset(Bufs(s.log.released));
      LedgerIn(s.slots, id, pkt.netbuf, multiset(s.log.accepted), gone);
      assert multiset(s.log.accepted + One(pkt.netbuf)) == multiset(s.log.accepted) + Unit(pkt.netbuf);
    }
  }

  lemma SubmitKeepsPhases(s: Tx, cpu: nat, pkt: Pkt)
    requires Inv(s, {}) && PhasesOk(s)
    ensures PhasesOk(SubmitLocked(s, cpu, pkt).0)
  {
    SubmitKeeps(s, cpu, pkt);
    CounterStep(s.sqTail, s.sqDepth);
    WrapHarmless(s.sqTail + 1, s.sqDepth);
  }

  lemma RetireKeeps(s: Tx, e: TxCdesc)
    requires Inv(s, {}) && e.reqId < s.sqDepth && s.inFlight[e.reqId]
    ensures Inv(Retire(s, e), {e.reqId})
  {
    var t := Retire(s, e);
    assert DeferredIds(t) == DeferredIds(s);
    forall id | 0 <= id < s.sqDepth ensures IdOk(t, id, {e.reqId}) { assert IdOk(s, id, {}); }
  }

  /** A request in hand always finds room in the deferred array. */
  lemma StageKeeps(s: Tx, id: nat, owner: nat)
    requires Inv(s, {id}) && id < s.sqDepth
    ensures var (staged, t) := Stage(s, id, owner);
            && (staged <==> s.slots[id].Buf?)
            && (!staged ==> t == s)
            && (staged ==> Inv(t, {}) && DeferredIds(t) == DeferredIds(s) + [id])
  {
    if s.slots[id].Buf? {
      assert IdOk(s, id, {id});
      Pigeonhole(DeferredIds(s), s.sqDepth);
      var (_, t) := Stage(s, id, owner);
      assert DeferredIds(t) == DeferredIds(s) + [id];
      NoDupJoin(DeferredIds(s), [id]);
      forall k | 0 <= k < s.sqDepth ensures IdOk(t, k, {}) { assert IdOk(s, k, {id}); }
    }
  }

  /** Reclaiming a request in hand moves its buffer to the released list and
      its ID to the end of the pool. */
  lemma ReclaimKeeps(s: Tx, id: nat, cpu: nat)
    requires Inv(s, {id}) && id < s.sqDepth
    ensures var t := Reclaim(s, id, cpu);
            && Inv(t, {}) && DeferredIds(t) == DeferredIds(s)
            && t == s.(ids := t.ids, slots := s.slots[id := Null], log := t.log)
            && t.ids.free.Contents() == s.ids.free.Contents() + [id]
            && t.log == s.log.(released := t.log.released)
            && t.log.released == s.log.released + (if s.slots[id].Null? then [] else [OnPoll(s.slots[id].nb, cpu)])
  {
    FreeKeeps(s.ids, id);
    assert IdOk(s, id, {id});
    var t := Reclaim(s, id, cpu);
    assert s.slots[id := Null][id := Null] == s.slots[id := Null];
    assert DeferredIds(t) == DeferredIds(s);
    forall k | 0 <= k < s.sqDepth ensures IdOk(t, k, {}) { assert IdOk(s, k, {id}); }
  }

  lemma ReclaimConserves(s: Tx, id: nat, cpu: nat)
    requires Inv(s, {id}) && id < s.sqDepth && Conserved(s)
    ensures Conserved(Reclaim(s, id, cpu))
  {
    ReclaimKeeps(s, id, cpu);
    var t := Reclaim(s, id, cpu);
    LedgerOut(s.slots, id, multiset(s.log.accepted), multiset(Bufs(s.log.released)));
    assert Bufs(t.log.released) == Bufs(s.log.released) + One(s.slots[id]);
    assert multiset(Bufs(t.log.released)) == multiset(Bufs(s.log.released)) + Unit(s.slots[id]);
  }

  lemma CompleteKeeps(s: Tx, cpu: nat, e: TxCdesc)
    requires Inv(s, {}) && e.reqId < s.sqDepth && s.inFlight[e.reqId]
    ensures var t := CompleteReq(s, cpu, e);
            && Inv(t, {}) && t.log.faults == s.log.faults
            && t.inFlight == s.inFlight[e.reqId := false]
            && (t.cqHead, t.cqPhase, t.sqTail, t.sqPhase) == (s.cqHead, s.cqPhase, s.sqTail, s.sqPhase)
  {
    var r := Retire(s, e);
    RetireKeeps(s, e);
    if cpu == r.owner {
      ReclaimKeeps(r, e.reqId, cpu);
    } else {
      StageKeeps(r, e.reqId, r.owner);
      var (staged, t) := Stage(r, e.reqId, r.owner);
      if !staged { ReclaimKeeps(t, e.reqId, cpu); }
    }
  }

  lemma CompleteConserves(s: Tx, cpu: nat, e: TxCdesc)
    requires Inv(s, {}) && e.reqId < s.sqDepth && s.inFlight[e.reqId] && Conserved(s)
    ensures Conserved(CompleteReq(s, cpu, e))
  {
    var r := Retire(s, e);
    RetireKeeps(s, e);
    StageKeeps(r, e.reqId, r.owner);
    if cpu == r.owner || !Stage(r, e.reqId, r.owner).0 { ReclaimConserves(r, e.reqId, cpu); }
  }

  /** Taking a deferred entry out of the array puts its request in hand. */
  lemma UndeferKeeps(s: Tx, i: nat)
    requires Inv(s, {}) && i < s.foreignCount
    ensures var n := s.foreignCount - 1;
            var t := s.(foreign := s.foreign[i := s.foreign[n]], foreignCount := n);
            Inv(t, {s.foreign[i].reqId}) && DeferredIds(t) == SwapRemove(DeferredIds(s), i)
  {
    var n := s.foreignCount - 1;
    var id := s.foreign[i].reqId;
    var t := s.(foreign := s.foreign[i := s.foreign[n]], foreignCount := n);
    var d := DeferredIds(s);
    assert DeferredIds(t) == SwapRemove(d, i);
    SwapRemoveMembers(d, i);
    forall k | 0 <= k < s.sqDepth ensures IdOk(t, k, {id}) {
      assert IdOk(s, k, {});
      assert d[i] == id;
    }
  }

  lemma DrainEntryKeeps(s: Tx, cpu: nat, i: nat)
    requires Inv(s, {}) && i < s.foreignCount
    ensures var t := DrainEntry(s, cpu, i);
            var id := s.foreign[i].reqId;
            && Inv(t, {}) && t.log.faults == s.log.faults
            && DeferredIds(t) == SwapRemove(DeferredIds(s), i)
            && t.ids.free.Contents() == s.ids.free.Contents() + [id]
            && s.slots[id].Buf? && t.log == s.log.(released := s.log.released + [OnPoll(s.slots[id].nb, cpu)])
            && t == s.(ids := t.ids, slots := s.slots[id := Null], log := t.log,
                       foreign := s.foreign[i := s.foreign[s.foreignCount - 1]], foreignCount := s.foreignCount - 1)
  {
    var id := s.foreign[i].reqId;
    var n := s.foreignCount - 1;
    var u := s.(foreign := s.foreign[i := s.foreign[n]], foreignCount := n);
    assert DeferredIds(s)[i] == id;
    assert IdOk(s, id, {});
    UndeferKeeps(s, i);
    ReclaimKeeps(u, id, cpu);
    assert DrainEntry(s, cpu, i) == Reclaim(u, id, cpu);
  }

  lemma DrainEntryConserves(s: Tx, cpu: nat, i: nat)
    requires Inv(s, {}) && i < s.foreignCount && Conserved(s)
    ensures Conserved(DrainEntry(s, cpu, i))
  {
    var id, t := s.foreign[i].reqId, DrainEntry(s, cpu, i);
    DrainEntryKeeps(s, cpu, i);
    LedgerOut(s.slots, id, multiset(s.log.accepted), multiset(Bufs(s.log.released)));
    assert Bufs(t.log.released) == Bufs(s.log.released) + [s.slots[id].nb];
  }

  // ---- whole locked sections ----

  /** What holds between locked sections. */
  ghost predicate Good(s: Tx)
    ensures Good(s) ==> Shape(s)
  {
    Inv(s, {}) && PhasesOk(s) && Conserved(s) && s.log.faults == 0
  }

  lemma GoodDepths(s: Tx)
    requires Good(s)
    ensures DepthOk(s.sqDepth) && DepthOk(s.cqDepth)
  {
  }

  lemma {:induction false} DrainKeeps(s: Tx, cpu: nat, i: nat)
    requires Good(s) && i <= s.foreignCount
    ensures Good(Drain(s, cpu, i))
    decreases s.foreignCount - i
  {
    if i < s.foreignCount {
      if s.foreign[i].owner != cpu {
        DrainKeeps(s, cpu, i + 1);
      } else {
        DrainEntryKeeps(s, cpu, i);
        DrainEntryConserves(s, cpu, i);
        DrainKeeps(DrainEntry(s, cpu, i), cpu, i);
      }
    }
  }

  lemma AdvanceKeeps(s: Tx)
    requires Good(s)
    ensures Good(AdvanceCq(s))
  {
    var t := AdvanceCq(s);
    CounterStep(s.cqHead, s.cqDepth);
    WrapHarmless(s.cqHead + 1, s.cqDepth);
    assert DeferredIds(t) == DeferredIds(s);
    forall id | 0 <= id < s.sqDepth ensures IdOk(t, id, {}) { assert IdOk(s, id, {}); }
  }

  lemma CompleteGood(s: Tx, cpu: nat, e: TxCdesc)
    requires Good(s) && Examine(s, e) == Complete
    ensures Good(CompleteReq(s, cpu, e))
  {
    CompleteKeeps(s, cpu, e);
    CompleteConserves(s, cpu, e);
  }

  lemma {:induction false} PollLoopKeeps(s: Tx, cpu: nat, budget: nat, obs: seq<TxCdesc>)
    requires Good(s)
    ensures Good(PollLoop(s, cpu, budget, obs).0)
    decreases |obs|
  {
    hide Good, CompleteReq, AdvanceCq;
    if budget > 0 && obs != [] {
      match Examine(s, obs[0])
      case Stop =>
      case Skip =>
        AdvanceKeeps(s);
        PollLoopKeeps(AdvanceCq(s), cpu, budget, obs[1..]);
      case Complete =>
        var t := CompleteReq(s, cpu, obs[0]);
        CompleteGood(s, cpu, obs[0]);
        AdvanceKeeps(t);
        PollLoopKeeps(AdvanceCq(t), cpu, budget - 1, obs[1..]);
    }
  }

  /** After a reset every ID is free, every slot is empty and every buffer that
      was tracked is released. */
  lemma ResetKeeps(s: Tx)
    requires Good(s)
    ensures var t := Reset(s);
            && Good(t) && !t.hwValid && t.ids.free.count == s.sqDepth && t.foreignCount == 0
            && (forall id :: 0 <= id < s.sqDepth ==> !t.ids.owned[id] && !t.inFlight[id] && t.slots[id] == Null)
            && t.log.accepted == s.log.accepted && Bufs(t.log.released) == Bufs(s.log.released) + Held(s.slots)
  {
    var t := Reset(s);
    assert DeferredIds(t) == [];
    forall id | 0 <= id < t.sqDepth ensures IdOk(t, id, {}) {}
    BagNone(t.slots);
    HeldBag(s.slots);
    assert Bufs(t.log.released) == Bufs(s.log.released) + Held(s.slots);
  }

  lemma RecreatedGood(s: Tx)
    requires Good(s)
    ensures Good(s.(hwValid := true))
  {
    var t := s.(hwValid := true);
    assert DeferredIds(t) == DeferredIds(s);
    forall id | 0 <= id < s.sqDepth ensures IdOk(t, id, {}) { assert IdOk(s, id, {}); }
  }

  lemma InitGood(sqDepth: nat, cqDepth: nat)
    requires DepthOk(sqDepth) && DepthOk(cqDepth)
    ensures Good(Init(sqDepth, cqDepth))
  {
    var s := Init(sqDepth, cqDepth);
    assert DeferredIds(s) == [];
    forall id | 0 <= id < s.sqDepth ensures IdOk(s, id, {}) {}
    BagNone(s.slots);
  }

  lemma SubmitGood(s: Tx, cpu: nat, pkt: Pkt)
    requires Good(s)
    ensures Good(SubmitLocked(s, cpu, pkt).0)
  {
    SubmitKeeps(s, cpu, pkt);
    SubmitConserves(s, cpu, pkt);
    SubmitKeepsPhases(s, cpu, pkt);
  }

  lemma StepKeeps(s: Tx, step: Step)
    requires Good(s)
    ensures Good(Apply(s, step))
  {
    hide Good;
    match step
    case Submit(cpu, pkt) =>
      SubmitGood(s, cpu, pkt);
    case Poll(cpu, budget, obs) =>
      DrainKeeps(s, cpu, 0);
      PollLoopKeeps(Drain(s, cpu, 0), cpu, budget, obs);
    case ResetStep =>
      ResetKeeps(s);
  }

  /** The state after a run from a freshly allocated ring. */
  ghost function Run(sqDepth: nat, cqDepth: nat, steps: seq<Step>): (s: Tx)
    requires DepthOk(sqDepth) && DepthOk(cqDepth)
    ensures Good(s) && s.sqDepth == sqDepth && s.cqDepth == cqDepth
    decreases |steps|
  {
    if steps == [] then
      InitGood(sqDepth, cqDepth);
      Init(sqDepth, cqDepth)
    else
      var s := Run(sqDepth, cqDepth, steps[..|steps| - 1]);
      StepKeeps(s, steps[|steps| - 1]);
      Apply(s, steps[|steps| - 1])
  }
}
