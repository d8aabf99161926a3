/** What the TX accounting invariant means to a caller, over every run. */
module TxTheorems {
  import opened Bits
  import opened IdLists
  import opened RingTypes
  import opened TxRing
  import opened TxRuns

  // ---- buffer conservation ----

  /** Each acceptance of a buffer is matched by exactly one slot that holds it
      or one release, however many times the same buffer is sent. */
  lemma BufferConservation(sqDepth: nat, cqDepth: nat, steps: seq<Step>, nb: Netbuf)
    requires DepthOk(sqDepth) && DepthOk(cqDepth)
    ensures var s := Run(sqDepth, cqDepth, steps);
            multiset(s.log.accepted)[nb] == |Holders(s.slots, nb)| + multiset(Bufs(s.log.released))[nb]
  {
    var s := Run(sqDepth, cqDepth, steps);
    HolderCount(s.slots, nb);
    assert Conserved(s);
  }

  /** A buffer accepted once is held by exactly one slot and not released, or
      released exactly once and held by none. */
  lemma NeitherLostNorDoubleFreed(sqDepth: nat, cqDepth: nat, steps: seq<Step>, nb: Netbuf)
    requires DepthOk(sqDepth) && DepthOk(cqDepth)
    requires multiset(Run(sqDepth, cqDepth, steps).log.accepted)[nb] == 1
    ensures var s := Run(sqDepth, cqDepth, steps);
            || (|Holders(s.slots, nb)| == 1 && nb !in Bufs(s.log.released))
            || (Holders(s.slots, nb) == {} && multiset(Bufs(s.log.released))[nb] == 1)
  {
    BufferConservation(sqDepth, cqDepth, steps, nb);
  }

  // ---- request-ID partition ----

  ghost function InFlightIds(inFlight: seq<bool>): (r: seq<nat>)
    ensures NoDup(r) && Below(r, |inFlight|)
    ensures forall id: nat :: id in r <==> id < |inFlight| && inFlight[id]
  {
    if inFlight == [] then []
    else
      var n := |inFlight| - 1;
      InFlightIds(inFlight[..n]) + if inFlight[n] then [n] else []
  }

  /** The free window, the in-flight IDs and the deferred IDs list every ID
      below the depth exactly once; neither error branch was ever taken. */
  lemma IdPartition(sqDepth: nat, cqDepth: nat, steps: seq<Step>)
    requires DepthOk(sqDepth) && DepthOk(cqDepth)
    ensures var s := Run(sqDepth, cqDepth, steps);
            var all := s.ids.free.Contents() + InFlightIds(s.inFlight) + DeferredIds(s);
            && NoDup(all) && Below(all, sqDepth) && |all| == sqDepth
            && (forall id: nat :: id < sqDepth ==> id in all)
            && s.log.faults == 0
  {
    var s := Run(sqDepth, cqDepth, steps);
    PartitionOf(s);
  }

  lemma PartitionOf(s: Tx)
    requires Inv(s, {})
    ensures var all := s.ids.free.Contents() + InFlightIds(s.inFlight) + DeferredIds(s);
            && NoDup(all) && Below(all, s.sqDepth) && |all| == s.sqDepth
            && (forall id: nat :: id < s.sqDepth ==> id in all)
  {
    var free, fly, due := s.ids.free.Contents(), InFlightIds(s.inFlight), DeferredIds(s);
    forall id: nat | id < s.sqDepth
      ensures id in free <==> id !in fly && id !in due
      ensures id in fly ==> id !in due
    {
      assert IdOk(s, id, {});
    }
    forall id | id in free ensures id !in fly && id !in due { assert id < s.sqDepth; }
    NoDupJoin(free, fly);
    NoDupJoin(free + fly, due);
    Pigeonhole(free + fly + due, s.sqDepth);
  }

  // ---- deferred release ----

  ghost function Entries(s: Tx): (es: seq<Deferred>)
    requires Shape(s)
  {
    s.foreign[..s.foreignCount]
  }

  /** The tracking slots of the requests deferred for a core, and no others. */
  ghost function DueSlots(s: Tx, cpu: nat): (r: seq<Ptr>)
    requires Shape(s)
    ensures |r| == s.sqDepth
  {
    seq(s.sqDepth, id requires 0 <= id < s.sqDepth => if Deferred(id, cpu) in Entries(s) then s.slots[id] else Null)
  }

  /** Keeps exactly the entries of other cores, returns every other request
      to the pool, empties its slot and frees one buffer for it on the given
      core. */
  ghost predicate Drained(s: Tx, t: Tx, cpu: nat)
    requires Good(s) && Good(t)
  {
    && t.sqDepth == s.sqDepth && t.log.accepted == s.log.accepted
    && (forall id: nat :: id < s.sqDepth ==>
          t.slots[id] == if Deferred(id, cpu) in Entries(s) then Null else s.slots[id])
    && (forall d: Deferred :: multiset(Entries(t))[d] == if d.owner == cpu then 0 else multiset(Entries(s))[d])
    && (forall id: nat :: id in t.ids.free.Contents() <==>
          id in s.ids.free.Contents() || Deferred(id, cpu) in Entries(s))
    && s.log.released <= t.log.released
    && |t.log.released| - |s.log.released| == s.foreignCount - t.foreignCount
    && (forall k :: |s.log.released| <= k < |t.log.released| ==>
          t.log.released[k].OnPoll? && t.log.released[k].cpu == cpu)
    && t.inFlight == s.inFlight
  }

  /** The buffers freed are those of the requests deferred for this core. */
  lemma DrainEffect(s: Tx, cpu: nat)
    requires Good(s)
    ensures var t := Drain(s, cpu, 0);
            && Good(t) && Drained(s, t, cpu)
            && multiset(Bufs(t.log.released[|s.log.released|..])) == Bag(DueSlots(s, cpu))
  {
    DrainFrom(s, cpu, 0);
    DrainedBuffers(s, Drain(s, cpu, 0), cpu);
  }

  lemma DrainedBuffers(s: Tx, t: Tx, cpu: nat)
    requires Good(s) && Good(t) && Drained(s, t, cpu)
    ensures multiset(Bufs(t.log.released[|s.log.released|..])) == Bag(DueSlots(s, cpu))
  {
    hide Inv, PhasesOk, DueSlots, Entries, Bag;
    var was, now := s.log.released, t.log.released;
    var more := now[|was|..];
    DueSplit(s, t, cpu);
    assert Bufs(now) == Bufs(was) + Bufs(more);
    Difference(Bag(s.slots), Bag(t.slots), multiset(Bufs(was)), multiset(Bufs(more)), Bag(DueSlots(s, cpu)));
  }

  lemma DueSplit(s: Tx, t: Tx, cpu: nat)
    requires Good(s) && Good(t) && Drained(s, t, cpu)
    ensures Bag(s.slots) == Bag(t.slots) + Bag(DueSlots(s, cpu))
  {
    hide Good, Entries, Bag;
    BagSplit(s.slots, t.slots, DueSlots(s, cpu));
  }

  /** A list of slots parted in two. */
  lemma {:induction false} BagSplit(all: seq<Ptr>, a: seq<Ptr>, b: seq<Ptr>)
    requires |all| == |a| == |b|
    requires forall i :: 0 <= i < |all| ==> (a[i] == all[i] && b[i] == Null) || (a[i] == Null && b[i] == all[i])
    ensures Bag(all) == Bag(a) + Bag(b)
  {
    if all != [] {
      var n := |all| - 1;
      BagSplit(all[..n], a[..n], b[..n]);
    }
  }

  lemma Difference(a: multiset<Netbuf>, b: multiset<Netbuf>, was: multiset<Netbuf>, more: multiset<Netbuf>,
                   due: multiset<Netbuf>)
    requires a + was == b + (was + more) && a == b + due
    ensures more == due
  {
    forall x ensures more[x] == due[x] {
      assert (a + was)[x] == (b + (was + more))[x];
      assert (b + due)[x] == a[x];
    }
  }

  lemma {:induction false} DrainFrom(s: Tx, cpu: nat, i: nat)
    requires Good(s) && i <= s.foreignCount
    requires forall k :: 0 <= k < i ==> s.foreign[k].owner != cpu
    ensures Good(Drain(s, cpu, i)) && Drained(s, Drain(s, cpu, i), cpu)
    decreases s.foreignCount - i
  {
    hide Drained, Good, DrainEntry;
    if i == s.foreignCount {
      DrainedNothing(s, cpu);
    } else if s.foreign[i].owner != cpu {
      DrainFrom(s, cpu, i + 1);
    } else {
      var u := DrainEntry(s, cpu, i);
      var nb := DrainEntryFacts(s, cpu, i);
      DrainFrom(u, cpu, i);
      DrainedOneMore(s, u, Drain(u, cpu, i), cpu, i, nb);
    }
  }

  lemma DrainEntryFacts(s: Tx, cpu: nat, i: nat) returns (nb: Netbuf)
    requires Good(s) && i < s.foreignCount
    ensures var u := DrainEntry(s, cpu, i);
            && Good(u) && u.inFlight == s.inFlight && u.sqDepth == s.sqDepth && u.log.accepted == s.log.accepted
            && s.foreign[i].reqId < s.sqDepth && u.slots == s.slots[s.foreign[i].reqId := Null]
            && u.foreignCount == s.foreignCount - 1 && u.foreign[..i] == s.foreign[..i]
            && Entries(u) == SwapRemove(Entries(s), i)
            && u.ids.free.Contents() == s.ids.free.Contents() + [s.foreign[i].reqId]
            && u.log.released == s.log.released + [OnPoll(nb, cpu)]
  {
    DrainEntryKeeps(s, cpu, i);
    DrainEntryConserves(s, cpu, i);
    nb := s.slots[s.foreign[i].reqId].nb;
  }

  lemma DrainedNothing(s: Tx, cpu: nat)
    requires Good(s) && forall k :: 0 <= k < s.foreignCount ==> s.foreign[k].owner != cpu
    ensures Drained(s, s, cpu)
  {
    assert forall d :: d in Entries(s) ==> d.owner != cpu;
  }

  lemma DrainedOneMore(s: Tx, u: Tx, t: Tx, cpu: nat, i: nat, nb: Netbuf)
    requires Good(s) && Good(u) && Good(t) && i < s.foreignCount && s.foreign[i].owner == cpu
    requires Entries(u) == SwapRemove(Entries(s), i) && u.inFlight == s.inFlight
    requires u.ids.free.Contents() == s.ids.free.Contents() + [s.foreign[i].reqId]
    requires u.log.released == s.log.released + [OnPoll(nb, cpu)]
    requires u.sqDepth == s.sqDepth && u.log.accepted == s.log.accepted
    requires s.foreign[i].reqId < s.sqDepth && u.slots == s.slots[s.foreign[i].reqId := Null]
    requires Drained(u, t, cpu)
    ensures Drained(s, t, cpu)
  {
    hide Good;
    var d := s.foreign[i];
    var was, now := multiset(Entries(s)), multiset(Entries(u));
    assert was == now + multiset{d};
    forall id: nat ensures Deferred(id, cpu) in Entries(s) <==> Deferred(id, cpu) in Entries(u) || id == d.reqId {
      assert Deferred(id, cpu) in was <==> Deferred(id, cpu) in now || Deferred(id, cpu) == d;
    }
  }

  // ---- idle fast path ----

  /** With every ID in the pool nothing is in flight or deferred, so the
      locked section would change nothing but the completion head: skipping
      it is a refinement, whatever the completion queue holds. */
  lemma {:induction false} IdleFastPath(s: Tx, cpu: nat, budget: nat, obs: seq<TxCdesc>)
    requires Good(s) && s.ids.free.count >= s.sqDepth
    ensures var (t, cleaned) := PollLocked(s, cpu, budget, obs);
            cleaned == 0 && t == s.(cqHead := t.cqHead, cqPhase := t.cqPhase)
  {
    PartitionOf(s);
    assert forall id: nat :: id < s.sqDepth && s.inFlight[id] ==> id in InFlightIds(s.inFlight);
    IdleLoop(s, cpu, budget, obs);
  }

  lemma {:induction false} IdleLoop(s: Tx, cpu: nat, budget: nat, obs: seq<TxCdesc>)
    requires Shape(s) && forall id :: 0 <= id < s.sqDepth ==> !s.inFlight[id]
    ensures var (t, cleaned) := PollLoop(s, cpu, budget, obs);
            cleaned == 0 && t == s.(cqHead := t.cqHead, cqPhase := t.cqPhase)
    decreases |obs|
  {
    if budget > 0 && obs != [] && Examine(s, obs[0]) == Skip {
      IdleLoop(AdvanceCq(s), cpu, budget, obs[1..]);
    }
  }

  // ---- poll-loop termination ----

  /** How many entries the poll loop consumes, skipped ones included. */
  function Consumed(s: Tx, cpu: nat, budget: nat, obs: seq<TxCdesc>): nat
    requires Shape(s)
    decreases |obs|
  {
    if budget == 0 || obs == [] then 0
    else
      match Examine(s, obs[0])
      case Stop => 0
      case Skip => 1 + Consumed(AdvanceCq(s), cpu, budget, obs[1..])
      case Complete => 1 + Consumed(AdvanceCq(CompleteReq(s, cpu, obs[0])), cpu, budget - 1, obs[1..])
  }

  lemma AdvancedHead(s: Tx, t: Tx)
    requires Shape(s) && Follows(s, t) && t.cqHead == s.cqHead && t.cqPhase == s.cqPhase
    requires s.cqPhase == Phase(s.cqHead, s.cqDepth)
    ensures AdvanceCq(t).cqPhase == Phase(AdvanceCq(t).cqHead, s.cqDepth)
    ensures AdvanceCq(t).cqHead == (s.cqHead + 1) % U16
  {
    CounterStep(s.cqHead, s.cqDepth);
    WrapHarmless(s.cqHead + 1, s.cqDepth);
  }

  lemma HeadPhase(s: Tx)
    requires Good(s)
    ensures s.cqPhase == Phase(s.cqHead, s.cqDepth)
  {
  }

  lemma CompleteKeepsHead(s: Tx, cpu: nat, e: TxCdesc)
    requires Good(s) && Examine(s, e) == Complete
    ensures CompleteReq(s, cpu, e).cqHead == s.cqHead && CompleteReq(s, cpu, e).cqPhase == s.cqPhase
  {
    CompleteKeeps(s, cpu, e);
  }

  /** The k-th consumed entry carries the phase of the k-th index from the head. */
  lemma {:induction false} ConsumedPhases(s: Tx, cpu: nat, budget: nat, obs: seq<TxCdesc>, k: nat)
    requires Good(s) && k < Consumed(s, cpu, budget, obs)
    ensures k < |obs| && obs[k].phase == Phase(s.cqHead + k, s.cqDepth)
    decreases |obs|
  {
    hide Good, CompleteReq, AdvanceCq, Phase, IsPow2;
    HeadPhase(s);
    if k > 0 {
      WrapThenAdd(s.cqHead + 1, k - 1, s.cqDepth);
      if Examine(s, obs[0]) == Skip {
        AdvanceKeeps(s);
        AdvancedHead(s, s);
        ConsumedPhases(AdvanceCq(s), cpu, budget, obs[1..], k - 1);
      } else {
        var t := CompleteReq(s, cpu, obs[0]);
        CompleteGood(s, cpu, obs[0]);
        CompleteKeepsHead(s, cpu, obs[0]);
        AdvanceKeeps(t);
        AdvancedHead(s, t);
        ConsumedPhases(AdvanceCq(t), cpu, budget - 1, obs[1..], k - 1);
      }
    }
  }

  /** Over completion memory that does not change, the loop consumes at most
      one entry per slot, however many reads it is allowed: a second visit to
      a slot expects the opposite phase. */
  lemma PollTerminates(s: Tx, cpu: nat, budget: nat, cq: seq<TxCdesc>, limit: nat)
    requires Good(s) && |cq| == s.cqDepth
    ensures Consumed(s, cpu, budget, Window(cq, s.cqHead, limit)) <= s.cqDepth
  {
    hide Good, Consumed;
    var obs, d := Window(cq, s.cqHead, limit), s.cqDepth;
    PhaseNextPass(s.cqHead, d);
    if Consumed(s, cpu, budget, obs) > d {
      ConsumedPhases(s, cpu, budget, obs, 0);
      ConsumedPhases(s, cpu, budget, obs, d);
    }
  }

  /** When the device rewrites the memory during the call, the loop consumes at
      most one entry per rewrite and one per slot. */
  lemma PollEnds(s: Tx, cpu: nat, budget: nat, cq: seq<TxCdesc>, writes: seq<seq<TxCdesc>>)
    requires Good(s) && |cq| == s.cqDepth && WritesOk(writes, |cq|)
    ensures Consumed(s, cpu, budget, Reads(cq, writes, s.cqHead)) <= |writes| + s.cqDepth
  {
    hide Good, Consumed;
    var obs, d, w := Reads(cq, writes, s.cqHead), s.cqDepth, |writes|;
    PhaseNextPass(s.cqHead + w, d);
    if Consumed(s, cpu, budget, obs) > w + d {
      ConsumedPhases(s, cpu, budget, obs, w);
      ConsumedPhases(s, cpu, budget, obs, w + d);
    }
  }
}
