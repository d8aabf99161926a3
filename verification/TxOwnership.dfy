/** Which core gives a TX buffer back: over every run, a poll frees a buffer
    only on the core that owned the ring when its completion was matched. */
module TxOwnership {
  import opened Bits
  import opened IdLists
  import opened RingTypes
  import opened TxRing
  import opened TxRuns

  /** A buffer and a core. */
  type Claim = (Ptr, nat)

  /** The buffers freed by a poll, with the core that freed them. */
  ghost function Paid(r: seq<Release>): multiset<Claim> {
    if r == [] then multiset{} else
      var last := r[|r| - 1];
      Paid(r[..|r| - 1]) + if last.OnPoll? then multiset{(Buf(last.nb), last.cpu)} else multiset{}
  }

  /** The buffers found by matched completions, with the owner at that moment. */
  ghost function Earned(c: seq<Completion>): (r: seq<Claim>)
    ensures |r| == |c|
  {
    seq(|c|, i requires 0 <= i < |c| => (c[i].buf, c[i].owner))
  }

  /** The buffers waiting in the deferred array, with the core they wait for. */
  ghost function DueList(s: Tx): (r: seq<Claim>)
    requires Shape(s)
    ensures |r| == s.foreignCount
  {
    seq(s.foreignCount, k requires 0 <= k < s.foreignCount => (s.slots[s.foreign[k].reqId], s.foreign[k].owner))
  }

  ghost predicate Settled(s: Tx)
    requires Shape(s)
  {
    Paid(s.log.released) + multiset(DueList(s)) <= multiset(Earned(s.log.completed))
  }

  lemma PaidOne(r: seq<Release>, x: Release)
    ensures Paid(r + [x]) == Paid(r) + if x.OnPoll? then multiset{(Buf(x.nb), x.cpu)} else multiset{}
  {
    assert (r + [x])[..|r|] == r;
  }

  lemma {:induction false} PaidReset(r: seq<Release>, x: seq<Release>)
    requires forall i :: 0 <= i < |x| ==> x[i].OnReset?
    ensures Paid(r + x) == Paid(r)
  {
    if x == [] {
      assert r + x == r;
    } else {
      var n := |x| - 1;
      PaidReset(r, x[..n]);
      assert r + x == (r + x[..n]) + [x[n]];
      PaidOne(r + x[..n], x[n]);
    }
  }

  /** A slot that no deferred entry names does not matter to the due list. */
  lemma DueFrame(s: Tx, t: Tx, id: nat)
    requires Shape(s) && Follows(s, t) && id < s.sqDepth && id !in DeferredIds(s)
    requires t.foreign == s.foreign && t.foreignCount == s.foreignCount
    requires forall k :: 0 <= k < s.sqDepth && k != id ==> t.slots[k] == s.slots[k]
    ensures DueList(t) == DueList(s)
  {
    forall k | 0 <= k < s.foreignCount ensures DueList(t)[k] == DueList(s)[k] {
      assert DeferredIds(s)[k] == s.foreign[k].reqId;
    }
  }

  lemma SubmitSettled(s: Tx, cpu: nat, pkt: Pkt)
    requires Inv(s, {}) && Settled(s)
    ensures Settled(SubmitLocked(s, cpu, pkt).0)
  {
    SubmitKeeps(s, cpu, pkt);
    var (t, r) := SubmitLocked(s, cpu, pkt);
    if r.Sent? {
      assert IdOk(s, r.reqId, {});
      DueFrame(s, t, r.reqId);
    }
  }

  lemma CompleteSettled(s: Tx, cpu: nat, e: TxCdesc)
    requires Inv(s, {}) && Settled(s) && e.reqId < s.sqDepth && s.inFlight[e.reqId]
    ensures Settled(CompleteReq(s, cpu, e))
  {
    var id, t := e.reqId, CompleteReq(s, cpu, e);
    var r := Retire(s, e);
    RetireKeeps(s, e);
    assert IdOk(r, id, {id});
    assert DueList(r) == DueList(s);
    assert Earned(r.log.completed) == Earned(s.log.completed) + [(s.slots[id], s.owner)];
    StageKeeps(r, id, s.owner);
    if cpu != s.owner && s.slots[id].Buf? {
      assert DueList(t) == DueList(s) + [(s.slots[id], s.owner)];
    } else {
      ReclaimKeeps(r, id, cpu);
      DueFrame(r, t, id);
      if s.slots[id].Buf? {
        PaidOne(s.log.released, OnPoll(s.slots[id].nb, cpu));
      } else {
        assert s.log.released + [] == s.log.released;
      }
    }
  }

  lemma DrainEntrySettled(s: Tx, cpu: nat, i: nat)
    requires Inv(s, {}) && Settled(s) && i < s.foreignCount && s.foreign[i].owner == cpu
    ensures Settled(DrainEntry(s, cpu, i))
  {
    var id, n, t := s.foreign[i].reqId, s.foreignCount - 1, DrainEntry(s, cpu, i);
    DrainEntryKeeps(s, cpu, i);
    var u := s.(foreign := s.foreign[i := s.foreign[n]], foreignCount := n);
    UndeferKeeps(s, i);
    assert IdOk(u, id, {id});
    assert DueList(u) == SwapRemove(DueList(s), i);
    DueFrame(u, t, id);
    assert DueList(s)[i] == (s.slots[id], cpu);
    PaidOne(s.log.released, OnPoll(s.slots[id].nb, cpu));
  }

  ghost predicate Fair(s: Tx)
    ensures Fair(s) ==> Good(s)
  {
    Good(s) && Settled(s)
  }

  lemma {:induction false} DrainFair(s: Tx, cpu: nat, i: nat)
    requires Fair(s) && i <= s.foreignCount
    ensures Fair(Drain(s, cpu, i))
    decreases s.foreignCount - i
  {
    if i < s.foreignCount {
      if s.foreign[i].owner != cpu {
        DrainFair(s, cpu, i + 1);
      } else {
        DrainEntryKeeps(s, cpu, i);
        DrainEntryConserves(s, cpu, i);
        DrainEntrySettled(s, cpu, i);
        DrainFair(DrainEntry(s, cpu, i), cpu, i);
      }
    }
  }

  lemma AdvanceFair(s: Tx)
    requires Fair(s)
    ensures Fair(AdvanceCq(s))
  {
    AdvanceKeeps(s);
    assert DueList(AdvanceCq(s)) == DueList(s);
  }

  lemma CompleteFair(s: Tx, cpu: nat, e: TxCdesc)
    requires Fair(s) && Examine(s, e) == Complete
    ensures Fair(CompleteReq(s, cpu, e))
  {
    CompleteGood(s, cpu, e);
    CompleteSettled(s, cpu, e);
  }

  lemma {:induction false} PollLoopFair(s: Tx, cpu: nat, budget: nat, obs: seq<TxCdesc>)
    requires Fair(s)
    ensures Fair(PollLoop(s, cpu, budget, obs).0)
    decreases |obs|
  {
    hide Good, Fair, CompleteReq, AdvanceCq;
    if budget > 0 && obs != [] {
      match Examine(s, obs[0])
      case Stop =>
      case Skip =>
        AdvanceFair(s);
        PollLoopFair(AdvanceCq(s), cpu, budget, obs[1..]);
      case Complete =>
        CompleteFair(s, cpu, obs[0]);
        AdvanceFair(CompleteReq(s, cpu, obs[0]));
        PollLoopFair(AdvanceCq(CompleteReq(s, cpu, obs[0])), cpu, budget - 1, obs[1..]);
    }
  }

  lemma StepFair(s: Tx, step: Step)
    requires Fair(s)
    ensures Fair(Apply(s, step))
  {
    StepKeeps(s, step);
    match step
    case Submit(cpu, pkt) =>
      SubmitSettled(s, cpu, pkt);
    case Poll(cpu, budget, obs) =>
      DrainFair(s, cpu, 0);
      PollLoopFair(Drain(s, cpu, 0), cpu, budget, obs);
    case ResetStep =>
      PaidReset(s.log.released, ResetReleases(s.slots));
      assert DueList(Reset(s)) == [];
  }

  lemma {:induction false} RunFair(sqDepth: nat, cqDepth: nat, steps: seq<Step>)
    requires DepthOk(sqDepth) && DepthOk(cqDepth)
    ensures Fair(Run(sqDepth, cqDepth, steps))
  {
    if steps != [] {
      RunFair(sqDepth, cqDepth, steps[..|steps| - 1]);
      StepFair(Run(sqDepth, cqDepth, steps[..|steps| - 1]), steps[|steps| - 1]);
    }
  }

  /** A core frees a buffer in a poll at most as often as a completion found
      that buffer while the same core owned the ring. */
  lemma FreedByOwnerAtCompletion(sqDepth: nat, cqDepth: nat, steps: seq<Step>, nb: Netbuf, cpu: nat)
    requires DepthOk(sqDepth) && DepthOk(cqDepth)
    ensures var log := Run(sqDepth, cqDepth, steps).log;
            Paid(log.released)[(Buf(nb), cpu)] <= multiset(Earned(log.completed))[(Buf(nb), cpu)]
  {
    RunFair(sqDepth, cqDepth, steps);
  }

  // ---- one submitting core ----

  ghost predicate OneOwner(s: Tx, c: nat)
    requires Shape(s)
  {
    && (forall id :: 0 <= id < s.sqDepth && s.inFlight[id] ==> s.owner == c)
    && (forall i :: 0 <= i < |s.log.completed| ==> s.log.completed[i].owner == c)
  }

  lemma CompleteOneOwner(s: Tx, cpu: nat, e: TxCdesc, c: nat)
    requires Good(s) && OneOwner(s, c) && Examine(s, e) == Complete
    ensures OneOwner(CompleteReq(s, cpu, e), c)
  {
    CompleteKeeps(s, cpu, e);
    var r := Retire(s, e);
    RetireKeeps(s, e);
    StageKeeps(r, e.reqId, r.owner);
    if cpu == r.owner || s.slots[e.reqId].Null? { ReclaimKeeps(r, e.reqId, cpu); }
  }

  lemma {:induction false} PollLoopOneOwner(s: Tx, cpu: nat, budget: nat, obs: seq<TxCdesc>, c: nat)
    requires Good(s) && OneOwner(s, c)
    ensures OneOwner(PollLoop(s, cpu, budget, obs).0, c)
    decreases |obs|
  {
    hide Good, CompleteReq;
    if budget > 0 && obs != [] {
      match Examine(s, obs[0])
      case Stop =>
      case Skip =>
        AdvanceKeeps(s);
        PollLoopOneOwner(AdvanceCq(s), cpu, budget, obs[1..], c);
      case Complete =>
        var t := CompleteReq(s, cpu, obs[0]);
        CompleteGood(s, cpu, obs[0]);
        CompleteOneOwner(s, cpu, obs[0], c);
        AdvanceKeeps(t);
        PollLoopOneOwner(AdvanceCq(t), cpu, budget - 1, obs[1..], c);
    }
  }

  lemma {:induction false} DrainOneOwner(s: Tx, cpu: nat, i: nat, c: nat)
    requires Good(s) && OneOwner(s, c) && i <= s.foreignCount
    ensures OneOwner(Drain(s, cpu, i), c)
    decreases s.foreignCount - i
  {
    if i < s.foreignCount {
      if s.foreign[i].owner != cpu {
        DrainOneOwner(s, cpu, i + 1, c);
      } else {
        DrainEntryKeeps(s, cpu, i);
        DrainEntryConserves(s, cpu, i);
        DrainOneOwner(DrainEntry(s, cpu, i), cpu, i, c);
      }
    }
  }

  lemma StepOneOwner(s: Tx, step: Step, c: nat)
    requires Good(s) && OneOwner(s, c) && (step.Submit? ==> step.cpu == c)
    ensures OneOwner(Apply(s, step), c)
  {
    match step
    case Submit(cpu, pkt) =>
      SubmitKeeps(s, cpu, pkt);
    case Poll(cpu, budget, obs) =>
      DrainKeeps(s, cpu, 0);
      DrainOneOwner(s, cpu, 0, c);
      PollLoopOneOwner(Drain(s, cpu, 0), cpu, budget, obs, c);
    case ResetStep =>
  }

  lemma {:induction false} RunOneOwner(sqDepth: nat, cqDepth: nat, steps: seq<Step>, c: nat)
    requires DepthOk(sqDepth) && DepthOk(cqDepth)
    requires forall i :: 0 <= i < |steps| && steps[i].Submit? ==> steps[i].cpu == c
    ensures OneOwner(Run(sqDepth, cqDepth, steps), c)
  {
    if steps != [] {
      var n := |steps| - 1;
      RunOneOwner(sqDepth, cqDepth, steps[..n], c);
      StepOneOwner(Run(sqDepth, cqDepth, steps[..n]), steps[n], c);
    }
  }

  lemma {:induction false} PaidHas(r: seq<Release>, i: nat)
    requires i < |r| && r[i].OnPoll?
    ensures (Buf(r[i].nb), r[i].cpu) in Paid(r)
  {
    if i < |r| - 1 { PaidHas(r[..|r| - 1], i); }
  }

  /** With one submitting core, every buffer a poll frees is freed on that core. */
  lemma SingleSubmitter(sqDepth: nat, cqDepth: nat, steps: seq<Step>, c: nat)
    requires DepthOk(sqDepth) && DepthOk(cqDepth)
    requires forall i :: 0 <= i < |steps| && steps[i].Submit? ==> steps[i].cpu == c
    ensures var released := Run(sqDepth, cqDepth, steps).log.released;
            forall i :: 0 <= i < |released| && released[i].OnPoll? ==> released[i].cpu == c
  {
    var s := Run(sqDepth, cqDepth, steps);
    var released, earned := s.log.released, Earned(s.log.completed);
    RunFair(sqDepth, cqDepth, steps);
    RunOneOwner(sqDepth, cqDepth, steps, c);
    forall i | 0 <= i < |released| && released[i].OnPoll? ensures released[i].cpu == c {
      PaidHas(released, i);
      assert (Buf(released[i].nb), released[i].cpu) in multiset(earned);
      var k :| 0 <= k < |earned| && earned[k] == (Buf(released[i].nb), released[i].cpu);
    }
  }

  // ---- several submitting cores ----

  /** The core a completion sends the buffer to: the core that freed it, or
      the one its deferred entry waits for. */
  ghost function SentTo(s: Tx, cpu: nat, e: TxCdesc): nat
    requires Shape(s) && e.reqId < s.sqDepth
  {
    var t := CompleteReq(s, cpu, e);
    if t.foreignCount > s.foreignCount then t.foreign[s.foreignCount].owner
    else if |t.log.released| > |s.log.released| && t.log.released[|s.log.released|].OnPoll? then
      t.log.released[|s.log.released|].cpu
    else NO_CPU
  }

  /** The owner belongs to the ring, not to the request: a completion sends a
      buffer to the core whose heap it came from exactly when that core was
      the last one to submit on the ring. */
  lemma SentHomeIff(s: Tx, cpu: nat, e: TxCdesc)
    requires Good(s) && Examine(s, e) == Complete && s.slots[e.reqId].Buf?
    ensures SentTo(s, cpu, e) == s.slots[e.reqId].nb.home <==> s.owner == s.slots[e.reqId].nb.home
  {
    var r := Retire(s, e);
    RetireKeeps(s, e);
    StageKeeps(r, e.reqId, r.owner);
    if cpu == r.owner { ReclaimKeeps(r, e.reqId, cpu); }
  }

  /** Two cores submit on the same ring, each a buffer from its own heap. */
  ghost function TwoSubmits(b0: Netbuf, b1: Netbuf): seq<Step> {
    [Submit(0, Pkt(Buf(b0), 1, 0)), Submit(1, Pkt(Buf(b1), 1, 0))]
  }

  lemma AfterTwoSubmits(b0: Netbuf, b1: Netbuf)
    ensures DepthOk(4)
    ensures var s := Run(4, 4, TwoSubmits(b0, b1));
            && s.inFlight[0] && s.slots[0] == Buf(b0)
            && s.owner == 1 && s.cqPhase == 1 && s.log.released == [] && s.foreignCount == 0
  {
    assert IsPow2(4);
    var steps := TwoSubmits(b0, b1);
    var s0, s1 := Run(4, 4, []), Run(4, 4, [steps[0]]);
    assert [steps[0]][..0] == [] && steps[..1] == [steps[0]];
    assert s1 == SubmitLocked(s0, 0, steps[0].pkt).0;
    assert s1.inFlight[0] && s1.slots[0] == Buf(b0) && s1.ids.free.Front() == 1;
  }

  /** Core 1 then frees the buffer of core 0. */
  lemma TwoSubmittersMisroute(b0: Netbuf, b1: Netbuf)
    requires b0.home == 0 && b1.home == 1
    ensures DepthOk(4)
    ensures Run(4, 4, TwoSubmits(b0, b1) + [Poll(1, 1, [Cdesc(1, 0, 1)])]).log.released == [OnPoll(b0, 1)]
  {
    hide Good, PollLocked;
    AfterTwoSubmits(b0, b1);
    var e, steps := Cdesc(1, 0, 1), TwoSubmits(b0, b1);
    assert (steps + [Poll(1, 1, [e])])[..2] == steps;
    OwnerPollFrees(Run(4, 4, steps), 1, e);
  }

  /** A poll by the owner of a ring with nothing deferred frees the buffer of
      the completion it reads. */
  lemma OwnerPollFrees(s: Tx, cpu: nat, e: TxCdesc)
    requires Good(s) && s.foreignCount == 0 && s.owner == cpu && Examine(s, e) == Complete && s.slots[e.reqId].Buf?
    ensures PollLocked(s, cpu, 1, [e]).0.log.released == s.log.released + [OnPoll(s.slots[e.reqId].nb, cpu)]
  {
    hide Good, CompleteReq;
    OwnerCompletes(s, cpu, e);
    assert Drain(s, cpu, 0) == s && [e][1..] == [];
    assert PollLoop(s, cpu, 1, [e]).0 == AdvanceCq(CompleteReq(s, cpu, e));
  }

  lemma OwnerCompletes(s: Tx, cpu: nat, e: TxCdesc)
    requires Good(s) && s.owner == cpu && Examine(s, e) == Complete && s.slots[e.reqId].Buf?
    ensures CompleteReq(s, cpu, e).log.released == s.log.released + [OnPoll(s.slots[e.reqId].nb, cpu)]
  {
    RetireKeeps(s, e);
    ReclaimKeeps(Retire(s, e), e.reqId, cpu);
  }
}
