/** A TX queue that is created over completion memory from before: neither the
    reset nor the creation clears it. */
module TxStale {
  import opened Bits
  import opened RingTypes
  import opened TxRing
  import opened TxRuns
  import opened TxTheorems
  import opened TxJoint
  import D = RingDevice

  // ---- one request after the other ----

  /** Every request so far was completed and matched before the next one. */
  ghost predicate Quiet(j: Joint, k: nat) {
    && JInv(j) && j.dev.pending == [] && j.tx.foreignCount == 0
    && |j.dev.subs| == j.dev.fetched == |j.dev.posted| == j.dev.consumed == k
  }

  ghost function Rounds(k: nat, cpu: nat, pkt: Pkt): seq<JStep> {
    if k == 0 then []
    else Rounds(k - 1, cpu, pkt) + [JSubmit(cpu, pkt)] + [JFetch] + [JComplete(0, 0)] + [JReap(cpu)]
  }

  ghost function Sent1(j: Joint, cpu: nat, pkt: Pkt): (t: Joint)
    requires JShape(j)
    ensures JShape(t)
  {
    JApply(JApply(JApply(j, JSubmit(cpu, pkt)), JFetch), JComplete(0, 0))
  }

  lemma QuietFree(j: Joint, k: nat)
    requires Quiet(j, k)
    ensures 0 < j.tx.ids.free.count
  {
    hide Good, D.Linked;
    D.NoneBusy(j.dev, ViewOf(j.tx));
    IdleFree(j.tx);
  }

  lemma IdleFree(s: Tx)
    requires Good(s) && s.foreignCount == 0 && forall id :: 0 <= id < s.sqDepth ==> !s.inFlight[id]
    ensures 0 < s.ids.free.count
  {
    hide PhasesOk, Conserved;
    var fly := InFlightIds(s.inFlight);
    assert fly != [] ==> fly[0] in fly;
    PartitionOf(s);
  }

  /** A request that is fetched and completed at once. */
  lemma SentCompletes(j: Joint, k: nat, cpu: nat, pkt: Pkt)
    requires Quiet(j, k) && PktOk(pkt)
    ensures var t := Sent1(j, cpu, pkt);
            && JInv(t) && t.dev.pending == [] && t.tx.foreignCount == 0 && t.tx.owner == cpu
            && |t.dev.subs| == t.dev.fetched == |t.dev.posted| == k + 1 && t.dev.consumed == k
            && t.dev.cqDepth == j.dev.cqDepth
  {
    hide JInv, D.Sizes;
    QuietFree(j, k);
    var a := JApply(j, JSubmit(cpu, pkt));
    JStepKeeps(j, JSubmit(cpu, pkt));
    var b := JApply(a, JFetch);
    JStepKeeps(a, JFetch);
    JStepKeeps(b, JComplete(0, 0));
  }

  lemma RoundQuiet(j: Joint, k: nat, cpu: nat, pkt: Pkt)
    requires Quiet(j, k) && PktOk(pkt)
    ensures Quiet(JApply(Sent1(j, cpu, pkt), JReap(cpu)), k + 1)
  {
    hide JInv, Sent1, JApply, Reap, Shape, D.Sizes, D.Dims, Examine, HeadEntry;
    SentCompletes(j, k, cpu, pkt);
    var t := Sent1(j, cpu, pkt);
    JStepKeeps(t, JReap(cpu));
    HeadVerdict(t);
    OwnReap(t.tx, cpu, HeadEntry(t));
    Reaped(t, cpu);
  }

  lemma Reaped(j: Joint, cpu: nat)
    requires JShape(j) && Examine(j.tx, HeadEntry(j)) == Complete
    ensures JApply(j, JReap(cpu)) == j.(tx := Reap(j.tx, cpu, HeadEntry(j)), dev := D.Consume(j.dev))
  {
    hide Reap, Shape;
  }

  lemma OwnReap(s: Tx, cpu: nat, e: TxCdesc)
    requires Shape(s) && Examine(s, e) == Complete && s.owner == cpu && s.foreignCount == 0
    ensures Reap(s, cpu, e).foreignCount == 0
  {
  }

  // ---- the same run over other memory ----

  ghost predicate Twin(j: Joint, i: Joint) {
    |i.dev.cqMem| == |j.dev.cqMem| && i == j.(dev := j.dev.(cqMem := i.dev.cqMem))
  }

  lemma TwinStep(j: Joint, i: Joint, step: JStep)
    requires JShape(j) && JShape(i) && Twin(j, i) && (step.JReap? ==> HeadEntry(i) == HeadEntry(j))
    ensures Twin(JApply(j, step), JApply(i, step))
    ensures !step.JComplete? ==> JApply(i, step).dev.cqMem == i.dev.cqMem
  {
    hide Shape, SubmitLocked, Drain, Reap, Examine, ReqIdOf;
    if step.JSubmit? { TwinSubmit(j, i, step.cpu, step.pkt); }
  }

  lemma TwinSubmit(j: Joint, i: Joint, cpu: nat, pkt: Pkt)
    requires JShape(j) && JShape(i) && Twin(j, i)
    ensures var t := JSubmitted(i, cpu, pkt); Twin(JSubmitted(j, cpu, pkt), t) && t.dev.cqMem == i.dev.cqMem
  {
    hide Encode, ReqIdOf, Shape, SubmitLocked;
  }

  lemma TwinSent(j: Joint, i: Joint, k: nat, cpu: nat, pkt: Pkt)
    requires Quiet(j, k) && JShape(i) && Twin(j, i) && PktOk(pkt) && k < j.dev.cqDepth
    ensures var t, u := Sent1(j, cpu, pkt), Sent1(i, cpu, pkt);
            && Twin(t, u) && HeadEntry(u) == HeadEntry(t) && |u.dev.cqMem| == |i.dev.cqMem|
            && forall x :: 0 <= x < |u.dev.cqMem| && x != k ==> u.dev.cqMem[x] == i.dev.cqMem[x]
  {
    hide JInv, JShape, JApply, D.Sizes;
    var a, a' := JApply(j, JSubmit(cpu, pkt)), JApply(i, JSubmit(cpu, pkt));
    TwinStep(j, i, JSubmit(cpu, pkt));
    var b, b' := JApply(a, JFetch), JApply(a', JFetch);
    TwinStep(a, a', JFetch);
    TwinStep(b, b', JComplete(0, 0));
    SentCompletes(j, k, cpu, pkt);
    BeforeComplete(j, k, cpu, pkt);
    Completed(b, b', k);
    HeadAt(Sent1(j, cpu, pkt), k);
  }

  /** The device is about to write slot k. */
  lemma BeforeComplete(j: Joint, k: nat, cpu: nat, pkt: Pkt)
    requires Quiet(j, k) && PktOk(pkt) && k < j.dev.cqDepth
    ensures var b := JApply(JApply(j, JSubmit(cpu, pkt)), JFetch);
            JShape(b) && b.dev.tail % b.dev.cqDepth == k && |b.dev.pending| == 1
  {
    hide Good, D.Linked, D.Inv;
    QuietFree(j, k);
    SmallTail(k, j.dev.cqDepth);
  }

  lemma Completed(b: Joint, i: Joint, k: nat)
    requires JShape(b) && JShape(i) && Twin(b, i) && |b.dev.pending| == 1 && b.dev.tail % b.dev.cqDepth == k
    ensures var t, u := JApply(b, JComplete(0, 0)), JApply(i, JComplete(0, 0));
            && k < |t.dev.cqMem| == |u.dev.cqMem| == |i.dev.cqMem| && u.dev.cqMem[k] == t.dev.cqMem[k]
            && forall x :: 0 <= x < |u.dev.cqMem| && x != k ==> u.dev.cqMem[x] == i.dev.cqMem[x]
  {
  }

  lemma HeadAt(j: Joint, k: nat)
    requires JInv(j) && j.dev.consumed == k < j.dev.cqDepth
    ensures j.tx.cqHead % j.tx.cqDepth == k && j.tx.cqPhase == 1
  {
    hide Good, Phase;
    SmallTail(k, j.dev.cqDepth);
    WrapHarmless(k, j.dev.cqDepth);
    PhaseFirst(k, j.dev.cqDepth);
  }

  // ---- reaching a stale entry ----

  lemma RunPush(s: Tx, mem: seq<TxCdesc>, steps: seq<JStep>, step: JStep)
    requires Fresh(s) && |mem| == s.cqDepth
    ensures JRun(s, mem, steps + [step]) == JApply(JRun(s, mem, steps), step)
  {
    hide JInv, JShape, JApply, Fresh;
    assert (steps + [step])[..|steps|] == steps;
  }

  lemma RunRound(s: Tx, mem: seq<TxCdesc>, k: nat, cpu: nat, pkt: Pkt)
    requires Fresh(s) && |mem| == s.cqDepth
    ensures JRun(s, mem, Rounds(k + 1, cpu, pkt))
         == JApply(Sent1(JRun(s, mem, Rounds(k, cpu, pkt)), cpu, pkt), JReap(cpu))
  {
    hide JRun, JInv, JShape, JApply, Fresh;
    var a := Rounds(k, cpu, pkt);
    RunPush(s, mem, a, JSubmit(cpu, pkt));
    RunPush(s, mem, a + [JSubmit(cpu, pkt)], JFetch);
    RunPush(s, mem, a + [JSubmit(cpu, pkt)] + [JFetch], JComplete(0, 0));
    RunPush(s, mem, a + [JSubmit(cpu, pkt)] + [JFetch] + [JComplete(0, 0)], JReap(cpu));
  }

  ghost predicate Alike(j: Joint, i: Joint, mem: seq<TxCdesc>, k: nat) {
    && Quiet(j, k) && Twin(j, i) && |i.dev.cqMem| == |mem|
    && forall x :: k <= x < |mem| ==> i.dev.cqMem[x] == mem[x]
  }

  /** Up to the first stale slot the run is that over the wiped memory. */
  lemma {:induction false} RoundsAlike(s: Tx, mem: seq<TxCdesc>, m: nat, k: nat, cpu: nat, pkt: Pkt)
    requires Fresh(s) && |mem| == s.cqDepth && k <= m < |mem| && PktOk(pkt) && D.Blank(D.Wiped(mem, m))
    ensures var steps := Rounds(k, cpu, pkt); Alike(JRun(s, D.Wiped(mem, m), steps), JRun(s, mem, steps), mem, k)
    decreases k
  {
    hide Alike, JRun, Fresh, D.Wiped, D.Blank, Sent1, JApply, JInv, JShape;
    if k == 0 {
      BeginAlike(s, mem, m);
    } else {
      RoundsAlike(s, mem, m, k - 1, cpu, pkt);
      RunRound(s, mem, k - 1, cpu, pkt);
      RunRound(s, D.Wiped(mem, m), k - 1, cpu, pkt);
      var steps := Rounds(k - 1, cpu, pkt);
      RoundAlike(JRun(s, D.Wiped(mem, m), steps), JRun(s, mem, steps), mem, k - 1, cpu, pkt);
    }
  }

  lemma BeginAlike(s: Tx, mem: seq<TxCdesc>, m: nat)
    requires Fresh(s) && |mem| == s.cqDepth && D.Blank(D.Wiped(mem, m))
    ensures Alike(JRun(s, D.Wiped(mem, m), []), JRun(s, mem, []), mem, 0)
  {
    hide Good, JInv;
    BeginLinked(s, D.Wiped(mem, m));
  }

  lemma RoundAlike(j: Joint, i: Joint, mem: seq<TxCdesc>, k: nat, cpu: nat, pkt: Pkt)
    requires Alike(j, i, mem, k) && JShape(j) && JShape(i) && k < |mem| && PktOk(pkt)
    ensures Alike(JApply(Sent1(j, cpu, pkt), JReap(cpu)), JApply(Sent1(i, cpu, pkt), JReap(cpu)), mem, k + 1)
  {
    hide JInv, JApply, Sent1, Quiet, HeadEntry;
    QuietDepth(j, k);
    TwinSent(j, i, k, cpu, pkt);
    RoundQuiet(j, k, cpu, pkt);
    TwinStep(Sent1(j, cpu, pkt), Sent1(i, cpu, pkt), JReap(cpu));
  }

  lemma QuietDepth(j: Joint, k: nat)
    requires Quiet(j, k)
    ensures JShape(j) && |j.dev.cqMem| == j.dev.cqDepth
  {
  }

  /** After as many requests as there are slots before it, the driver takes the
      first stale entry for a completion. */
  lemma StaleTaken(s: Tx, mem: seq<TxCdesc>, m: nat, cpu: nat, pkt: Pkt)
    requires Fresh(s) && |mem| == s.cqDepth && PktOk(pkt)
    requires m < |mem| && mem[m].phase == 1 && forall k :: 0 <= k < m ==> mem[k].phase != 1
    ensures !Protocol(JRun(s, mem, Rounds(m, cpu, pkt)))
  {
    hide JRun, Fresh, Rounds;
    RoundsAlike(s, mem, m, m, cpu, pkt);
    var j, i := JRun(s, D.Wiped(mem, m), Rounds(m, cpu, pkt)), JRun(s, mem, Rounds(m, cpu, pkt));
    HeadAt(j, m);
  }

  /** The phase protocol holds in every joint run exactly when no completion slot
      carries the phase bit of the first pass at the start. */
  lemma ProtocolIff(s: Tx, mem: seq<TxCdesc>)
    requires Fresh(s) && |mem| == s.cqDepth
    ensures (forall steps: seq<JStep> :: Protocol(JRun(s, mem, steps))) <==> D.Blank(mem)
  {
    hide JRun, Fresh, Protocol;
    if D.Blank(mem) {
      forall steps: seq<JStep> ensures Protocol(JRun(s, mem, steps)) { PhaseProtocol(s, mem, steps); }
    } else {
      var m := D.FirstStale(mem, 0);
      StaleTaken(s, mem, m, 0, Pkt(Null, 1, 0));
    }
  }

  // ---- a reset leaves stale entries ----

  /** A submission on a fresh ring gets the oldest ID of the pool. */
  lemma SubmitFirst(j: Joint, cpu: nat, pkt: Pkt)
    requires JShape(j) && Inv(j.tx, {}) && 0 < j.tx.ids.free.count && PktOk(pkt)
    requires j.tx.ids.free.Front() == 0 && j.dev.subs == [] && j.tx.sqTail == 0
    ensures var t := JApply(j, JSubmit(cpu, pkt));
            && t.dev == D.Submitted(j.dev, 0) && t.base == j.base
            && t.tx == SubmitLocked(j.tx, cpu, pkt).0 && t.tx.inFlight[0] && t.tx.slots[0] == pkt.netbuf
            && t.tx.owner == cpu && t.tx.cqHead == j.tx.cqHead && t.tx.cqPhase == j.tx.cqPhase
            && t.tx.log == j.tx.log.(accepted := j.tx.log.accepted + One(pkt.netbuf))
  {
    hide ReqIdOf, Encode, Inv;
    SubmitView(j.tx, cpu, pkt);
  }

  /** The first round of a new ring leaves a completion of request 0 in slot 0. */
  lemma FirstRound(sqDepth: nat, cqDepth: nat, cpu: nat, pkt: Pkt)
    requires DepthOk(sqDepth) && DepthOk(cqDepth) && sqDepth <= cqDepth && PktOk(pkt)
    ensures var s := Init(sqDepth, cqDepth);
            && Fresh(s)
            && var j := JRun(s, Fill(cqDepth, Cdesc(0, 0, 0)), Rounds(1, cpu, pkt));
               JInv(j) && j.tx.sqDepth == sqDepth && |j.dev.cqMem| == cqDepth == j.tx.cqDepth
               && j.dev.cqMem[0] == Cdesc(1, 0, 0)
  {
    hide Fill, JInv, Good, Inv;
    var s, mem := Init(sqDepth, cqDepth), Fill(cqDepth, Cdesc(0, 0, 0));
    FreshInit(sqDepth, cqDepth);
    RunRound(s, mem, 0, cpu, pkt);
    var j := Begin(s, mem);
    InitFirst(sqDepth, cqDepth);
    GoodInv(s);
    SubmitFirst(j, cpu, pkt);
    ReapMemory(Sent1(j, cpu, pkt), cpu);
  }

  lemma InitFirst(sqDepth: nat, cqDepth: nat)
    requires DepthOk(sqDepth) && DepthOk(cqDepth)
    ensures Init(sqDepth, cqDepth).ids.free.count > 0 && Init(sqDepth, cqDepth).ids.free.Front() == 0
  {
  }

  lemma ReapMemory(j: Joint, cpu: nat)
    requires JShape(j)
    ensures JApply(j, JReap(cpu)).dev.cqMem == j.dev.cqMem
  {
    hide Reap, Examine;
  }

  /** A run, for every depth, in which a stale entry frees a buffer that the
      device has not even fetched: one request is sent and matched, the ring is
      reset and created again, and the next request is taken for completed. */
  lemma StaleEntryFrees(sqDepth: nat, cqDepth: nat, cpu: nat, pkt: Pkt, next: Pkt)
    requires DepthOk(sqDepth) && DepthOk(cqDepth) && sqDepth <= cqDepth
    requires PktOk(pkt) && PktOk(next) && next.netbuf.Buf?
    ensures var s := Init(sqDepth, cqDepth);
            && Fresh(s)
            && var j := JRun(s, Fill(cqDepth, Cdesc(0, 0, 0)), Rounds(1, cpu, pkt));
               var again := Reset(j.tx).(hwValid := true);
               && Fresh(again) && |j.dev.cqMem| == again.cqDepth
               && var i := JRun(again, j.dev.cqMem, [JSubmit(cpu, next), JReap(cpu)]);
                  && i.dev.subs == [0] && i.dev.fetched == 0 && i.dev.posted == []
                  && i.tx.log.released == again.log.released + [OnPoll(next.netbuf.nb, cpu)]
  {
    hide JRun, Rounds, Fill, JInv, Good, Reset;
    FirstRound(sqDepth, cqDepth, cpu, pkt);
    var j := JRun(Init(sqDepth, cqDepth), Fill(cqDepth, Cdesc(0, 0, 0)), Rounds(1, cpu, pkt));
    hide Init, Shape, Fresh;
    InvGood(j);
    FreshReset(j.tx);
    ResetFirst(j.tx);
    FreedUnfetched(Reset(j.tx).(hwValid := true), j.dev.cqMem, cpu, next);
  }

  lemma InvGood(j: Joint)
    requires JInv(j)
    ensures Good(j.tx)
  {
  }

  lemma ResetFirst(s: Tx)
    requires Shape(s)
    ensures var t := Reset(s).(hwValid := true); t.ids.free.count > 0 && t.ids.free.Front() == 0 && t.cqDepth == s.cqDepth
  {
  }

  lemma FreedUnfetched(s: Tx, mem: seq<TxCdesc>, cpu: nat, next: Pkt)
    requires Fresh(s) && |mem| == s.cqDepth && mem[0].phase == 1 && mem[0].reqId == 0 && PktOk(next) && next.netbuf.Buf?
    requires 0 < s.ids.free.count && s.ids.free.Front() == 0
    ensures var i := JRun(s, mem, [JSubmit(cpu, next), JReap(cpu)]);
            && i.dev.subs == [0] && i.dev.fetched == 0 && i.dev.posted == []
            && i.tx.log.released == s.log.released + [OnPoll(next.netbuf.nb, cpu)]
  {
    hide JInv, Good, Inv, JApply, Shape, SubmitLocked, Reap;
    FreshParts(s);
    RunPush(s, mem, [], JSubmit(cpu, next));
    RunPush(s, mem, [] + [JSubmit(cpu, next)], JReap(cpu));
    assert [] + [JSubmit(cpu, next)] + [JReap(cpu)] == [JSubmit(cpu, next), JReap(cpu)];
    var j := Begin(s, mem);
    SubmitFirst(j, cpu, next);
    var t := JApply(j, JSubmit(cpu, next));
    StaleHead(t, mem);
    Reaped(t, cpu);
    OwnReclaims(t.tx, cpu, HeadEntry(t));
  }

  lemma FreshParts(s: Tx)
    requires Fresh(s)
    ensures Inv(s, {}) && s.cqPhase == 1
  {
    PhaseFirst(0, s.cqDepth);
  }

  lemma StaleHead(t: Joint, mem: seq<TxCdesc>)
    requires JShape(t) && t.dev.cqMem == mem && t.tx.cqHead == 0 && t.tx.cqPhase == 1 && t.tx.inFlight[0]
    requires mem[0].phase == 1 && mem[0].reqId == 0
    ensures HeadEntry(t) == mem[0] && Examine(t.tx, HeadEntry(t)) == Complete
  {
  }

  lemma OwnReclaims(s: Tx, cpu: nat, e: TxCdesc)
    requires Shape(s) && Examine(s, e) == Complete && s.owner == cpu && s.slots[e.reqId].Buf?
    ensures Reap(s, cpu, e).log.released == s.log.released + [OnPoll(s.slots[e.reqId].nb, cpu)]
  {
  }
}
