/** An RX queue that is created over completion memory from before: neither the
    reset nor the creation clears it. */
module RxStale {
  import opened Bits
  import opened RingTypes
  import opened RequestIds
  import opened RxRing
  import opened RxAccounting
  import opened RxJoint
  import D = RingDevice

  // ---- one buffer after the other ----

  /** Every buffer so far was completed and handled before the next one. */
  ghost predicate Quiet(j: Joint, k: nat) {
    && JInv(j) && j.dev.pending == [] && j.rx.hwValid
    && |j.dev.subs| == j.dev.fetched == |j.dev.posted| == j.dev.consumed == k
  }

  ghost function Rounds(k: nat, nb: Netbuf): seq<JStep> {
    if k == 0 then [] else Rounds(k - 1, nb) + [JPost(nb, 1, Own)] + [JFetch] + [JComplete(0, ZERO)] + [JReap]
  }

  ghost function Filled(j: Joint, nb: Netbuf): (t: Joint)
    requires JShape(j)
    ensures JShape(t)
  {
    JApply(JApply(JApply(j, JPost(nb, 1, Own)), JFetch), JComplete(0, ZERO))
  }

  lemma QuietFree(j: Joint, k: nat)
    requires Quiet(j, k)
    ensures 0 < j.rx.ids.free.count
  {
    hide D.Linked, DescsTrue, CopiesTrue, Kept;
    D.NoneBusy(j.dev, ViewOf(j.rx));
    FreeCount(j.rx.ids);
  }

  lemma PostSent(s: Rx, nb: Netbuf)
    requires Shape(s) && s.hwValid && 0 < s.ids.free.count
    ensures var (t, r) := Post(s, nb, 1, Own); r == Sent(s.ids.free.Front()) && t.hwValid
  {
  }

  /** A buffer that is fetched and completed at once. */
  lemma FilledCompletes(j: Joint, k: nat, nb: Netbuf)
    requires Quiet(j, k)
    ensures var t := Filled(j, nb);
            && JInv(t) && t.dev.pending == [] && t.rx.hwValid && t.dev.cqDepth == j.dev.cqDepth
            && |t.dev.subs| == t.dev.fetched == |t.dev.posted| == k + 1 && t.dev.consumed == k
  {
    hide JInv, D.Sizes, Post, Shape;
    QuietFree(j, k);
    PostSent(j.rx, nb);
    var a := JApply(j, JPost(nb, 1, Own));
    JStepKeeps(j, JPost(nb, 1, Own));
    var b := JApply(a, JFetch);
    JStepKeeps(a, JFetch);
    JStepKeeps(b, JComplete(0, ZERO));
  }

  lemma RoundQuiet(j: Joint, k: nat, nb: Netbuf)
    requires Quiet(j, k)
    ensures Quiet(JApply(Filled(j, nb), JReap), k + 1)
  {
    hide JInv, Filled, JApply, Handle, Shape, D.Sizes, D.Dims, Examine, HeadEntry;
    FilledCompletes(j, k, nb);
    var t := Filled(j, nb);
    JStepKeeps(t, JReap);
    HeadVerdict(t);
    Reaped(t);
    HandleLive(t.rx, HeadEntry(t));
  }

  lemma Reaped(j: Joint)
    requires JShape(j) && Examine(j.rx, HeadEntry(j)) != Stop
    ensures var e := HeadEntry(j);
            JApply(j, JReap) == j.(rx := Handle(j.rx, e), dev := D.Consume(j.dev), seen := j.seen + [e],
                                   out := j.out + Unit(HandsOut(j.rx, e)))
  {
    hide Handle, Shape;
  }

  lemma HandleLive(s: Rx, e: RxCdesc)
    requires Shape(s)
    ensures Handle(s, e).hwValid == s.hwValid
  {
  }

  // ---- the same run over other memory ----

  ghost predicate Twin(j: Joint, i: Joint) {
    |i.dev.cqMem| == |j.dev.cqMem| && i == j.(dev := j.dev.(cqMem := i.dev.cqMem))
  }

  lemma TwinStep(j: Joint, i: Joint, step: JStep)
    requires JShape(j) && JShape(i) && Twin(j, i) && (step.JReap? ==> HeadEntry(i) == HeadEntry(j))
    ensures Twin(JApply(j, step), JApply(i, step))
    ensures !step.JComplete? ==> JApply(i, step).dev.cqMem == i.dev.cqMem
  {
    hide Shape, Post, Handle, Examine, HandsOut;
  }

  lemma TwinFilled(j: Joint, i: Joint, k: nat, nb: Netbuf)
    requires Quiet(j, k) && JShape(i) && Twin(j, i) && k < j.dev.cqDepth
    ensures var t, u := Filled(j, nb), Filled(i, nb);
            && Twin(t, u) && HeadEntry(u) == HeadEntry(t) && |u.dev.cqMem| == |i.dev.cqMem|
            && forall x :: 0 <= x < |u.dev.cqMem| && x != k ==> u.dev.cqMem[x] == i.dev.cqMem[x]
  {
    hide JInv, JShape, JApply, D.Sizes;
    var a, a' := JApply(j, JPost(nb, 1, Own)), JApply(i, JPost(nb, 1, Own));
    TwinStep(j, i, JPost(nb, 1, Own));
    var b, b' := JApply(a, JFetch), JApply(a', JFetch);
    TwinStep(a, a', JFetch);
    TwinStep(b, b', JComplete(0, ZERO));
    FilledCompletes(j, k, nb);
    BeforeComplete(j, k, nb);
    Completed(b, b', k);
    HeadAt(Filled(j, nb), k);
  }

  /** The device is about to write slot k. */
  lemma BeforeComplete(j: Joint, k: nat, nb: Netbuf)
    requires Quiet(j, k) && k < j.dev.cqDepth
    ensures var b := JApply(JApply(j, JPost(nb, 1, Own)), JFetch);
            JShape(b) && b.dev.tail % b.dev.cqDepth == k && |b.dev.pending| == 1
  {
    hide Good, D.Linked, D.Inv, Post, DescsTrue, CopiesTrue, Kept;
    QuietFree(j, k);
    PostSent(j.rx, nb);
    SmallTail(k, j.dev.cqDepth);
  }

  lemma Completed(b: Joint, i: Joint, k: nat)
    requires JShape(b) && JShape(i) && Twin(b, i) && |b.dev.pending| == 1 && b.dev.tail % b.dev.cqDepth == k
    ensures var t, u := JApply(b, JComplete(0, ZERO)), JApply(i, JComplete(0, ZERO));
            && k < |t.dev.cqMem| == |u.dev.cqMem| == |i.dev.cqMem| && u.dev.cqMem[k] == t.dev.cqMem[k]
            && forall x :: 0 <= x < |u.dev.cqMem| && x != k ==> u.dev.cqMem[x] == i.dev.cqMem[x]
  {
  }

  lemma HeadAt(j: Joint, k: nat)
    requires JInv(j) && j.dev.consumed == k < j.dev.cqDepth
    ensures j.rx.cqHead % j.rx.cqDepth == k && j.rx.cqPhase == 1
  {
    hide Good, Phase, DescsTrue, CopiesTrue, Kept;
    SmallTail(k, j.dev.cqDepth);
    WrapHarmless(k, j.dev.cqDepth);
    PhaseFirst(k, j.dev.cqDepth);
  }

  // ---- reaching a stale entry ----

  lemma RunPush(s: Rx, hand: multiset<Netbuf>, mem: seq<RxCdesc>, steps: seq<JStep>, step: JStep)
    requires Fresh(s, hand) && |mem| == s.cqDepth
    ensures JRun(s, hand, mem, steps + [step]) == JApply(JRun(s, hand, mem, steps), step)
  {
    hide JInv, JShape, JApply, Fresh;
    assert (steps + [step])[..|steps|] == steps;
  }

  lemma RunRound(s: Rx, hand: multiset<Netbuf>, mem: seq<RxCdesc>, k: nat, nb: Netbuf)
    requires Fresh(s, hand) && |mem| == s.cqDepth
    ensures JRun(s, hand, mem, Rounds(k + 1, nb)) == JApply(Filled(JRun(s, hand, mem, Rounds(k, nb)), nb), JReap)
  {
    hide JRun, JInv, JShape, JApply, Fresh;
    var a := Rounds(k, nb);
    RunPush(s, hand, mem, a, JPost(nb, 1, Own));
    RunPush(s, hand, mem, a + [JPost(nb, 1, Own)], JFetch);
    RunPush(s, hand, mem, a + [JPost(nb, 1, Own)] + [JFetch], JComplete(0, ZERO));
    RunPush(s, hand, mem, a + [JPost(nb, 1, Own)] + [JFetch] + [JComplete(0, ZERO)], JReap);
  }

  ghost predicate Alike(j: Joint, i: Joint, mem: seq<RxCdesc>, k: nat) {
    && Quiet(j, k) && Twin(j, i) && |i.dev.cqMem| == |mem|
    && forall x :: k <= x < |mem| ==> i.dev.cqMem[x] == mem[x]
  }

  /** Up to the first stale slot the run is that over the wiped memory. */
  lemma {:induction false} RoundsAlike(s: Rx, hand: multiset<Netbuf>, mem: seq<RxCdesc>, m: nat, k: nat, nb: Netbuf)
    requires Fresh(s, hand) && |mem| == s.cqDepth && k <= m < |mem| && D.Blank(D.Wiped(mem, m))
    ensures var steps := Rounds(k, nb); Alike(JRun(s, hand, D.Wiped(mem, m), steps), JRun(s, hand, mem, steps), mem, k)
    decreases k
  {
    hide Alike, JRun, Fresh, D.Wiped, D.Blank, Filled, JApply, JInv, JShape;
    if k == 0 {
      BeginAlike(s, hand, mem, m);
    } else {
      RoundsAlike(s, hand, mem, m, k - 1, nb);
      RunRound(s, hand, mem, k - 1, nb);
      RunRound(s, hand, D.Wiped(mem, m), k - 1, nb);
      var steps := Rounds(k - 1, nb);
      RoundAlike(JRun(s, hand, D.Wiped(mem, m), steps), JRun(s, hand, mem, steps), mem, k - 1, nb);
    }
  }

  lemma BeginAlike(s: Rx, hand: multiset<Netbuf>, mem: seq<RxCdesc>, m: nat)
    requires Fresh(s, hand) && |mem| == s.cqDepth && D.Blank(D.Wiped(mem, m))
    ensures Alike(JRun(s, hand, D.Wiped(mem, m), []), JRun(s, hand, mem, []), mem, 0)
  {
    hide Good, JInv;
    BeginLinked(s, hand, D.Wiped(mem, m));
  }

  lemma RoundAlike(j: Joint, i: Joint, mem: seq<RxCdesc>, k: nat, nb: Netbuf)
    requires Alike(j, i, mem, k) && JShape(j) && JShape(i) && k < |mem|
    ensures Alike(JApply(Filled(j, nb), JReap), JApply(Filled(i, nb), JReap), mem, k + 1)
  {
    hide JInv, JApply, Filled, Quiet, HeadEntry;
    TwinFilled(j, i, k, nb);
    RoundQuiet(j, k, nb);
    TwinStep(Filled(j, nb), Filled(i, nb), JReap);
  }

  /** After as many buffers as there are slots before it, the driver takes the
      first stale entry for a completion. */
  lemma StaleTaken(s: Rx, hand: multiset<Netbuf>, mem: seq<RxCdesc>, m: nat, nb: Netbuf)
    requires Fresh(s, hand) && |mem| == s.cqDepth
    requires m < |mem| && mem[m].phase == 1 && forall k :: 0 <= k < m ==> mem[k].phase != 1
    ensures !Protocol(JRun(s, hand, mem, Rounds(m, nb)))
  {
    hide JRun, Fresh, Rounds, Good, D.Linked;
    RoundsAlike(s, hand, mem, m, m, nb);
    HeadAt(JRun(s, hand, D.Wiped(mem, m), Rounds(m, nb)), m);
  }

  /** The phase protocol holds in every joint run exactly when no completion slot
      carries the phase bit of the first pass at the start. */
  lemma ProtocolIff(s: Rx, hand: multiset<Netbuf>, mem: seq<RxCdesc>)
    requires Fresh(s, hand) && |mem| == s.cqDepth
    ensures (forall steps: seq<JStep> :: Protocol(JRun(s, hand, mem, steps))) <==> D.Blank(mem)
  {
    hide JRun, Fresh, Protocol;
    if D.Blank(mem) {
      forall steps: seq<JStep> ensures Protocol(JRun(s, hand, mem, steps)) { PhaseProtocol(s, hand, mem, steps); }
    } else {
      var m := D.FirstStale(mem, 0);
      StaleTaken(s, hand, mem, m, Netbuf(0, 0, 1));
    }
  }

  // ---- a reset leaves stale entries ----

  /** The first post on a fresh ring gets the oldest ID of the pool. */
  lemma PostFirst(j: Joint, nb: Netbuf)
    requires JShape(j) && Good(j.rx, j.out) && 0 < j.rx.ids.free.count && j.rx.hwValid
    requires j.rx.ids.free.Front() == 0 && j.dev.subs == [] && j.rx.sqTail == 0
    ensures var t := JApply(j, JPost(nb, 1, Own));
            && t.dev == D.Submitted(j.dev, 0) && t.out == j.out && t.rx.slots[0] == Buf(nb)
            && t.rx.inFlight[0] && t.rx.caps[0] == 1 && t.rx.cqHead == j.rx.cqHead && t.rx.cqPhase == j.rx.cqPhase
  {
    hide Good;
    PostView(j.rx, nb, 1, Own, j.out);
  }

  /** The first round of a new ring leaves a completion of request 0 in slot 0. */
  lemma FirstRound(sqDepth: nat, cqDepth: nat, nb: Netbuf)
    requires DepthOk(sqDepth) && DepthOk(cqDepth) && sqDepth <= cqDepth
    ensures var s := Init(sqDepth, cqDepth);
            && Fresh(s, multiset{})
            && var j := JRun(s, multiset{}, Fill(cqDepth, Cdesc(0, 0, ZERO)), Rounds(1, nb));
               JInv(j) && j.rx.sqDepth == sqDepth && |j.dev.cqMem| == cqDepth == j.rx.cqDepth
               && j.dev.cqMem[0] == Cdesc(1, 0, ZERO)
  {
    hide Fill, JInv, Good, Inv;
    var s, mem := Init(sqDepth, cqDepth), Fill(cqDepth, Cdesc(0, 0, ZERO));
    FreshInit(sqDepth, cqDepth);
    RunRound(s, multiset{}, mem, 0, nb);
    var j := Begin(s, multiset{}, mem);
    InitFirst(sqDepth, cqDepth);
    PostFirst(j, nb);
    ReapMemory(Filled(j, nb));
  }

  lemma InitFirst(sqDepth: nat, cqDepth: nat)
    requires DepthOk(sqDepth) && DepthOk(cqDepth)
    ensures Init(sqDepth, cqDepth).ids.free.count > 0 && Init(sqDepth, cqDepth).ids.free.Front() == 0
  {
  }

  lemma ReapMemory(j: Joint)
    requires JShape(j)
    ensures JApply(j, JReap).dev.cqMem == j.dev.cqMem
  {
    hide Handle, Examine;
  }

  /** A run, for every depth, in which a stale entry hands out a buffer that the
      device has not even fetched and may still write: one buffer is posted and
      handed out, the ring is reset and created again, and the next buffer is
      taken for filled. */
  lemma StaleEntryHandsOut(sqDepth: nat, cqDepth: nat, nb: Netbuf, next: Netbuf)
    requires DepthOk(sqDepth) && DepthOk(cqDepth) && sqDepth <= cqDepth
    ensures var s := Init(sqDepth, cqDepth);
            && Fresh(s, multiset{})
            && var j := JRun(s, multiset{}, Fill(cqDepth, Cdesc(0, 0, ZERO)), Rounds(1, nb));
               var again := Reset(j.rx).(hwValid := true);
               && Fresh(again, j.out) && |j.dev.cqMem| == again.cqDepth
               && var i := JRun(again, j.out, j.dev.cqMem, [JPost(next, 1, Own), JReap]);
                  && i.dev.subs == [0] && i.dev.fetched == 0 && i.dev.posted == []
                  && i.out == j.out + multiset{next}
  {
    hide JRun, Rounds, Fill, JInv, Good, Reset;
    FirstRound(sqDepth, cqDepth, nb);
    var j := JRun(Init(sqDepth, cqDepth), multiset{}, Fill(cqDepth, Cdesc(0, 0, ZERO)), Rounds(1, nb));
    hide Init, Shape, Fresh;
    InvGood(j);
    FreshReset(j.rx, j.out);
    ResetFirst(j.rx);
    OutUnfetched(Reset(j.rx).(hwValid := true), j.out, j.dev.cqMem, next);
  }

  lemma InvGood(j: Joint)
    requires JInv(j)
    ensures Good(j.rx, j.out)
  {
  }

  lemma ResetFirst(s: Rx)
    requires Shape(s)
    ensures var t := Reset(s).(hwValid := true); t.ids.free.count > 0 && t.ids.free.Front() == 0 && t.cqDepth == s.cqDepth
  {
  }

  lemma OutUnfetched(s: Rx, hand: multiset<Netbuf>, mem: seq<RxCdesc>, next: Netbuf)
    requires Fresh(s, hand) && |mem| == s.cqDepth && mem[0] == Cdesc(1, 0, ZERO)
    requires 0 < s.ids.free.count && s.ids.free.Front() == 0
    ensures var i := JRun(s, hand, mem, [JPost(next, 1, Own), JReap]);
            && i.dev.subs == [0] && i.dev.fetched == 0 && i.dev.posted == []
            && i.out == hand + multiset{next}
  {
    hide JInv, Good, JApply, Shape, Post, Handle;
    FreshPhase(s, hand);
    RunPush(s, hand, mem, [], JPost(next, 1, Own));
    RunPush(s, hand, mem, [] + [JPost(next, 1, Own)], JReap);
    assert [] + [JPost(next, 1, Own)] + [JReap] == [JPost(next, 1, Own), JReap];
    var j := Begin(s, hand, mem);
    PostFirst(j, next);
    var t := JApply(j, JPost(next, 1, Own));
    StaleHead(t, mem);
    Reaped(t);
  }

  lemma FreshPhase(s: Rx, hand: multiset<Netbuf>)
    requires Fresh(s, hand)
    ensures s.cqPhase == 1
  {
    PhaseFirst(0, s.cqDepth);
  }

  lemma StaleHead(t: Joint, mem: seq<RxCdesc>)
    requires JShape(t) && t.dev.cqMem == mem && t.rx.cqHead == 0 && t.rx.cqPhase == 1
    requires t.rx.inFlight[0] && t.rx.caps[0] == 1 && mem[0] == Cdesc(1, 0, ZERO)
    ensures HeadEntry(t) == mem[0] && Examine(t.rx, HeadEntry(t)) == Deliver
    ensures HandsOut(t.rx, HeadEntry(t)) == t.rx.slots[0]
  {
  }
}
