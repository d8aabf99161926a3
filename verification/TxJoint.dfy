/** Driver and device together on one TX queue pair, over every interleaving
    of submissions, completion polls, descriptor fetches and completions, from
    a ring that was allocated or reset and a completion queue that may hold
    anything, with sq_depth <= cq_depth. */
module TxJoint {
  import opened Bits
  import opened RingTypes
  import opened TxRing
  import opened TxRuns
  import opened TxTheorems
  import D = RingDevice

  /** `base`: how many completions the driver had matched before these queues
      were created. `given`: the buffer of the latest submission under each ID. */
  datatype Joint = Joint(tx: Tx, dev: D.Dev<nat>, base: nat, given: seq<Ptr>)

  datatype JStep =
    | JSubmit(cpu: nat, pkt: Pkt)
    | JDrain(cpu: nat)            // the start of a poll
    | JReap(cpu: nat)             // one iteration of its loop
    | JFetch
    | JComplete(i: nat, sqHead: nat)

  ghost function SqIds(sq: seq<Desc>): (r: seq<nat>)
    ensures |r| == |sq|
  {
    seq(|sq|, i requires 0 <= i < |sq| => ReqIdOf(sq[i]))
  }

  ghost function ViewOf(s: Tx): D.View {
    D.View(s.inFlight, SqIds(s.sq), s.sqTail, s.cqHead, s.cqPhase)
  }

  /** Holds in every run, whatever the completion queue held at first. */
  ghost predicate JShape(j: Joint) {
    && Shape(j.tx) && D.Dims(j.dev) && |j.given| == j.tx.sqDepth
    && j.tx.sqDepth == j.dev.sqDepth && j.tx.cqDepth == j.dev.cqDepth
  }

  /** The driver has matched exactly the completions it moved past, in order. */
  ghost predicate Matched(j: Joint) {
    && |j.tx.log.completed| == j.base + j.dev.consumed && j.dev.consumed <= |j.dev.posted|
    && forall k :: 0 <= k < j.dev.consumed ==> j.tx.log.completed[j.base + k].reqId == j.dev.posted[k].reqId
  }

  /** A request in flight still holds the buffer it was submitted with. */
  ghost predicate Kept(s: Tx, given: seq<Ptr>)
    requires Shape(s)
  {
    |given| == s.sqDepth && forall id :: 0 <= id < s.sqDepth && s.inFlight[id] ==> s.slots[id] == given[id]
  }

  ghost predicate JInv(j: Joint)
    ensures JInv(j) ==> JShape(j) && D.Sizes(j.dev)
  {
    && Good(j.tx) && D.Linked(j.dev, ViewOf(j.tx)) && Matched(j) && Kept(j.tx, j.given)
    && j.tx.sqDepth == j.dev.sqDepth && j.tx.cqDepth == j.dev.cqDepth
  }

  /** A ring as `ena_ring_alloc` or a reset leaves it. */
  ghost predicate Fresh(s: Tx)
    ensures Fresh(s) ==> Shape(s)
  {
    && Good(s) && s.sqDepth <= s.cqDepth && s.sqTail == 0 && s.cqHead == 0 && s.foreignCount == 0
    && forall id :: 0 <= id < s.sqDepth ==> !s.inFlight[id]
  }

  lemma FreshInit(sqDepth: nat, cqDepth: nat)
    requires DepthOk(sqDepth) && DepthOk(cqDepth) && sqDepth <= cqDepth
    ensures Fresh(Init(sqDepth, cqDepth))
  {
    InitGood(sqDepth, cqDepth);
  }

  lemma FreshReset(s: Tx)
    requires Good(s) && s.sqDepth <= s.cqDepth
    ensures Fresh(Reset(s).(hwValid := true))
  {
    ResetKeeps(s);
    RecreatedGood(Reset(s));
  }

  ghost function Begin(s: Tx, mem: seq<TxCdesc>): Joint
    requires Shape(s)
  {
    Joint(s, D.Begin(SqIds(s.sq), mem), |s.log.completed|, Fill(s.sqDepth, Null))
  }

  /** The completion entry the driver reads next. */
  ghost function HeadEntry(j: Joint): TxCdesc
    requires JShape(j)
  {
    j.dev.cqMem[j.tx.cqHead % j.tx.cqDepth]
  }

  /** One iteration of the poll loop over the entry read. */
  ghost function Reap(s: Tx, cpu: nat, e: TxCdesc): (t: Tx)
    requires Shape(s)
    ensures Follows(s, t)
  {
    match Examine(s, e)
    case Stop => s
    case Skip => AdvanceCq(s)
    case Complete => AdvanceCq(CompleteReq(s, cpu, e))
  }

  /** A step that is not possible in the current state changes nothing. */
  ghost function JApply(j: Joint, step: JStep): (t: Joint)
    requires JShape(j)
    ensures JShape(t)
  {
    match step
    case JSubmit(cpu, pkt) => JSubmitted(j, cpu, pkt)
    case JDrain(cpu) => j.(tx := Drain(j.tx, cpu, 0))
    case JReap(cpu) =>
      if Examine(j.tx, HeadEntry(j)) == Stop then j
      else j.(tx := Reap(j.tx, cpu, HeadEntry(j)), dev := D.Consume(j.dev))
    case JFetch => if j.dev.fetched < |j.dev.subs| then j.(dev := D.Fetch(j.dev)) else j
    case JComplete(i, sqHead) => if i < |j.dev.pending| then j.(dev := D.Complete(j.dev, i, sqHead)) else j
  }

  ghost function JSubmitted(j: Joint, cpu: nat, pkt: Pkt): (t: Joint)
    requires JShape(j)
    ensures JShape(t)
  {
    var (t, r) := SubmitLocked(j.tx, cpu, pkt);
    if PktOk(pkt) && r.Sent? then
      j.(tx := t, dev := D.Submitted(j.dev, ReqIdOf(t.sq[j.tx.sqTail % j.tx.sqDepth])),
         given := j.given[r.reqId := pkt.netbuf])
    else j
  }

  // ---- each step keeps the agreement ----

  lemma BeginLinked(s: Tx, mem: seq<TxCdesc>)
    requires Fresh(s) && |mem| == s.cqDepth && D.Blank(mem)
    ensures JInv(Begin(s, mem))
  {
    hide IsPow2, Phase;
    GoodDepths(s);
    PhaseFirst(0, s.cqDepth);
    D.LinkBegin(SqIds(s.sq), mem, ViewOf(s));
  }

  /** What the driver does to its view when a submission succeeds. */
  lemma SubmitView(s: Tx, cpu: nat, pkt: Pkt)
    requires Inv(s, {}) && PktOk(pkt) && SubmitLocked(s, cpu, pkt).1.Sent?
    ensures var (t, r) := SubmitLocked(s, cpu, pkt);
            && r.reqId < s.sqDepth && !s.inFlight[r.reqId]
            && t.log.completed == s.log.completed
            && ReqIdOf(t.sq[s.sqTail % s.sqDepth]) == r.reqId
            && ViewOf(t) == D.ViewSubmit(ViewOf(s), s.sqDepth, r.reqId)
  {
    SubmitKeeps(s, cpu, pkt);
    var (t, r) := SubmitLocked(s, cpu, pkt);
    assert IdOk(s, r.reqId, {});
    EncodeRoundTrip(r.reqId, pkt.len, s.sqPhase, pkt.offload);
    assert SqIds(t.sq) == SqIds(s.sq)[s.sqTail % s.sqDepth := r.reqId];
  }

  /** The descriptor of a submission carries the request ID, the packet length
      and the phase bit of its pass over the ring. */
  lemma SubmitDescribes(j: Joint, cpu: nat, pkt: Pkt)
    requires JInv(j) && PktOk(pkt) && SubmitLocked(j.tx, cpu, pkt).1.Sent?
    ensures var (t, r) := SubmitLocked(j.tx, cpu, pkt);
            var d := t.sq[|j.dev.subs| % j.tx.sqDepth];
            && ReqIdOf(d) == r.reqId && d.lenCtrl % 0x1_0000 == pkt.len
            && d.lenCtrl / 0x100_0000 % 2 == Phase(|j.dev.subs|, j.tx.sqDepth)
  {
    hide Good, Inv, SubmitLocked, ReqIdOf, Encode, Phase;
    SubmitWrites(j.tx, cpu, pkt);
    SubmitTail(j);
  }

  lemma SubmitWrites(s: Tx, cpu: nat, pkt: Pkt)
    requires Good(s) && PktOk(pkt) && SubmitLocked(s, cpu, pkt).1.Sent?
    ensures var (t, r) := SubmitLocked(s, cpu, pkt);
            var d := t.sq[s.sqTail % s.sqDepth];
            && ReqIdOf(d) == r.reqId && d.lenCtrl % 0x1_0000 == pkt.len && d.lenCtrl / 0x100_0000 % 2 == s.sqPhase
  {
    hide Good, Inv, Encode, ReqIdOf;
    var (t, r) := SubmitLocked(s, cpu, pkt);
    GoodInv(s);
    SubmitKeeps(s, cpu, pkt);
    assert t.sq[s.sqTail % s.sqDepth] == Encode(r.reqId, pkt.len, s.sqPhase, pkt.offload);
    hide SubmitLocked;
    EncodeRoundTrip(r.reqId, pkt.len, s.sqPhase, pkt.offload);
    SmallLength(pkt.len);
  }

  lemma SmallLength(len: nat)
    requires len <= 0xFFFF
    ensures len % 0x1_0000 == len
  {
  }

  lemma SubmitTail(j: Joint)
    requires JInv(j)
    ensures j.tx.sqTail % j.tx.sqDepth == |j.dev.subs| % j.tx.sqDepth
    ensures j.tx.sqPhase == Phase(|j.dev.subs|, j.tx.sqDepth)
  {
    assert PhasesOk(j.tx);
    WrapHarmless(|j.dev.subs|, j.tx.sqDepth);
  }

  lemma GoodInv(s: Tx)
    requires Good(s)
    ensures Inv(s, {})
  {
  }

  lemma SubmitLinked(j: Joint, cpu: nat, pkt: Pkt)
    requires JInv(j)
    ensures JInv(JApply(j, JSubmit(cpu, pkt)))
  {
    hide Good, Inv, Shape, D.Linked, D.Sizes, SubmitLocked, ReqIdOf, Kept;
    GoodInv(j.tx);
    var (t, r) := SubmitLocked(j.tx, cpu, pkt);
    if PktOk(pkt) && r.Sent? {
      SubmitGood(j.tx, cpu, pkt);
      SubmitView(j.tx, cpu, pkt);
      D.LinkSubmit(j.dev, ViewOf(j.tx), r.reqId);
      SubmitKept(j, cpu, pkt);
    }
  }

  lemma SubmitKept(j: Joint, cpu: nat, pkt: Pkt)
    requires JShape(j) && Kept(j.tx, j.given)
    ensures var t := JSubmitted(j, cpu, pkt); Kept(t.tx, t.given)
  {
    hide ReqIdOf, Encode;
  }

  lemma DescsSeen(j: Joint)
    requires JInv(j)
    ensures forall k :: j.dev.fetched <= k < |j.dev.subs| ==> ReqIdOf(j.tx.sq[k % j.tx.sqDepth]) == j.dev.subs[k]
  {
    hide Good, ReqIdOf;
    assert SqIds(j.tx.sq) == j.dev.sqIds;
    assert D.DescsIntact(j.dev);
  }

  lemma DrainView(s: Tx, cpu: nat, i: nat)
    requires Inv(s, {}) && i <= s.foreignCount
    ensures ViewOf(Drain(s, cpu, i)) == ViewOf(s) && Drain(s, cpu, i).log.completed == s.log.completed
    decreases s.foreignCount - i
  {
    if i < s.foreignCount && s.foreign[i].owner == cpu {
      DrainEntryKeeps(s, cpu, i);
      DrainView(DrainEntry(s, cpu, i), cpu, i);
    }
  }

  /** Draining leaves the slots of requests in flight alone. */
  lemma {:induction false} DrainSlots(s: Tx, cpu: nat, i: nat, id: nat)
    requires Inv(s, {}) && i <= s.foreignCount && id < s.sqDepth && s.inFlight[id]
    ensures Drain(s, cpu, i).slots[id] == s.slots[id]
    decreases s.foreignCount - i
  {
    hide DrainEntry;
    if i < s.foreignCount {
      if s.foreign[i].owner == cpu {
        DrainEntryKeeps(s, cpu, i);
        DeferredIdle(s, i);
        DrainSlots(DrainEntry(s, cpu, i), cpu, i, id);
      } else {
        DrainSlots(s, cpu, i + 1, id);
      }
    }
  }

  lemma DeferredIdle(s: Tx, i: nat)
    requires Inv(s, {}) && i < s.foreignCount
    ensures s.foreign[i].reqId < s.sqDepth && !s.inFlight[s.foreign[i].reqId]
  {
    assert DeferredIds(s)[i] == s.foreign[i].reqId;
    assert IdOk(s, s.foreign[i].reqId, {});
  }

  lemma DrainKept(j: Joint, cpu: nat)
    requires JShape(j) && Inv(j.tx, {}) && Kept(j.tx, j.given)
    ensures Kept(Drain(j.tx, cpu, 0), j.given)
  {
    hide Inv, Drain, ViewOf;
    DrainView(j.tx, cpu, 0);
    DrainFlags(j.tx, cpu);
    forall id | 0 <= id < j.tx.sqDepth && j.tx.inFlight[id] ensures Drain(j.tx, cpu, 0).slots[id] == j.given[id] {
      DrainSlots(j.tx, cpu, 0, id);
    }
  }

  lemma DrainFlags(s: Tx, cpu: nat)
    requires Shape(s) && ViewOf(Drain(s, cpu, 0)) == ViewOf(s)
    ensures Drain(s, cpu, 0).inFlight == s.inFlight
  {
  }

  lemma DrainLinked(j: Joint, cpu: nat)
    requires JInv(j)
    ensures JInv(JApply(j, JDrain(cpu)))
  {
    hide Good, Inv, D.Linked, Drain, ViewOf, Kept;
    GoodInv(j.tx);
    DrainView(j.tx, cpu, 0);
    DrainKeeps(j.tx, cpu, 0);
    DrainKept(j, cpu);
  }

  lemma CompleteView(s: Tx, cpu: nat, e: TxCdesc)
    requires Good(s) && Examine(s, e) == Complete
    ensures var t := AdvanceCq(CompleteReq(s, cpu, e));
            && s.cqPhase <= 1 && ViewOf(t) == D.ViewAdvance(ViewOf(s), s.cqDepth, e.reqId)
            && t.log.completed == s.log.completed + [Completion(e.reqId, s.slots[e.reqId], s.owner)]
            && t.inFlight == s.inFlight[e.reqId := false] && t.slots[e.reqId := Null] == s.slots[e.reqId := Null]
  {
    CompleteKeeps(s, cpu, e);
    var r := Retire(s, e);
    RetireKeeps(s, e);
    StageKeeps(r, e.reqId, r.owner);
    if cpu == r.owner || !Stage(r, e.reqId, r.owner).0 { ReclaimKeeps(r, e.reqId, cpu); }
  }

  /** The head entry is ready exactly when the device has an unread completion
      there; then the driver matches it, never skips it and never finds a
      foreign ID in it. */
  lemma HeadVerdict(j: Joint)
    requires JInv(j)
    ensures var e := HeadEntry(j);
            && (e.phase == j.tx.cqPhase <==> j.dev.consumed < |j.dev.posted|)
            && Examine(j.tx, e) == (if j.dev.consumed < |j.dev.posted| then Complete else Stop)
            && (j.dev.consumed < |j.dev.posted| ==> e == j.dev.posted[j.dev.consumed])
  {
    hide Good, D.Linked;
    D.LinkReady(j.dev, ViewOf(j.tx));
  }

  lemma ReapLinked(j: Joint, cpu: nat)
    requires JInv(j)
    ensures JInv(JApply(j, JReap(cpu)))
  {
    hide Good, D.Linked, Shape, CompleteReq, AdvanceCq, ViewOf, Kept;
    HeadVerdict(j);
    var e := HeadEntry(j);
    if Examine(j.tx, e) == Complete {
      CompleteView(j.tx, cpu, e);
      ReapKept(j.tx, AdvanceCq(CompleteReq(j.tx, cpu, e)), j.given, e.reqId);
      CompleteGood(j.tx, cpu, e);
      AdvanceKeeps(CompleteReq(j.tx, cpu, e));
      D.LinkConsume(j.dev, ViewOf(j.tx));
    }
  }

  lemma ReapKept(s: Tx, t: Tx, given: seq<Ptr>, id: nat)
    requires Shape(s) && Kept(s, given) && Follows(s, t) && id < s.sqDepth
    requires t.inFlight == s.inFlight[id := false] && t.slots[id := Null] == s.slots[id := Null]
    ensures Kept(t, given)
  {
    forall k | 0 <= k < s.sqDepth && k != id ensures t.slots[k] == s.slots[k] {
      assert t.slots[id := Null][k] == s.slots[id := Null][k];
    }
  }

  lemma FetchLinked(j: Joint)
    requires JInv(j)
    ensures JInv(JApply(j, JFetch))
  {
    hide Good, D.Linked;
    if j.dev.fetched < |j.dev.subs| { D.LinkFetch(j.dev, ViewOf(j.tx)); }
  }

  lemma CompleteLinked(j: Joint, i: nat, sqHead: nat)
    requires JInv(j)
    ensures JInv(JApply(j, JComplete(i, sqHead)))
  {
    hide Good, D.Linked;
    if i < |j.dev.pending| { D.LinkComplete(j.dev, ViewOf(j.tx), i, sqHead); }
  }

  lemma JStepKeeps(j: Joint, step: JStep)
    requires JInv(j)
    ensures JInv(JApply(j, step))
  {
    hide JInv, JApply;
    match step
    case JSubmit(cpu, pkt) => SubmitLinked(j, cpu, pkt);
    case JDrain(cpu) => DrainLinked(j, cpu);
    case JReap(cpu) => ReapLinked(j, cpu);
    case JFetch => FetchLinked(j);
    case JComplete(i, sqHead) => CompleteLinked(j, i, sqHead);
  }

  /** The state after a joint run. */
  ghost function JRun(s: Tx, mem: seq<TxCdesc>, steps: seq<JStep>): (j: Joint)
    requires Fresh(s) && |mem| == s.cqDepth
    ensures JShape(j) && (D.Blank(mem) ==> JInv(j))
    decreases |steps|
  {
    if steps == [] then
      assert D.Blank(mem) ==> JInv(Begin(s, mem)) by { if D.Blank(mem) { BeginLinked(s, mem); } }
      Begin(s, mem)
    else
      hide JInv, JShape, JApply, Fresh;
      var j := JRun(s, mem, steps[..|steps| - 1]);
      var t := JApply(j, steps[|steps| - 1]);
      assert D.Blank(mem) ==> JInv(t) by { if D.Blank(mem) { JStepKeeps(j, steps[|steps| - 1]); } }
      t
  }

  // ---- theorems ----

  /** The head carries the expected phase exactly when the device has an unread
      completion there, and the requests the driver has matched since the queues
      were created are a prefix of the device's completions, in order. */
  ghost predicate Protocol(j: Joint)
    requires JShape(j)
  {
    var n := |j.tx.log.completed| - j.base;
    && 0 <= n <= |j.dev.posted|
    && (HeadEntry(j).phase == j.tx.cqPhase <==> n < |j.dev.posted|)
    && (n < |j.dev.posted| ==> HeadEntry(j) == j.dev.posted[n] && Examine(j.tx, HeadEntry(j)) == Complete)
    && (forall k :: 0 <= k < n ==> j.tx.log.completed[j.base + k].reqId == j.dev.posted[k].reqId)
  }

  /** The phase protocol holds in every joint run that starts with no slot of
      the first phase, through the wrap of the 16-bit counters. */
  lemma PhaseProtocol(s: Tx, mem: seq<TxCdesc>, steps: seq<JStep>)
    requires Fresh(s) && |mem| == s.cqDepth && D.Blank(mem)
    ensures Protocol(JRun(s, mem, steps))
  {
    HeadVerdict(JRun(s, mem, steps));
  }

  /** In every joint run a request that the device has not completed still holds
      the buffer it was submitted with, and of the acceptances of that buffer at
      least this one has not been released. */
  lemma BufferLifetime(s: Tx, mem: seq<TxCdesc>, steps: seq<JStep>, id: nat)
    requires Fresh(s) && |mem| == s.cqDepth && D.Blank(mem)
    requires var d := JRun(s, mem, steps).dev; id in d.pending || id in d.subs[d.fetched..]
    ensures var j := JRun(s, mem, steps);
            && id < j.tx.sqDepth && j.tx.inFlight[id] && j.tx.slots[id] == j.given[id]
            && (j.given[id].Buf? ==> StillHeld(j.tx, id, j.given[id].nb))
  {
    var j := JRun(s, mem, steps);
    NotCompleted(j, id);
    if j.given[id].Buf? { HeldNotReleased(j.tx, id, j.given[id].nb); }
  }

  ghost predicate StillHeld(s: Tx, id: nat, nb: Netbuf) {
    && id in Holders(s.slots, nb)
    && multiset(Bufs(s.log.released))[nb] + |Holders(s.slots, nb)| == multiset(s.log.accepted)[nb]
    && (multiset(s.log.accepted)[nb] == 1 ==> nb !in Bufs(s.log.released))
  }

  lemma NotCompleted(j: Joint, id: nat)
    requires JInv(j) && (id in j.dev.pending || id in j.dev.subs[j.dev.fetched..])
    ensures id < j.tx.sqDepth && j.tx.inFlight[id] && j.tx.slots[id] == j.given[id]
  {
    hide Good, D.Linked;
    D.NotCompleted(j.dev, ViewOf(j.tx), id);
  }

  lemma HeldNotReleased(s: Tx, id: nat, nb: Netbuf)
    requires Good(s) && id < s.sqDepth && s.slots[id] == Buf(nb)
    ensures StillHeld(s, id, nb)
  {
    hide Inv, PhasesOk;
    HolderCount(s.slots, nb);
    assert id in Holders(s.slots, nb);
    assert Holders(s.slots, nb) != {};
  }

  /** Every descriptor of j that the device has not fetched is still in t. */
  ghost predicate KeepsUnfetched(j: Joint, t: Joint) {
    && 0 < |j.tx.sq| == |t.tx.sq|
    && forall k :: j.dev.fetched <= k < |j.dev.subs| ==>
         var d := t.tx.sq[k % |t.tx.sq|];
         d == j.tx.sq[k % |j.tx.sq|] && ReqIdOf(d) == j.dev.subs[k]
  }

  /** Every completion of j that the driver has not matched is still in t. */
  ghost predicate KeepsUnread(j: Joint, t: Joint) {
    && 0 < |t.dev.cqMem|
    && forall k :: j.dev.consumed <= k < |j.dev.posted| ==> t.dev.cqMem[k % |t.dev.cqMem|] == j.dev.posted[k]
  }

  /** In every joint run a submission leaves every unfetched descriptor as it
      was written: a free ID means, by pigeonhole over the live requests, that
      the descriptor sq_depth submissions ago was fetched. */
  lemma NoDescriptorOverwritten(s: Tx, mem: seq<TxCdesc>, steps: seq<JStep>, cpu: nat, pkt: Pkt)
    requires Fresh(s) && |mem| == s.cqDepth && D.Blank(mem)
    ensures var j := JRun(s, mem, steps); KeepsUnfetched(j, JApply(j, JSubmit(cpu, pkt)))
  {
    hide JInv, JShape, ReqIdOf, SubmitLocked;
    SubmitKeepsUnfetched(JRun(s, mem, steps), cpu, pkt);
  }

  /** In every joint run a completion written by the device leaves every
      unread completion in place. */
  lemma NoCompletionOverwritten(s: Tx, mem: seq<TxCdesc>, steps: seq<JStep>, i: nat, sqHead: nat)
    requires Fresh(s) && |mem| == s.cqDepth && D.Blank(mem)
    ensures var j := JRun(s, mem, steps); KeepsUnread(j, JApply(j, JComplete(i, sqHead)))
  {
    hide JInv, JShape, JApply;
    CompleteKeepsUnread(JRun(s, mem, steps), i, sqHead);
  }

  lemma SubmitKeepsUnfetched(j: Joint, cpu: nat, pkt: Pkt)
    requires JInv(j)
    ensures KeepsUnfetched(j, JApply(j, JSubmit(cpu, pkt)))
  {
    hide Good, D.Linked, ReqIdOf, Encode;
    DescsSeen(j);
    var t, n := JApply(j, JSubmit(cpu, pkt)), |j.dev.subs|;
    if t != j {
      SubmitRoom(j, cpu, pkt);
      forall k | j.dev.fetched <= k < n ensures t.tx.sq[k % j.tx.sqDepth] == j.tx.sq[k % j.tx.sqDepth] {
        SlotsDiffer(k, n, j.tx.sqDepth);
      }
    }
  }

  /** A successful submission finds a descriptor slot the device is done with. */
  lemma SubmitRoom(j: Joint, cpu: nat, pkt: Pkt)
    requires JInv(j) && SubmitLocked(j.tx, cpu, pkt).1.Sent? && PktOk(pkt)
    ensures |j.dev.subs| - j.dev.fetched < j.tx.sqDepth
    ensures j.tx.sqTail % j.tx.sqDepth == |j.dev.subs| % j.tx.sqDepth
  {
    hide Good, Inv, SubmitLocked;
    GoodInv(j.tx);
    SubmitView(j.tx, cpu, pkt);
    D.SubmitLive(j.dev, SubmitLocked(j.tx, cpu, pkt).1.reqId);
    WrapHarmless(|j.dev.subs|, j.tx.sqDepth);
  }

  lemma CompleteKeepsUnread(j: Joint, i: nat, sqHead: nat)
    requires JInv(j)
    ensures KeepsUnread(j, JApply(j, JComplete(i, sqHead)))
  {
    hide Good, D.Linked, D.Sizes;
    UnreadSeen(j);
    if i < |j.dev.pending| { D.LinkComplete(j.dev, ViewOf(j.tx), i, sqHead); }
  }

  lemma UnreadSeen(j: Joint)
    requires JInv(j)
    ensures KeepsUnread(j, j) && |j.dev.cqMem| == j.dev.cqDepth
  {
    hide Good;
    assert D.UnreadIntact(j.dev);
  }

  /** A whole poll while the device is still matches every unread completion
      that its budget allows, in order. */
  lemma {:induction false} PollReapsAll(j: Joint, cpu: nat, budget: nat, visits: nat)
    requires JInv(j)
    ensures var unread := |j.dev.posted| - j.dev.consumed;
            var (t, n) := PollLoop(j.tx, cpu, budget, Window(j.dev.cqMem, j.tx.cqHead, visits));
            && n == Min(Min(budget, visits), unread)
            && JInv(j.(tx := t, dev := j.dev.(consumed := j.dev.consumed + n)))
    decreases visits
  {
    hide Good, Shape, D.Linked, Window, CompleteReq, AdvanceCq, ViewOf, Matched;
    HeadVerdict(j);
    if visits > 0 { D.WindowAt(j.dev.cqMem, j.tx.cqHead, visits, 0); }
    if budget > 0 && visits > 0 && Examine(j.tx, HeadEntry(j)) == Complete {
      ReapLinked(j, cpu);
      WindowStep(j, cpu, visits);
      PollReapsAll(JApply(j, JReap(cpu)), cpu, budget - 1, visits - 1);
    }
  }

  function Min(a: int, b: int): int { if a < b then a else b }

  lemma WindowStep(j: Joint, cpu: nat, n: nat)
    requires JInv(j) && n > 0 && Examine(j.tx, HeadEntry(j)) == Complete
    ensures var w := Window(j.dev.cqMem, j.tx.cqHead, n);
            var t := AdvanceCq(CompleteReq(j.tx, cpu, HeadEntry(j)));
            w[0] == HeadEntry(j) && w[1..] == Window(j.dev.cqMem, t.cqHead, n - 1)
  {
    hide Good, D.Linked, CompleteReq, Window;
    CompleteKeepsHead(j.tx, cpu, HeadEntry(j));
    D.WindowTail(j.dev.cqMem, j.tx.cqHead, n);
  }
}
