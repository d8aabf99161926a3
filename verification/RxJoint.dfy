/** Driver and device together on one RX queue pair, over every interleaving
    of posting, polling, descriptor fetches and completions with any lengths,
    from a ring that was allocated or reset and a completion queue that may hold
    anything, with sq_depth <= cq_depth. */
module RxJoint {
  import opened Bits
  import opened IdLists
  import opened RingTypes
  import opened RxRing
  import opened RxAccounting
  import N = RxNetdev
  import D = RingDevice

  /** `seen`: the completions the driver has handled. `out`: the buffers it has
      handed out. `given`: the buffer of the latest post under each ID. `copies`:
      the descriptor the device fetched last for each ID. */
  datatype Joint = Joint(
    rx: Rx, dev: D.Dev<RxBody>, seen: seq<RxCdesc>, out: multiset<Netbuf>, given: seq<Ptr>, copies: seq<RxDesc>)

  datatype JStep =
    | JPost(nb: Netbuf, len: nat, addr: Addr)
    | JReap  // one iteration of the poll loop
    | JFetch
    | JComplete(i: nat, body: RxBody)

  ghost function SqIds(sq: seq<RxDesc>): (r: seq<nat>)
    ensures |r| == |sq|
  {
    seq(|sq|, i requires 0 <= i < |sq| => sq[i].reqId)
  }

  /** The driver waits for the allocated requests; in-flight flags may be
      stale. */
  ghost function ViewOf(s: Rx): D.View {
    D.View(s.ids.owned, SqIds(s.sq), s.sqTail, s.cqHead, s.cqPhase)
  }

  /** Holds in every run, whatever the completion queue held at first. */
  ghost predicate JShape(j: Joint) {
    && Shape(j.rx) && D.Dims(j.dev) && |j.given| == |j.copies| == j.rx.sqDepth
    && j.rx.sqDepth == j.dev.sqDepth && j.rx.cqDepth == j.dev.cqDepth
  }

  ghost predicate JInv(j: Joint)
    ensures JInv(j) ==> JShape(j) && D.Sizes(j.dev)
  {
    && Good(j.rx, j.out) && D.Linked(j.dev, ViewOf(j.rx))
    && j.rx.sqDepth == j.dev.sqDepth && j.rx.cqDepth == j.dev.cqDepth
    && j.seen == j.dev.posted[..j.dev.consumed]
    && DescsTrue(j.rx, j.dev.subs, j.dev.fetched) && CopiesTrue(j.rx, j.dev.pending, j.copies) && Kept(j.rx, j.given)
  }

  /** A descriptor carries the length and the address that the driver tracks for
      a request. */
  ghost predicate DescTrue(s: Rx, d: RxDesc, id: nat) {
    id < |s.caps| && id < |s.addrs| && d.length == s.caps[id] && d.addr == s.addrs[id]
  }

  /** Every descriptor still to be fetched is true ... */
  ghost predicate DescsTrue(s: Rx, subs: seq<nat>, fetched: nat) {
    0 < |s.sq| && forall k :: fetched <= k < |subs| ==> DescTrue(s, s.sq[k % |s.sq|], subs[k])
  }

  /** ... and so is the device's copy for every request it works on. */
  ghost predicate CopiesTrue(s: Rx, pending: seq<nat>, copies: seq<RxDesc>) {
    && |copies| == s.sqDepth
    && forall id :: id in pending ==> id < |copies| && copies[id].reqId == id && DescTrue(s, copies[id], id)
  }

  /** A posted request still holds the buffer it was posted with. */
  ghost predicate Kept(s: Rx, given: seq<Ptr>)
    requires Shape(s)
  {
    |given| == s.sqDepth && forall id :: 0 <= id < s.sqDepth && s.ids.owned[id] ==> s.slots[id] == given[id]
  }

  const ZERO := RxBody(0, 0, false, false)

  /** A ring as `ena_ring_alloc` or a reset leaves it; `hand` are buffers that
      were handed out before. */
  ghost predicate Fresh(s: Rx, hand: multiset<Netbuf>)
    ensures Fresh(s, hand) ==> Shape(s)
  {
    && Good(s, hand) && s.sqDepth <= s.cqDepth && s.sqTail == 0 && s.cqHead == 0 && s.hwValid
    && forall id :: 0 <= id < s.sqDepth ==> !s.ids.owned[id]
  }

  lemma FreshInit(sqDepth: nat, cqDepth: nat)
    requires DepthOk(sqDepth) && DepthOk(cqDepth) && sqDepth <= cqDepth
    ensures Fresh(Init(sqDepth, cqDepth), multiset{})
  {
    InitGood(sqDepth, cqDepth);
  }

  lemma FreshReset(s: Rx, hand: multiset<Netbuf>)
    requires Good(s, hand) && s.sqDepth <= s.cqDepth
    ensures Fresh(Reset(s).(hwValid := true), hand)
  {
    ResetGood(s, hand);
    RecreatedGood(Reset(s), hand);
  }

  ghost function Begin(s: Rx, hand: multiset<Netbuf>, mem: seq<RxCdesc>): Joint
    requires Shape(s)
  {
    Joint(s, D.Begin(SqIds(s.sq), mem), [], hand, Fill(s.sqDepth, Null), s.sq)
  }

  ghost function HeadEntry(j: Joint): RxCdesc
    requires JShape(j)
  {
    j.dev.cqMem[j.rx.cqHead % j.rx.cqDepth]
  }

  /** A step that is not possible in the current state changes nothing. */
  ghost function JApply(j: Joint, step: JStep): (t: Joint)
    requires JShape(j)
    ensures JShape(t)
  {
    match step
    case JPost(nb, len, addr) => JPosted(j, nb, len, addr)
    case JReap =>
      var e := HeadEntry(j);
      if Examine(j.rx, e) == Stop then j
      else j.(rx := Handle(j.rx, e), dev := D.Consume(j.dev), seen := j.seen + [e], out := j.out + Unit(HandsOut(j.rx, e)))
    case JFetch => if j.dev.fetched < |j.dev.subs| then JFetched(j) else j
    case JComplete(i, body) => if i < |j.dev.pending| then j.(dev := D.Complete(j.dev, i, body)) else j
  }

  /** A buffer that was just taken from the allocator is posted. */
  ghost function Post(s: Rx, nb: Netbuf, len: nat, addr: Addr): (r: (Rx, SubmitResult))
    requires Shape(s)
    ensures Follows(s, r.0)
  {
    SubmitOne(N.LogTaken(s, nb), nb, len, addr)
  }

  ghost function JPosted(j: Joint, nb: Netbuf, len: nat, addr: Addr): (t: Joint)
    requires JShape(j)
    ensures JShape(t)
  {
    var (t, r) := Post(j.rx, nb, len, addr);
    if r.Sent? then
      j.(rx := t, dev := D.Submitted(j.dev, t.sq[j.rx.sqTail % j.rx.sqDepth].reqId), given := j.given[r.reqId := Buf(nb)])
    else j
  }

  /** The device reads a descriptor and keeps a copy. */
  ghost function JFetched(j: Joint): (t: Joint)
    requires JShape(j)
    ensures JShape(t)
  {
    var d := j.rx.sq[j.dev.fetched % j.rx.sqDepth];
    j.(dev := D.Fetch(j.dev), copies := if d.reqId < |j.copies| then j.copies[d.reqId := d] else j.copies)
  }

  lemma GoodInv(s: Rx, hand: multiset<Netbuf>)
    requires Good(s, hand)
    ensures Inv(s)
  {
  }

  lemma BeginLinked(s: Rx, hand: multiset<Netbuf>, mem: seq<RxCdesc>)
    requires Fresh(s, hand) && |mem| == s.cqDepth && D.Blank(mem)
    ensures JInv(Begin(s, hand, mem))
  {
    hide IsPow2, Phase;
    PhaseFirst(0, s.cqDepth);
    D.LinkBegin(SqIds(s.sq), mem, ViewOf(s));
  }

  lemma PostView(s: Rx, nb: Netbuf, len: nat, addr: Addr, hand: multiset<Netbuf>)
    requires Good(s, hand) && Post(s, nb, len, addr).1.Sent?
    ensures var (t, r) := Post(s, nb, len, addr);
            && Good(t, hand) && r.reqId < s.sqDepth && !s.ids.owned[r.reqId]
            && t.sq == s.sq[s.sqTail % s.sqDepth := RxDesc(len, s.sqPhase, r.reqId, addr)]
            && t.caps == s.caps[r.reqId := len] && t.addrs == s.addrs[r.reqId := addr]
            && t.slots == s.slots[r.reqId := Buf(nb)] && t.ids.owned == s.ids.owned[r.reqId := true]
            && ViewOf(t) == D.ViewSubmit(ViewOf(s), s.sqDepth, r.reqId)
  {
    hide Conserved, PhasesOk;
    var u := N.LogTaken(s, nb);
    N.TakenGood(s, nb, hand);
    GoodInv(u, hand + multiset{nb});
    SubmitKeeps(u, nb, len, addr);
    SubmitGood(u, nb, len, addr, hand);
    var (t, r) := Post(s, nb, len, addr);
    assert SqIds(t.sq) == SqIds(s.sq)[s.sqTail % s.sqDepth := r.reqId];
  }

  lemma PostLinked(j: Joint, nb: Netbuf, len: nat, addr: Addr)
    requires JInv(j)
    ensures JInv(JApply(j, JPost(nb, len, addr)))
  {
    hide Good, Shape, D.Linked, D.Sizes, Post, DescsTrue, CopiesTrue, Kept;
    var (t, r) := Post(j.rx, nb, len, addr);
    if r.Sent? {
      PostView(j.rx, nb, len, addr, j.out);
      D.LinkSubmit(j.dev, ViewOf(j.rx), r.reqId);
      PostDescs(j, nb, len, addr);
      PostCopies(j, nb, len, addr);
      PostKept(j, nb, len, addr);
    }
  }

  lemma PostDescs(j: Joint, nb: Netbuf, len: nat, addr: Addr)
    requires JInv(j) && Post(j.rx, nb, len, addr).1.Sent?
    ensures var (t, r) := Post(j.rx, nb, len, addr); DescsTrue(t, j.dev.subs + [r.reqId], j.dev.fetched)
  {
    hide Good, D.Linked, Post;
    PostView(j.rx, nb, len, addr, j.out);
    PostRoom(j, nb, len, addr);
    var (t, r) := Post(j.rx, nb, len, addr);
    var n, d := |j.dev.subs|, j.rx.sqDepth;
    forall k | j.dev.fetched <= k < n ensures k % d != n % d && j.dev.subs[k] != r.reqId {
      SlotsDiffer(k, n, d);
      UnfetchedOwned(j, k);
    }
  }

  lemma PostCopies(j: Joint, nb: Netbuf, len: nat, addr: Addr)
    requires JInv(j) && Post(j.rx, nb, len, addr).1.Sent?
    ensures CopiesTrue(Post(j.rx, nb, len, addr).0, j.dev.pending, j.copies)
  {
    hide Good, D.Linked, Post, DescsTrue;
    PostView(j.rx, nb, len, addr, j.out);
    forall id | id in j.dev.pending ensures id < j.rx.sqDepth && j.rx.ids.owned[id] {
      D.NotCompleted(j.dev, ViewOf(j.rx), id);
    }
  }

  lemma PostKept(j: Joint, nb: Netbuf, len: nat, addr: Addr)
    requires JInv(j) && Post(j.rx, nb, len, addr).1.Sent?
    ensures var (t, r) := Post(j.rx, nb, len, addr); r.reqId < |j.given| && Kept(t, j.given[r.reqId := Buf(nb)])
  {
    hide Good, D.Linked, Post, DescsTrue, CopiesTrue;
    PostView(j.rx, nb, len, addr, j.out);
  }

  lemma UnfetchedOwned(j: Joint, k: nat)
    requires JInv(j) && j.dev.fetched <= k < |j.dev.subs|
    ensures j.dev.subs[k] < j.rx.sqDepth && j.rx.ids.owned[j.dev.subs[k]]
  {
    hide Good, D.Linked;
    var id, unfetched := j.dev.subs[k], j.dev.subs[j.dev.fetched..];
    assert unfetched[k - j.dev.fetched] == id;
    D.NotCompleted(j.dev, ViewOf(j.rx), id);
  }

  lemma HandleView(s: Rx, e: RxCdesc)
    requires Inv(s) && (Examine(s, e) == Deliver || Examine(s, e) == Oversize)
    ensures var t := Handle(s, e);
            && s.cqPhase <= 1 && ViewOf(t) == D.ViewAdvance(ViewOf(s), s.cqDepth, e.reqId)
            && t.sq == s.sq && t.caps == s.caps[e.reqId := 0] && t.addrs == s.addrs[e.reqId := NoAddr]
            && t.slots == s.slots[e.reqId := Null] && t.ids.owned == s.ids.owned[e.reqId := false]
  {
    DropKeeps(s, e.reqId);
    DeliverKeeps(s, e.reqId);
  }

  /** The head entry carries the expected phase exactly when the device has an
      unread completion there; then the driver hands it out or drops it for
      its length, and never skips it. */
  lemma HeadVerdict(j: Joint)
    requires JInv(j)
    ensures var e := HeadEntry(j);
            var unread := j.dev.consumed < |j.dev.posted|;
            && (e.phase == j.rx.cqPhase <==> unread)
            && (unread ==> e == j.dev.posted[j.dev.consumed] && e.reqId < j.rx.sqDepth && j.rx.ids.owned[e.reqId])
            && (Examine(j.rx, e) ==
                  if !unread then Stop else if e.body.len > j.rx.caps[e.reqId] then Oversize else Deliver)
  {
    hide D.Linked, Conserved, DescsTrue, CopiesTrue, Kept;
    D.LinkReady(j.dev, ViewOf(j.rx));
    var e := HeadEntry(j);
    if j.dev.consumed < |j.dev.posted| { assert IdOk(j.rx, e.reqId); }
  }

  lemma ReapLinked(j: Joint)
    requires JInv(j)
    ensures JInv(JApply(j, JReap))
  {
    hide Good, D.Linked, Shape, Handle, DescsTrue, CopiesTrue, Kept, HandsOut;
    HeadVerdict(j);
    var e := HeadEntry(j);
    if Examine(j.rx, e) != Stop {
      GoodInv(j.rx, j.out);
      HandleView(j.rx, e);
      HandleGood(j.rx, e, j.out);
      D.LinkConsume(j.dev, ViewOf(j.rx));
      SeenOneMore(j.dev.posted, j.dev.consumed);
      ReapDescs(j, e);
    }
  }

  lemma ReapDescs(j: Joint, e: RxCdesc)
    requires JInv(j) && j.dev.consumed < |j.dev.posted| && e == j.dev.posted[j.dev.consumed]
    requires Examine(j.rx, e) == Deliver || Examine(j.rx, e) == Oversize
    ensures var t := Handle(j.rx, e);
            && DescsTrue(t, j.dev.subs, j.dev.fetched) && CopiesTrue(t, j.dev.pending, j.copies) && Kept(t, j.given)
  {
    hide Good, Handle;
    GoodInv(j.rx, j.out);
    HandleView(j.rx, e);
    forall k | j.dev.fetched <= k < |j.dev.subs| ensures j.dev.subs[k] != e.reqId {
      D.UnreadNotUnfetched(j.dev, k);
    }
    D.UnreadNotPending(j.dev);
  }

  lemma SeenOneMore(posted: seq<RxCdesc>, n: nat)
    requires n < |posted|
    ensures posted[..n + 1] == posted[..n] + [posted[n]]
  {
  }

  lemma FetchLinked(j: Joint)
    requires JInv(j)
    ensures JInv(JApply(j, JFetch))
  {
    hide Good, D.Linked, DescTrue;
    if j.dev.fetched < |j.dev.subs| {
      D.LinkFetch(j.dev, ViewOf(j.rx));
      DescsSeen(j);
      UnfetchedOwned(j, j.dev.fetched);
    }
  }

  lemma CompleteLinked(j: Joint, i: nat, body: RxBody)
    requires JInv(j)
    ensures JInv(JApply(j, JComplete(i, body)))
  {
    hide Good, D.Linked, DescTrue;
    if i < |j.dev.pending| {
      D.LinkComplete(j.dev, ViewOf(j.rx), i, body);
      assert forall id :: id in SwapRemove(j.dev.pending, i) ==> id in j.dev.pending;
      assert D.Complete(j.dev, i, body).posted[..j.dev.consumed] == j.dev.posted[..j.dev.consumed];
    }
  }

  lemma JStepKeeps(j: Joint, step: JStep)
    requires JInv(j)
    ensures JInv(JApply(j, step))
  {
    hide JInv, JApply;
    match step
    case JPost(nb, len, addr) => PostLinked(j, nb, len, addr);
    case JReap => ReapLinked(j);
    case JFetch => FetchLinked(j);
    case JComplete(i, body) => CompleteLinked(j, i, body);
  }

  /** The state after a joint run. */
  ghost function JRun(s: Rx, hand: multiset<Netbuf>, mem: seq<RxCdesc>, steps: seq<JStep>): (j: Joint)
    requires Fresh(s, hand) && |mem| == s.cqDepth
    ensures JShape(j) && (D.Blank(mem) ==> JInv(j))
    decreases |steps|
  {
    if steps == [] then
      assert D.Blank(mem) ==> JInv(Begin(s, hand, mem)) by { if D.Blank(mem) { BeginLinked(s, hand, mem); } }
      Begin(s, hand, mem)
    else
      hide JInv, JShape, JApply, Fresh;
      var j := JRun(s, hand, mem, steps[..|steps| - 1]);
      var t := JApply(j, steps[|steps| - 1]);
      assert D.Blank(mem) ==> JInv(t) by { if D.Blank(mem) { JStepKeeps(j, steps[|steps| - 1]); } }
      t
  }

  /** The head carries the expected phase exactly when the device has an unread
      completion there, the driver has handled exactly a prefix of the device's
      completions, in order, and what it reads next is handed out or dropped for
      its length, never skipped. */
  ghost predicate Protocol(j: Joint)
    requires JShape(j)
  {
    && j.seen <= j.dev.posted
    && (HeadEntry(j).phase == j.rx.cqPhase <==> |j.seen| < |j.dev.posted|)
    && (|j.seen| < |j.dev.posted| ==>
        && HeadEntry(j) == j.dev.posted[|j.seen|]
        && (Examine(j.rx, HeadEntry(j)) == Deliver || Examine(j.rx, HeadEntry(j)) == Oversize))
  }

  /** The phase protocol holds in every joint run that starts with no slot of
      the first phase. */
  lemma PhaseProtocol(s: Rx, hand: multiset<Netbuf>, mem: seq<RxCdesc>, steps: seq<JStep>)
    requires Fresh(s, hand) && |mem| == s.cqDepth && D.Blank(mem)
    ensures Protocol(JRun(s, hand, mem, steps))
  {
    hide Good;
    HeadVerdict(JRun(s, hand, mem, steps));
  }

  /** In every joint run the device finds, in each descriptor it has yet to
      fetch, the request in submission order with the length and the address
      the driver tracks for it. */
  lemma DescriptorsTrue(s: Rx, hand: multiset<Netbuf>, mem: seq<RxCdesc>, steps: seq<JStep>, k: nat)
    requires Fresh(s, hand) && |mem| == s.cqDepth && D.Blank(mem)
    requires var j := JRun(s, hand, mem, steps); j.dev.fetched <= k < |j.dev.subs|
    ensures var j := JRun(s, hand, mem, steps);
            var d := j.rx.sq[k % |j.rx.sq|];
            && d.reqId == j.dev.subs[k] < |j.rx.slots| && j.rx.slots[d.reqId].Buf?
            && d.length == j.rx.caps[d.reqId] && d.addr == j.rx.addrs[d.reqId]
            && (PostsFit(steps) ==> d.length <= j.rx.slots[d.reqId].nb.size)
  {
    hide Good;
    var j := JRun(s, hand, mem, steps);
    DescsSeen(j);
    UnfetchedOwned(j, k);
    OwnedHolds(j.rx, j.out, j.dev.subs[k]);
    if PostsFit(steps) { RunFits(s, hand, mem, steps); }
  }

  /** In every joint run a request that the device has not completed still holds
      the buffer it was posted with; of the times that buffer was taken from the
      allocator at least this one was neither handed out nor released. The copy
      that the device keeps of a fetched descriptor carries the length and the
      address the driver tracks. */
  lemma BufferLifetime(s: Rx, hand: multiset<Netbuf>, mem: seq<RxCdesc>, steps: seq<JStep>, id: nat)
    requires Fresh(s, hand) && |mem| == s.cqDepth && D.Blank(mem)
    requires var d := JRun(s, hand, mem, steps).dev; id in d.pending || id in d.subs[d.fetched..]
    ensures var j := JRun(s, hand, mem, steps);
            && id < j.rx.sqDepth && j.rx.ids.owned[id] && j.rx.slots[id] == j.given[id] && j.given[id].Buf?
            && StillHeld(j.rx, j.out, id, j.given[id].nb)
            && (id in j.dev.pending ==> j.copies[id].reqId == id && DescTrue(j.rx, j.copies[id], id))
  {
    hide Good, D.Linked;
    var j := JRun(s, hand, mem, steps);
    D.NotCompleted(j.dev, ViewOf(j.rx), id);
    OwnedHolds(j.rx, j.out, id);
    HeldNotOut(j.rx, j.out, id, j.given[id].nb);
  }

  ghost predicate StillHeld(s: Rx, out: multiset<Netbuf>, id: nat, nb: Netbuf) {
    && id in Holders(s.slots, nb)
    && |Holders(s.slots, nb)| + out[nb] + multiset(Bufs(s.log.gone))[nb] == multiset(s.log.taken)[nb]
    && (multiset(s.log.taken)[nb] == 1 ==> out[nb] == 0 && nb !in Bufs(s.log.gone))
  }

  lemma OwnedHolds(s: Rx, hand: multiset<Netbuf>, id: nat)
    requires Good(s, hand) && id < s.sqDepth && s.ids.owned[id]
    ensures s.slots[id].Buf?
  {
    assert IdOk(s, id);
  }

  lemma HeldNotOut(s: Rx, out: multiset<Netbuf>, id: nat, nb: Netbuf)
    requires Good(s, out) && id < s.sqDepth && s.slots[id] == Buf(nb)
    ensures StillHeld(s, out, id, nb)
  {
    hide Inv, PhasesOk;
    HolderCount(s.slots, nb);
    assert id in Holders(s.slots, nb);
    assert Holders(s.slots, nb) != {};
    assert nb in multiset(Bufs(s.log.gone)) <==> nb in Bufs(s.log.gone);
  }

  /** No step of the run offers the device more than the buffer holds. */
  ghost predicate PostsFit(steps: seq<JStep>) {
    forall i :: 0 <= i < |steps| && steps[i].JPost? ==> steps[i].len <= steps[i].nb.size
  }

  ghost predicate Fitting(s: Rx)
    requires Shape(s)
  {
    forall id :: 0 <= id < s.sqDepth && s.slots[id].Buf? ==> s.caps[id] <= s.slots[id].nb.size
  }

  lemma StepFits(j: Joint, step: JStep)
    requires JInv(j) && Fitting(j.rx) && (step.JPost? ==> step.len <= step.nb.size)
    ensures Fitting(JApply(j, step).rx)
  {
    hide Good, D.Linked, DescsTrue, CopiesTrue, Post, Handle;
    GoodInv(j.rx, j.out);
    match step
    case JPost(nb, len, addr) =>
      if Post(j.rx, nb, len, addr).1.Sent? { PostView(j.rx, nb, len, addr, j.out); }
    case JReap => HandleShrinks(j.rx, HeadEntry(j));
    case JFetch =>
    case JComplete(_, _) =>
  }

  lemma {:induction false} RunFits(s: Rx, hand: multiset<Netbuf>, mem: seq<RxCdesc>, steps: seq<JStep>)
    requires Fresh(s, hand) && |mem| == s.cqDepth && D.Blank(mem) && PostsFit(steps)
    ensures Fitting(JRun(s, hand, mem, steps).rx)
    decreases |steps|
  {
    if steps == [] {
      forall id | 0 <= id < s.sqDepth ensures s.slots[id] == Null { assert IdOk(s, id); }
    } else {
      hide JInv, JShape, JApply, Fresh;
      RunFits(s, hand, mem, steps[..|steps| - 1]);
      StepFits(JRun(s, hand, mem, steps[..|steps| - 1]), steps[|steps| - 1]);
    }
  }

  /** In every joint run posting a buffer leaves every unfetched descriptor as
      it was written. */
  lemma NoDescriptorOverwritten(s: Rx, hand: multiset<Netbuf>, mem: seq<RxCdesc>, steps: seq<JStep>,
                                nb: Netbuf, len: nat, addr: Addr)
    requires Fresh(s, hand) && |mem| == s.cqDepth && D.Blank(mem)
    ensures var j := JRun(s, hand, mem, steps); KeepsUnfetched(j, JApply(j, JPost(nb, len, addr)))
  {
    hide JInv, JShape, JApply;
    PostKeepsUnfetched(JRun(s, hand, mem, steps), nb, len, addr);
  }

  /** In every joint run a completion written by the device leaves every
      unread completion in place. */
  lemma NoCompletionOverwritten(s: Rx, hand: multiset<Netbuf>, mem: seq<RxCdesc>, steps: seq<JStep>, i: nat, body: RxBody)
    requires Fresh(s, hand) && |mem| == s.cqDepth && D.Blank(mem)
    ensures var j := JRun(s, hand, mem, steps); KeepsUnread(j, JApply(j, JComplete(i, body)))
  {
    hide JInv, JShape, JApply;
    CompleteKeepsUnread(JRun(s, hand, mem, steps), i, body);
  }

  /** Every completion of j that the driver has not read is still in t. */
  ghost predicate KeepsUnread(j: Joint, t: Joint) {
    && 0 < |t.dev.cqMem|
    && forall k :: |j.seen| <= k < |j.dev.posted| ==> t.dev.cqMem[k % |t.dev.cqMem|] == j.dev.posted[k]
  }

  lemma CompleteKeepsUnread(j: Joint, i: nat, body: RxBody)
    requires JInv(j)
    ensures KeepsUnread(j, JApply(j, JComplete(i, body)))
  {
    hide Good, D.Linked, D.Sizes;
    UnreadSeen(j);
    if i < |j.dev.pending| { D.LinkComplete(j.dev, ViewOf(j.rx), i, body); }
  }

  lemma UnreadSeen(j: Joint)
    requires JInv(j)
    ensures KeepsUnread(j, j) && |j.dev.cqMem| == j.dev.cqDepth && |j.seen| == j.dev.consumed
  {
    hide Good;
    assert D.UnreadIntact(j.dev);
  }

  /** Every descriptor of j that the device has not fetched is still in t. */
  ghost predicate KeepsUnfetched(j: Joint, t: Joint) {
    && 0 < |j.rx.sq| == |t.rx.sq|
    && forall k :: j.dev.fetched <= k < |j.dev.subs| ==>
         var d := t.rx.sq[k % |t.rx.sq|];
         d == j.rx.sq[k % |j.rx.sq|] && d.reqId == j.dev.subs[k]
  }

  lemma PostKeepsUnfetched(j: Joint, nb: Netbuf, len: nat, addr: Addr)
    requires JInv(j)
    ensures KeepsUnfetched(j, JApply(j, JPost(nb, len, addr)))
  {
    hide Good, D.Linked, DescsTrue, CopiesTrue, Post;
    DescsSeen(j);
    var t, n := JApply(j, JPost(nb, len, addr)), |j.dev.subs|;
    if Post(j.rx, nb, len, addr).1.Sent? {
      PostView(j.rx, nb, len, addr, j.out);
      PostRoom(j, nb, len, addr);
      forall k | j.dev.fetched <= k < n ensures t.rx.sq[k % j.rx.sqDepth] == j.rx.sq[k % j.rx.sqDepth] {
        SlotsDiffer(k, n, j.rx.sqDepth);
      }
    }
  }

  lemma DescsSeen(j: Joint)
    requires JInv(j)
    ensures forall k :: j.dev.fetched <= k < |j.dev.subs| ==> j.rx.sq[k % j.rx.sqDepth].reqId == j.dev.subs[k]
  {
    hide Good;
    assert SqIds(j.rx.sq) == j.dev.sqIds;
    assert D.DescsIntact(j.dev);
  }

  lemma PostRoom(j: Joint, nb: Netbuf, len: nat, addr: Addr)
    requires JInv(j) && Post(j.rx, nb, len, addr).1.Sent?
    ensures |j.dev.subs| - j.dev.fetched < j.rx.sqDepth
    ensures j.rx.sqTail % j.rx.sqDepth == |j.dev.subs| % j.rx.sqDepth
  {
    hide Good, Post, DescsTrue, CopiesTrue, Kept;
    PostView(j.rx, nb, len, addr, j.out);
    D.SubmitLive(j.dev, Post(j.rx, nb, len, addr).1.reqId);
    WrapHarmless(|j.dev.subs|, j.rx.sqDepth);
  }
}
