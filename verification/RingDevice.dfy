/** The device side of one queue pair: it fetches descriptors in order,
    completes fetched requests in any order, each once, and writes completions
    with its own 16-bit tail and phase bit. */
module RingDevice {
  import opened Bits
  import opened IdLists
  import opened RingTypes

  datatype Dev<B> = Dev(
    sqDepth: nat, cqDepth: nat,
    subs: seq<nat>,         // request IDs submitted so far, in order
    sqIds: seq<nat>,        // request ID in each submission slot
    fetched: nat,           // descriptors read by the device
    pending: seq<nat>,      // fetched and not yet completed
    posted: seq<Cdesc<B>>,  // completions written so far, in order
    cqMem: seq<Cdesc<B>>,   // completion memory
    tail: nat, phase: nat,  // the device's own index and phase bit
    consumed: nat)          // completions read by the driver

  /** A queue pair that was just created, over the memory it finds. */
  function Begin<B>(sqIds: seq<nat>, mem: seq<Cdesc<B>>): Dev<B> {
    Dev(|sqIds|, |mem|, [], sqIds, 0, [], [], mem, 0, 1, 0)
  }

  /** No completion slot carries the phase bit of the first pass. */
  ghost predicate Blank<B>(mem: seq<Cdesc<B>>) {
    forall k :: 0 <= k < |mem| ==> mem[k].phase != 1
  }

  /** The first slot that does, if there is one. */
  lemma {:induction false} FirstStale<B>(mem: seq<Cdesc<B>>, from: nat) returns (m: nat)
    requires from <= |mem| && !Blank(mem) && forall k :: 0 <= k < from ==> mem[k].phase != 1
    ensures m < |mem| && mem[m].phase == 1 && forall k :: 0 <= k < m ==> mem[k].phase != 1
    decreases |mem| - from
  {
    if mem[from].phase == 1 { m := from; } else { m := FirstStale(mem, from + 1); }
  }

  /** The memory with every slot from m on cleared. */
  ghost function Wiped<B>(mem: seq<Cdesc<B>>, m: nat): (r: seq<Cdesc<B>>)
    ensures |r| == |mem|
  {
    seq(|mem|, i requires 0 <= i < |mem| => if i < m then mem[i] else mem[i].(phase := 0))
  }

  /** What every step below keeps, whatever the memory held at first. */
  ghost predicate Dims<B>(d: Dev<B>) {
    0 < d.sqDepth == |d.sqIds| && 0 < d.cqDepth == |d.cqMem| && d.phase <= 1
  }

  // ---- steps ----

  /** The driver wrote the descriptor of a request. */
  function Submitted<B>(d: Dev<B>, id: nat): Dev<B>
    requires 0 < d.sqDepth == |d.sqIds|
  {
    d.(subs := d.subs + [id], sqIds := d.sqIds[|d.subs| % d.sqDepth := id])
  }

  /** The device reads the next descriptor from memory. */
  function Fetch<B>(d: Dev<B>): Dev<B>
    requires 0 < d.sqDepth == |d.sqIds|
  {
    d.(pending := d.pending + [d.sqIds[d.fetched % d.sqDepth]], fetched := d.fetched + 1)
  }

  /** The device completes its i-th pending request. */
  function Complete<B>(d: Dev<B>, i: nat, body: B): Dev<B>
    requires i < |d.pending| && 0 < d.cqDepth == |d.cqMem| && d.phase <= 1
  {
    var e := Cdesc(d.phase, d.pending[i], body);
    var tail := (d.tail + 1) % U16;
    d.(pending := SwapRemove(d.pending, i),
       posted := d.posted + [e],
       cqMem := d.cqMem[d.tail % d.cqDepth := e],
       tail := tail,
       phase := if tail % d.cqDepth == 0 then 1 - d.phase else d.phase)
  }

  /** The driver moved past the entry at its head. */
  function Consume<B>(d: Dev<B>): Dev<B> {
    d.(consumed := d.consumed + 1)
  }

  // ---- invariant ----

  ghost function Ids<B>(c: seq<Cdesc<B>>): (r: seq<nat>)
    ensures |r| == |c|
  {
    seq(|c|, i requires 0 <= i < |c| => c[i].reqId)
  }

  /** Requests between submission and the driver's read of their completion. */
  ghost function Live<B>(d: Dev<B>): multiset<nat>
    requires d.fetched <= |d.subs| && d.consumed <= |d.posted|
  {
    multiset(d.subs[d.fetched..]) + multiset(d.pending) + multiset(Ids(d.posted[d.consumed..]))
  }

  ghost predicate Sizes<B>(d: Dev<B>) {
    && 0 < d.sqDepth <= d.cqDepth <= MAX_DEPTH && IsPow2(d.sqDepth) && IsPow2(d.cqDepth)
    && |d.sqIds| == d.sqDepth && |d.cqMem| == d.cqDepth
    && d.fetched <= |d.subs| && d.consumed <= |d.posted|
    && d.tail == |d.posted| % U16 && d.phase == Phase(|d.posted|, d.cqDepth)
  }

  ghost predicate Inv<B>(d: Dev<B>) {
    && Sizes(d)
    && Live(d) <= Each(d.sqDepth)
    && DescsIntact(d) && UnreadIntact(d) && FutureBlank(d)
  }

  /** Every unfetched descriptor is still in memory. */
  ghost predicate DescsIntact<B>(d: Dev<B>)
    requires Sizes(d)
  {
    forall k :: d.fetched <= k < |d.subs| ==> d.sqIds[k % d.sqDepth] == d.subs[k]
  }

  /** Every unread completion is still in memory, with the phase of its index. */
  ghost predicate UnreadIntact<B>(d: Dev<B>)
    requires Sizes(d)
  {
    forall k :: d.consumed <= k < |d.posted| ==>
      d.cqMem[k % d.cqDepth] == d.posted[k] && d.posted[k].phase == Phase(k, d.cqDepth)
  }

  /** A slot not written in the current pass carries the other phase. */
  ghost predicate FutureBlank<B>(d: Dev<B>)
    requires Sizes(d)
  {
    forall k :: |d.posted| <= k < |d.posted| + d.cqDepth ==> d.cqMem[k % d.cqDepth].phase != Phase(k, d.cqDepth)
  }

  lemma BeginInv<B>(sqIds: seq<nat>, mem: seq<Cdesc<B>>)
    requires 0 < |sqIds| <= |mem| <= MAX_DEPTH && IsPow2(|sqIds|) && IsPow2(|mem|) && Blank(mem)
    ensures Inv(Begin(sqIds, mem))
  {
    hide IsPow2, Phase;
    var d, n := Begin(sqIds, mem), |mem|;
    PhaseFirst(0, n);
    forall k | 0 <= k < n ensures d.cqMem[k % n].phase != Phase(k, n) { PhaseFirst(k, n); }
    assert Live(d) == multiset{} by { assert Ids(d.posted[d.consumed..]) == [] && d.subs[d.fetched..] == []; }
  }

  lemma LiveBound<B>(d: Dev<B>)
    requires Inv(d)
    ensures |d.subs| - d.fetched + |d.pending| + |d.posted| - d.consumed <= d.sqDepth
  {
    SubBagSize(Live(d), Each(d.sqDepth));
  }

  lemma SubmitLive<B>(d: Dev<B>, id: nat)
    requires Inv(d) && id < d.sqDepth && id !in Live(d)
    ensures Live(Submitted(d, id)) == Live(d) + multiset{id}
    ensures Live(Submitted(d, id)) <= Each(d.sqDepth)
    ensures |d.subs| - d.fetched < d.sqDepth
  {
    var t := Submitted(d, id);
    assert t.subs[t.fetched..] == d.subs[d.fetched..] + [id];
    assert Live(t) == Live(d) + multiset{id};
    SubBagSize(Live(t), Each(d.sqDepth));
  }

  /** A request that is not live leaves fewer than sqDepth descriptors
      unfetched, so writing its descriptor overwrites none of them. */
  lemma SubmitSafe<B>(d: Dev<B>, id: nat)
    requires Inv(d) && id < d.sqDepth && id !in Live(d)
    ensures forall k :: d.fetched <= k < |d.subs| ==> Submitted(d, id).sqIds[k % d.sqDepth] == d.sqIds[k % d.sqDepth]
    ensures Inv(Submitted(d, id)) && Live(Submitted(d, id)) == Live(d) + multiset{id}
  {
    hide Live, IsPow2, FutureBlank, UnreadIntact;
    SubmitLive(d, id);
    SubmitFrame(d, id);
    var t, n := Submitted(d, id), |d.subs|;
    forall k | d.fetched <= k < n ensures t.sqIds[k % d.sqDepth] == d.sqIds[k % d.sqDepth] {
      SlotsDiffer(k, n, d.sqDepth);
    }
    forall k | t.fetched <= k < |t.subs| ensures t.sqIds[k % d.sqDepth] == t.subs[k] {
      if k < n { assert d.sqIds[k % d.sqDepth] == d.subs[k]; }
    }
  }

  lemma SubmitFrame<B>(d: Dev<B>, id: nat)
    requires Sizes(d) && UnreadIntact(d) && FutureBlank(d)
    ensures Sizes(Submitted(d, id)) && UnreadIntact(Submitted(d, id)) && FutureBlank(Submitted(d, id))
  {
  }

  /** The device reads the descriptors in the order they were submitted. */
  lemma FetchSafe<B>(d: Dev<B>)
    requires Inv(d) && d.fetched < |d.subs|
    ensures Inv(Fetch(d)) && Live(Fetch(d)) == Live(d)
    ensures Fetch(d).pending == d.pending + [d.subs[d.fetched]]
  {
    var t := Fetch(d);
    assert d.subs[d.fetched..] == [d.subs[d.fetched]] + t.subs[t.fetched..];
  }

  /** Completing a pending request never overwrites an unread completion. */
  lemma CompleteSafe<B>(d: Dev<B>, i: nat, body: B)
    requires Inv(d) && i < |d.pending|
    ensures |d.posted| - d.consumed < d.cqDepth
    ensures Inv(Complete(d, i, body)) && Live(Complete(d, i, body)) == Live(d)
    ensures Complete(d, i, body).posted == d.posted + [Cdesc(Phase(|d.posted|, d.cqDepth), d.pending[i], body)]
  {
    hide Live, IsPow2, Phase, DescsIntact, UnreadIntact, FutureBlank;
    LiveBound(d);
    CompleteLive(d, i, body);
    CompleteSizes(d, i, body);
    CompleteUnread(d, i, body);
    CompleteFuture(d, i, body);
    CompleteDescs(d, i, body);
  }

  lemma CompleteSizes<B>(d: Dev<B>, i: nat, body: B)
    requires Sizes(d) && i < |d.pending|
    ensures var t := Complete(d, i, body);
            && Sizes(t)
            && t.cqMem == d.cqMem[|d.posted| % d.cqDepth := t.posted[|d.posted|]]
            && t.posted == d.posted + [Cdesc(Phase(|d.posted|, d.cqDepth), d.pending[i], body)]
  {
    WrapHarmless(|d.posted|, d.cqDepth);
    CounterStep(|d.posted|, d.cqDepth);
  }

  lemma CompleteDescs<B>(d: Dev<B>, i: nat, body: B)
    requires Sizes(d) && i < |d.pending| && DescsIntact(d) && Sizes(Complete(d, i, body))
    ensures DescsIntact(Complete(d, i, body))
  {
  }

  lemma CompleteUnread<B>(d: Dev<B>, i: nat, body: B)
    requires Sizes(d) && i < |d.pending| && UnreadIntact(d) && |d.posted| - d.consumed < d.cqDepth
    requires Sizes(Complete(d, i, body))
    ensures UnreadIntact(Complete(d, i, body))
  {
    hide IsPow2, Phase;
    CompleteSizes(d, i, body);
    var t, n, c := Complete(d, i, body), |d.posted|, d.cqDepth;
    forall k | t.consumed <= k < |t.posted|
      ensures t.cqMem[k % c] == t.posted[k] && t.posted[k].phase == Phase(k, c)
    {
      if k < n { SlotsDiffer(k, n, c); }
    }
  }

  lemma CompleteFuture<B>(d: Dev<B>, i: nat, body: B)
    requires Sizes(d) && i < |d.pending| && FutureBlank(d) && Sizes(Complete(d, i, body))
    ensures FutureBlank(Complete(d, i, body))
  {
    hide IsPow2, Phase;
    CompleteSizes(d, i, body);
    var t, n, c := Complete(d, i, body), |d.posted|, d.cqDepth;
    forall k | n + 1 <= k < n + 1 + c ensures t.cqMem[k % c].phase != Phase(k, c) {
      if k < n + c { SlotsDiffer(n, k, c); } else { PhaseNextPass(n, c); }
    }
  }

  lemma CompleteLive<B>(d: Dev<B>, i: nat, body: B)
    requires Sizes(d) && i < |d.pending|
    ensures Live(Complete(d, i, body)) == Live(d)
  {
    hide IsPow2, Phase;
    var t, x := Complete(d, i, body), d.pending[i];
    assert t.posted[t.consumed..] == d.posted[d.consumed..] + [t.posted[|d.posted|]];
    assert Ids(t.posted[t.consumed..]) == Ids(d.posted[d.consumed..]) + [x];
    MoveOver(multiset(d.subs[d.fetched..]), multiset(t.pending), multiset(Ids(d.posted[d.consumed..])), x);
  }

  lemma MoveOver(a: multiset<nat>, p: multiset<nat>, c: multiset<nat>, x: nat)
    ensures a + (p + multiset{x}) + c == a + p + (c + multiset{x})
  {
  }

  /** The entry at the driver's head carries the expected phase exactly when
      the device posted a completion there that the driver has not read; then
      it is that completion. */
  lemma HeadReady<B>(d: Dev<B>)
    requires Inv(d)
    ensures var e := d.cqMem[d.consumed % d.cqDepth];
            && (e.phase == Phase(d.consumed, d.cqDepth) <==> d.consumed < |d.posted|)
            && (d.consumed < |d.posted| ==> e == d.posted[d.consumed])
  {
    LiveBound(d);
  }

  lemma ConsumeSafe<B>(d: Dev<B>)
    requires Inv(d) && d.consumed < |d.posted|
    ensures Inv(Consume(d)) && Live(d) == Live(Consume(d)) + multiset{d.posted[d.consumed].reqId}
  {
    var t := Consume(d);
    assert Ids(d.posted[d.consumed..]) == [d.posted[d.consumed].reqId] + Ids(t.posted[t.consumed..]);
    assert Live(d) == Live(t) + multiset{d.posted[d.consumed].reqId};
  }

  // ---- the driver's view of the same queue pair ----

  /** What the driver keeps for a queue pair: the requests it waits for, the
      request ID in each descriptor it wrote, and its 16-bit indexes. */
  datatype View = View(busy: seq<bool>, sqIds: seq<nat>, sqTail: nat, cqHead: nat, cqPhase: nat)

  /** Driver and device agree: the driver waits for exactly the live requests,
      both see the same descriptors and the indexes count the same events. */
  ghost predicate Linked<B>(d: Dev<B>, v: View)
    ensures Linked(d, v) ==> Sizes(d) && |v.busy| == |v.sqIds| == d.sqDepth
  {
    && Inv(d)
    && |v.busy| == d.sqDepth && (forall id: nat :: id < d.sqDepth ==> (v.busy[id] <==> id in Live(d)))
    && v.sqIds == d.sqIds
    && v.sqTail == |d.subs| % U16
    && v.cqHead == d.consumed % U16 && v.cqPhase == Phase(v.cqHead, d.cqDepth)
  }

  lemma LinkBegin<B>(sqIds: seq<nat>, mem: seq<Cdesc<B>>, v: View)
    requires 0 < |sqIds| <= |mem| <= MAX_DEPTH && IsPow2(|sqIds|) && IsPow2(|mem|) && Blank(mem)
    requires v.sqIds == sqIds && v.sqTail == 0 && v.cqHead == 0 && v.cqPhase == 1
    requires |v.busy| == |sqIds| && forall id :: 0 <= id < |v.busy| ==> !v.busy[id]
    ensures Linked(Begin(sqIds, mem), v)
  {
    hide IsPow2, Phase;
    BeginInv(sqIds, mem);
    PhaseFirst(0, |mem|);
    var d := Begin(sqIds, mem);
    assert Live(d) == multiset{} by { assert Ids(d.posted[d.consumed..]) == [] && d.subs[d.fetched..] == []; }
  }

  function ViewSubmit(v: View, depth: nat, id: nat): View
    requires 0 < depth == |v.sqIds| == |v.busy| && id < depth
  {
    v.(busy := v.busy[id := true], sqIds := v.sqIds[v.sqTail % depth := id], sqTail := (v.sqTail + 1) % U16)
  }

  /** A request the driver does not wait for can be submitted: its descriptor
      goes to the slot the device will read for it and overwrites no
      descriptor the device has not fetched. */
  lemma LinkSubmit<B>(d: Dev<B>, v: View, id: nat)
    requires Linked(d, v) && id < d.sqDepth && !v.busy[id]
    ensures var w := ViewSubmit(v, d.sqDepth, id);
            && Linked(Submitted(d, id), w)
            && (forall k :: d.fetched <= k < |d.subs| ==> w.sqIds[k % d.sqDepth] == v.sqIds[k % d.sqDepth] == d.subs[k])
  {
    hide Live, IsPow2, Phase, FutureBlank, UnreadIntact;
    SubmitSafe(d, id);
    WrapHarmless(|d.subs|, d.sqDepth);
    CounterStep(|d.subs|, d.sqDepth);
  }

  lemma LinkFetch<B>(d: Dev<B>, v: View)
    requires Linked(d, v) && d.fetched < |d.subs|
    ensures Linked(Fetch(d), v) && Fetch(d).pending == d.pending + [d.subs[d.fetched]]
  {
    hide Live, IsPow2, Phase, FutureBlank, UnreadIntact, DescsIntact;
    FetchSafe(d);
  }

  lemma LinkComplete<B>(d: Dev<B>, v: View, i: nat, body: B)
    requires Linked(d, v) && i < |d.pending|
    ensures Linked(Complete(d, i, body), v)
    ensures forall k :: d.consumed <= k < |d.posted| ==> Complete(d, i, body).cqMem[k % d.cqDepth] == d.posted[k]
  {
    hide Live, IsPow2, Phase, FutureBlank, DescsIntact;
    CompleteSafe(d, i, body);
    assert forall k :: d.consumed <= k < |d.posted| ==> Complete(d, i, body).posted[k] == d.posted[k];
  }

  /** The entry the driver reads carries the expected phase exactly when the
      device has an unread completion there, and then it is that completion,
      of a request the driver waits for. */
  lemma LinkReady<B>(d: Dev<B>, v: View)
    requires Linked(d, v)
    ensures var e := d.cqMem[v.cqHead % d.cqDepth];
            && (e.phase == v.cqPhase <==> d.consumed < |d.posted|)
            && (d.consumed < |d.posted| ==> e == d.posted[d.consumed] && e.reqId < d.sqDepth && v.busy[e.reqId])
  {
    hide IsPow2, Phase, FutureBlank, UnreadIntact, DescsIntact;
    HeadReady(d);
    WrapHarmless(d.consumed, d.cqDepth);
    if d.consumed < |d.posted| {
      var id := d.posted[d.consumed].reqId;
      assert Ids(d.posted[d.consumed..])[0] == id;
      assert id in Live(d);
      assert Live(d)[id] <= Each(d.sqDepth)[id];
    }
  }

  /** The driver waits for every request that the device has not completed. */
  lemma NotCompleted<B>(d: Dev<B>, v: View, id: nat)
    requires Linked(d, v) && (id in d.pending || id in d.subs[d.fetched..])
    ensures id < d.sqDepth && v.busy[id]
  {
    hide IsPow2, Phase, FutureBlank, UnreadIntact, DescsIntact;
    assert id in Live(d);
    assert Live(d)[id] <= Each(d.sqDepth)[id];
  }

  lemma NoneBusy<B>(d: Dev<B>, v: View)
    requires Linked(d, v) && d.fetched == |d.subs| && d.pending == [] && d.consumed == |d.posted|
    ensures forall id :: 0 <= id < d.sqDepth ==> !v.busy[id]
  {
    hide IsPow2, Phase, FutureBlank, UnreadIntact, DescsIntact;
    assert Live(d) == multiset{} by { assert Ids(d.posted[d.consumed..]) == [] && d.subs[d.fetched..] == []; }
  }

  /** The request of an unread completion has no descriptor left to fetch. */
  lemma UnreadNotUnfetched<B>(d: Dev<B>, k: nat)
    requires Inv(d) && d.consumed < |d.posted| && d.fetched <= k < |d.subs|
    ensures d.subs[k] != d.posted[d.consumed].reqId
  {
    hide IsPow2, Phase, FutureBlank, UnreadIntact, DescsIntact;
    var id := d.posted[d.consumed].reqId;
    var unfetched, unread := d.subs[d.fetched..], Ids(d.posted[d.consumed..]);
    assert unfetched[k - d.fetched] == d.subs[k] && unread[0] == id;
    assert d.subs[k] in multiset(unfetched) && id in multiset(unread);
    assert Live(d)[id] >= multiset(unfetched)[id] + multiset(unread)[id];
    assert Live(d)[id] <= Each(d.sqDepth)[id] <= 1;
  }

  /** ... and is not pending either. */
  lemma UnreadNotPending<B>(d: Dev<B>)
    requires Inv(d) && d.consumed < |d.posted|
    ensures d.posted[d.consumed].reqId !in d.pending
  {
    hide IsPow2, Phase, FutureBlank, UnreadIntact, DescsIntact;
    var id := d.posted[d.consumed].reqId;
    var unread := Ids(d.posted[d.consumed..]);
    assert unread[0] == id;
    assert id in multiset(unread);
    assert Live(d)[id] >= multiset(d.pending)[id] + multiset(unread)[id];
    assert Live(d)[id] <= Each(d.sqDepth)[id] <= 1;
  }

  function ViewAdvance(v: View, cqDepth: nat, id: nat): View
    requires 0 < cqDepth && id < |v.busy| && v.cqPhase <= 1
  {
    var head := (v.cqHead + 1) % U16;
    v.(busy := v.busy[id := false], cqHead := head, cqPhase := if head % cqDepth == 0 then 1 - v.cqPhase else v.cqPhase)
  }

  lemma LinkConsume<B>(d: Dev<B>, v: View)
    requires Linked(d, v) && d.consumed < |d.posted|
    ensures var id := d.posted[d.consumed].reqId;
            id < d.sqDepth && v.cqPhase <= 1 && Linked(Consume(d), ViewAdvance(v, d.cqDepth, id))
  {
    hide Live, IsPow2, Phase, FutureBlank, UnreadIntact, DescsIntact;
    var id := d.posted[d.consumed].reqId;
    LinkReady(d, v);
    ConsumeSafe(d);
    CounterStep(d.consumed, d.cqDepth);
    WrapHarmless(d.consumed, d.cqDepth);
    WrapHarmless(d.consumed + 1, d.cqDepth);
    assert Live(d)[id] <= Each(d.sqDepth)[id];
    assert forall k: nat :: k != id ==> (k in Live(d) <==> k in Live(Consume(d)));
  }

  /** The reads of a poll that follow the first one start at the next head. */
  lemma WindowTail<B>(cq: seq<Cdesc<B>>, head: nat, n: nat)
    requires 0 < |cq| <= MAX_DEPTH && IsPow2(|cq|) && n > 0
    ensures Window(cq, head, n)[0] == cq[head % |cq|]
    ensures Window(cq, head, n)[1..] == Window(cq, (head + 1) % U16, n - 1)
  {
    hide IsPow2, Window;
    WindowAt(cq, head, n, 0);
    forall k | 0 <= k < n - 1 ensures Window(cq, head, n)[1..][k] == Window(cq, (head + 1) % U16, n - 1)[k] {
      WindowNext(cq, head, n, k);
    }
  }

  lemma WindowAt<B>(cq: seq<Cdesc<B>>, head: nat, n: nat, k: nat)
    requires 0 < |cq| && k < n
    ensures Window(cq, head, n)[k] == cq[(head + k) % |cq|]
  {
  }

  lemma WindowNext<B>(cq: seq<Cdesc<B>>, head: nat, n: nat, k: nat)
    requires 0 < |cq| <= MAX_DEPTH && IsPow2(|cq|) && k + 1 < n
    ensures Window(cq, head, n)[k + 1] == Window(cq, (head + 1) % U16, n - 1)[k]
  {
    hide IsPow2, Window;
    var next := (head + 1) % U16;
    WindowAt(cq, head, n, k + 1);
    WindowAt(cq, next, n - 1, k);
    WrapThenAdd(head + 1, k, |cq|);
    assert head + 1 + k == head + (k + 1);
  }
}
