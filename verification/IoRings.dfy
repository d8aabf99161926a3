/** The IO rings of an adapter as recovery sees them: slots that hold a ring or
    none, reset (`ena_adapter_invalidate_io_rings`), made live again and, for
    receive queue 0, refilled. */
module IoRings {
  import opened RingTypes
  import T = TxRing
  import TR = TxRuns
  import R = RxRing
  import N = RxNetdev

  datatype TxSlot = NoTx | TxAttached(ring: T.Tx)
  datatype RxSlot = NoRx | RxAttached(net: N.Net)

  ghost predicate TxOk(x: TxSlot) {
    x.TxAttached? ==> TR.Good(x.ring)
  }

  ghost predicate RxOk(x: RxSlot) {
    x.RxAttached? ==> N.Safe(x.net, multiset{})
  }

  ghost predicate RingsOk(tx: seq<TxSlot>, rx: seq<RxSlot>) {
    && (forall q :: 0 <= q < |tx| ==> TxOk(tx[q]))
    && (forall q :: 0 <= q < |rx| ==> RxOk(rx[q]))
  }

  predicate TxLive(x: TxSlot) {
    x.TxAttached? ==> x.ring.hwValid
  }

  predicate RxLive(x: RxSlot) {
    x.RxAttached? ==> x.net.rx.hwValid
  }

  /** Holds no buffer, no in-flight request and no deferred release; every ID
      is in the pool. */
  ghost predicate TxBlank(x: TxSlot) {
    x.TxAttached? ==>
      && !x.ring.hwValid && x.ring.foreignCount == 0 && x.ring.ids.free.count == |x.ring.ids.owned|
      && (forall i :: 0 <= i < |x.ring.slots| ==> x.ring.slots[i] == Null)
      && (forall i :: 0 <= i < |x.ring.inFlight| ==> !x.ring.inFlight[i])
  }

  ghost predicate RxBlank(x: RxSlot) {
    x.RxAttached? ==>
      && !x.net.rx.hwValid && x.net.rx.ids.free.count == |x.net.rx.ids.owned|
      && (forall i :: 0 <= i < |x.net.rx.slots| ==> x.net.rx.slots[i] == Null)
      && (forall i :: 0 <= i < |x.net.rx.inFlight| ==> !x.net.rx.inFlight[i])
  }

  function ResetTx(x: TxSlot): TxSlot
    requires TxOk(x)
  {
    if x.NoTx? then x else TxAttached(T.Reset(x.ring))
  }

  function ResetRx(x: RxSlot): RxSlot
    requires RxOk(x)
  {
    if x.NoRx? then x else RxAttached(x.net.(rx := R.Reset(x.net.rx)))
  }

  lemma ResetTxOk(x: TxSlot)
    requires TxOk(x)
    ensures TxOk(ResetTx(x)) && TxBlank(ResetTx(x))
  {
    if x.TxAttached? { TR.ResetKeeps(x.ring); }
  }

  lemma ResetRxOk(x: RxSlot)
    requires RxOk(x)
    ensures RxOk(ResetRx(x)) && RxBlank(ResetRx(x))
  {
    if x.RxAttached? { N.ResetSafe(x.net); }
  }

  function LiveTx(x: TxSlot): TxSlot {
    if x.NoTx? then x else TxAttached(x.ring.(hwValid := true))
  }

  function LiveRx(x: RxSlot): RxSlot {
    if x.NoRx? then x else RxAttached(x.net.(rx := x.net.rx.(hwValid := true)))
  }

  lemma LiveTxOk(x: TxSlot)
    requires TxOk(x)
    ensures TxOk(LiveTx(x)) && TxLive(LiveTx(x))
  {
    if x.TxAttached? {
      var s, t := x.ring, x.ring.(hwValid := true);
      assert TR.DeferredIds(t) == TR.DeferredIds(s);
      forall id | 0 <= id < s.sqDepth ensures TR.IdOk(t, id, {}) { assert TR.IdOk(s, id, {}); }
    }
  }

  lemma LiveRxOk(x: RxSlot)
    requires RxOk(x)
    ensures RxOk(LiveRx(x)) && RxLive(LiveRx(x))
  {
    if x.RxAttached? { N.RecreatedSafe(x.net); }
  }

  lemma RefillOneLive(n: N.Net, offer: N.Offer)
    requires N.Safe(n, multiset{})
    ensures N.RefillOne(n, offer).0.rx.hwValid == n.rx.hwValid
  {
    hide N.Safe, N.Apart;
  }

  /** A refill posts buffers and leaves the queue live. */
  lemma {:induction false} RefillLive(n: N.Net, count: nat, offers: seq<N.Offer>)
    requires N.Safe(n, multiset{})
    ensures N.Refill(n, count, offers).0.rx.hwValid == n.rx.hwValid
    decreases |offers|
  {
    hide N.Safe, N.Sound, N.RefillOne;
    if count > 0 && n.rx.ids.free.count > 0 && offers != [] {
      N.RefillOneSafe(n, offers[0]);
      RefillOneLive(n, offers[0]);
      var (m, more) := N.RefillOne(n, offers[0]);
      if more { RefillLive(m, count - 1, offers[1..]); }
    }
  }

  function Refilled(x: RxSlot, offers: seq<N.Offer>): RxSlot
    requires RxOk(x)
  {
    if x.NoRx? || x.net.rx.sqDepth == 0 then x else RxAttached(N.Refill(x.net, x.net.rx.sqDepth - 1, offers).0)
  }

  lemma RefilledOk(x: RxSlot, offers: seq<N.Offer>)
    requires RxOk(x) && RxLive(x)
    ensures RxOk(Refilled(x, offers)) && RxLive(Refilled(x, offers))
    ensures Refilled(x, offers).RxAttached? == x.RxAttached?
  {
    hide N.Safe, N.Refill;
    if x.RxAttached? && x.net.rx.sqDepth > 0 { RefillLive(x.net, x.net.rx.sqDepth - 1, offers); }
  }

  /** A receive queue after its creation: live, and refilled if asked for. */
  function Revived(x: RxSlot, refill: bool, offers: seq<N.Offer>): (y: RxSlot)
    requires RxOk(x)
    ensures RxOk(y) && RxLive(y) && (!refill ==> y == LiveRx(x)) && y.RxAttached? == x.RxAttached?
  {
    hide RxOk, Refilled;
    LiveRxOk(x);
    RefilledOk(LiveRx(x), offers);
    if refill then Refilled(LiveRx(x), offers) else LiveRx(x)
  }

  // ---- one ring at a time ----

  lemma RingsAt(tx: seq<TxSlot>, rx: seq<RxSlot>)
    requires RingsOk(tx, rx)
    ensures forall q :: 0 <= q < |tx| ==> TxOk(tx[q])
    ensures forall q :: 0 <= q < |rx| ==> RxOk(rx[q])
  {
  }

  lemma TxUpdated(tx: seq<TxSlot>, rx: seq<RxSlot>, q: nat, x: TxSlot)
    requires RingsOk(tx, rx) && q < |tx| && TxOk(x)
    ensures RingsOk(tx[q := x], rx)
  {
    hide TxOk, RxOk;
  }

  lemma RxUpdated(tx: seq<TxSlot>, rx: seq<RxSlot>, q: nat, x: RxSlot)
    requires RingsOk(tx, rx) && q < |rx| && RxOk(x)
    ensures RingsOk(tx, rx[q := x])
  {
    hide TxOk, RxOk;
  }
}
