/** What recovery guarantees, for every script of device answers. */
module RecoveryTheorems {
  import opened Bits
  import opened RingTypes
  import opened IoRings
  import opened RecoveryPlan
  import opened RecoveryMoves

  // ---- one result per ring and per feature ----

  /** Rings that are attached and not live. */
  ghost function DeadTx(tx: seq<TxSlot>): nat {
    if tx == [] then 0 else DeadTx(tx[..|tx| - 1]) + if TxLive(tx[|tx| - 1]) then 0 else 1
  }

  ghost function DeadRx(rx: seq<RxSlot>): nat {
    if rx == [] then 0 else DeadRx(rx[..|rx| - 1]) + if RxLive(rx[|rx| - 1]) then 0 else 1
  }

  /** What the results of a TX loop say: the entry of a dead ring is 0 exactly
      when the ring was brought to life; nothing else changes. */
  ghost predicate TxShown(was: seq<TxSlot>, now: seq<TxSlot>, seen: seq<int>, q: nat) {
    && q <= |was| == |now| && |seen| == DeadTx(was[..q])
    && (forall k :: q <= k < |was| ==> now[k] == was[k])
    && (forall k :: 0 <= k < q ==> TxEntry(was, now, seen, k))
  }

  ghost predicate TxEntry(was: seq<TxSlot>, now: seq<TxSlot>, seen: seq<int>, k: nat)
    requires k < |was| == |now|
  {
    if TxLive(was[k]) then now[k] == was[k]
    else
      var i := DeadTx(was[..k]);
      i < |seen| && now[k] == (if seen[i] == 0 then LiveTx(was[k]) else was[k])
  }

  lemma {:induction false} TxLoopShows(w: World, q: nat)
    requires Ok(w) && w.active && q <= |w.tx|
    ensures var (v, seen) := TxLoop(w, q); TxShown(w.tx, v.tx, seen, q)
  {
    hide RingsOk, Create, LiveTx, TxLive;
    if q > 0 {
      var (v, seen) := TxLoop(w, q - 1);
      TxLoopShows(w, q - 1);
      assert w.tx[..q][..q - 1] == w.tx[..q - 1];
      var (u, more) := TxLoop(w, q);
      forall k | 0 <= k < q ensures TxEntry(w.tx, u.tx, more, k) {
        if k < q - 1 { assert TxEntry(w.tx, v.tx, seen, k); }
      }
    }
  }

  /** The same for RX; queue 0 may be refilled when it comes to life. */
  ghost predicate RxShown(w: World, now: seq<RxSlot>, seen: seq<int>, q: nat)
    requires Ok(w)
  {
    && q <= |w.rx| == |now| && |seen| == DeadRx(w.rx[..q])
    && (forall k :: q <= k < |w.rx| ==> now[k] == w.rx[k])
    && (forall k :: 0 <= k < q ==> RxEntry(w, now, seen, k))
  }

  ghost predicate RxEntry(w: World, now: seq<RxSlot>, seen: seq<int>, k: nat)
    requires k < |w.rx| == |now|
  {
    if RxLive(w.rx[k]) then now[k] == w.rx[k]
    else
      var i := DeadRx(w.rx[..k]);
      && i < |seen| && RxOk(w.rx[k])
      && now[k] == if seen[i] == 0 then Revived(w.rx[k], k == 0 && w.refills, w.offers) else w.rx[k]
  }

  lemma {:induction false} RxLoopShows(w: World, q: nat)
    requires Ok(w) && w.active && q <= |w.rx|
    ensures var (v, seen) := RxLoop(w, q); RxShown(w, v.rx, seen, q)
  {
    hide RingsOk, Create, Revived, RxLive, RxOk;
    RingsAt(w.tx, w.rx);
    if q > 0 {
      var (v, seen) := RxLoop(w, q - 1);
      RxLoopShows(w, q - 1);
      assert w.rx[..q][..q - 1] == w.rx[..q - 1];
      var (u, more) := RxLoop(w, q);
      forall k | 0 <= k < q ensures RxEntry(w, u.rx, more, k) {
        if k < q - 1 { assert RxEntry(w, v.rx, seen, k); }
      }
    }
  }

  lemma LiveIsLive(x: TxSlot)
    ensures TxLive(LiveTx(x))
  {
  }

  /** All entries 0 means every ring is live. */
  lemma ShownLive(w: World, tx: seq<TxSlot>, rx: seq<RxSlot>, txs: seq<int>, rxs: seq<int>)
    requires Ok(w) && TxShown(w.tx, tx, txs, |w.tx|) && RxShown(w, rx, rxs, |w.rx|)
    requires (forall i :: 0 <= i < |txs| ==> txs[i] == 0) && (forall i :: 0 <= i < |rxs| ==> rxs[i] == 0)
    ensures (forall q :: 0 <= q < |tx| ==> TxLive(tx[q])) && (forall q :: 0 <= q < |rx| ==> RxLive(rx[q]))
  {
    hide RingsOk, LiveTx, TxLive, RxLive, Revived, RxOk;
    forall q | 0 <= q < |tx| ensures TxLive(tx[q]) {
      assert TxEntry(w.tx, tx, txs, q);
      LiveIsLive(w.tx[q]);
    }
    forall q | 0 <= q < |rx| ensures RxLive(rx[q]) { assert RxEntry(w, rx, rxs, q); }
  }

  /** How many feature steps apply. */
  ghost function FeatureSteps(a: Adm, rx: seq<RxSlot>): nat {
    1 + (if a.mtu == 0 then 0 else 1) + (if a.groups == 0 then 0 else 1) + (if |rx| <= 1 then 0 else 1)
  }

  lemma FeatureCount(w: World)
    requires Ok(w) && w.active
    ensures |Features(w).1| == FeatureSteps(w.adm, w.rx)
  {
    hide RingsOk, ReadAttributes, ApplyMtu, ApplyAenq, ApplyRss;
    AttributesKeep(w);
    MtuKeeps(ReadAttributes(w).0);
  }

  lemma AttributesKeep(w: World)
    requires Ok(w) && w.active
    ensures var a := ReadAttributes(w).0.adm; a.mtu == w.adm.mtu && a.groups == w.adm.groups
  {
    hide RingsOk, Exec;
    KeepsSettings(w, GetAttributes);
  }

  lemma MtuKeeps(w: World)
    requires Ok(w) && w.active
    ensures ApplyMtu(w).0.adm.groups == w.adm.groups
  {
    hide RingsOk, Exec;
    KeepsSettings(w, SetMtu);
  }

  /** A command leaves the settings of the adapter alone. */
  lemma KeepsSettings(w: World, op: Op)
    requires Ok(w) && w.active
    ensures var a := Exec(w, op).0.adm;
            (a.mtu, a.groups, a.features, a.rss) == (w.adm.mtu, w.adm.groups, w.adm.features, w.adm.rss)
  {
    hide RingsOk;
  }

  ghost function Settings(a: Adm): (nat, nat, nat, RssMem) {
    (a.mtu, a.groups, a.features, a.rss)
  }

  lemma CreateKeeps(w: World)
    requires Ok(w) && w.active
    ensures Settings(Create(w).0.adm) == Settings(w.adm)
  {
    hide RingsOk, Exec;
    var cq := Exec(w, CreateCq).0;
    var sq := Exec(cq, CreateSq).0;
    KeepsSettings(w, CreateCq);
    KeepsSettings(cq, DestroyCq);
    KeepsSettings(cq, CreateSq);
    KeepsSettings(sq, DestroyCq);
    KeepsSettings(sq, DestroySq);
    KeepsSettings(Exec(sq, DestroySq).0, DestroyCq);
  }

  lemma {:induction false} TxLoopKeeps(w: World, q: nat)
    requires Ok(w) && w.active && q <= |w.tx|
    ensures Settings(TxLoop(w, q).0.adm) == Settings(w.adm)
  {
    hide RingsOk, Create;
    if q > 0 {
      TxLoopKeeps(w, q - 1);
      CreateKeeps(TxLoop(w, q - 1).0);
    }
  }

  lemma {:induction false} RxLoopKeeps(w: World, q: nat)
    requires Ok(w) && w.active && q <= |w.rx|
    ensures Settings(RxLoop(w, q).0.adm) == Settings(w.adm)
  {
    hide RingsOk, Create, ReviveRx;
    if q > 0 {
      RxLoopKeeps(w, q - 1);
      CreateKeeps(RxLoop(w, q - 1).0);
    }
  }

  // ---- theorems ----

  /** Inside a recovery the results are one per attached TX ring that is not
      live, one per such RX ring and, if any of these is 0, one per feature
      step that applies. The entry of a ring is 0 exactly when the ring was
      brought to life. */
  lemma OneResultEach(w: World)
    requires Ok(w) && w.active
    ensures var (v, seen) := RecoverRings(w);
            var d := DeadTx(w.tx);
            var e := d + DeadRx(w.rx);
            && e <= |seen|
            && TxShown(w.tx, v.tx, seen[..d], |w.tx|) && RxShown(w, v.rx, seen[d..e], |w.rx|)
            && |seen| == e + if 0 in seen[..e] then FeatureSteps(w.adm, w.rx) else 0
  {
    hide RingsOk, TxLoop, RxLoop, Features, TxShown, RxShown;
    var (a, txs) := TxLoop(w, |w.tx|);
    var (b, rxs) := RxLoop(a, |a.rx|);
    TxLoopShows(w, |w.tx|);
    RxLoopShows(a, |a.rx|);
    ShownSizes(w, a, b, txs, rxs);
    TxLoopKeeps(w, |w.tx|);
    RxLoopKeeps(a, |a.rx|);
    FeatureCount(b);
    SameSteps(w, b);
    hide Settings, FeatureSteps, DeadTx, DeadRx;
    Slices(txs, rxs, if 0 !in txs && 0 !in rxs then [] else Features(b).1);
  }

  lemma SameSteps(w: World, b: World)
    requires Settings(b.adm) == Settings(w.adm) && |b.rx| == |w.rx|
    ensures FeatureSteps(b.adm, b.rx) == FeatureSteps(w.adm, w.rx)
  {
  }

  lemma Slices(txs: seq<int>, rxs: seq<int>, more: seq<int>)
    ensures var seen, d := txs + rxs + more, |txs|;
            var e := d + |rxs|;
            && seen[..d] == txs && seen[d..e] == rxs && (0 in seen[..e] <==> 0 in txs || 0 in rxs)
            && (more == [] ==> txs + rxs == seen)
  {
    var seen, d := txs + rxs + more, |txs|;
    assert seen[..d + |rxs|] == txs + rxs;
  }

  lemma ShownSizes(w: World, a: World, b: World, txs: seq<int>, rxs: seq<int>)
    requires Ok(w) && Ok(a) && a == w.(adm := a.adm, tx := a.tx) && |a.tx| == |w.tx|
    requires TxShown(w.tx, a.tx, txs, |w.tx|) && RxShown(a, b.rx, rxs, |a.rx|)
    ensures |txs| == DeadTx(w.tx) && |rxs| == DeadRx(w.rx) && RxShown(w, b.rx, rxs, |w.rx|)
  {
    hide RingsOk, RxOk;
    assert w.tx[..|w.tx|] == w.tx && a.rx[..|a.rx|] == a.rx == w.rx;
    forall k | 0 <= k < |w.rx| ensures RxEntry(w, b.rx, rxs, k) { assert RxEntry(a, b.rx, rxs, k); }
  }

  /** Inside a recovery the result is 0 only if every attached ring is live. */
  lemma ZeroMeansLive(w: World)
    requires Ok(w) && w.active && FirstError(RecoverRings(w).1) == 0
    ensures var v := RecoverRings(w).0;
            (forall q :: 0 <= q < |v.tx| ==> TxLive(v.tx[q])) && (forall q :: 0 <= q < |v.rx| ==> RxLive(v.rx[q]))
  {
    hide RingsOk, RecoverRings, TxShown, RxShown, TxLive, RxLive, FirstError;
    var (v, seen) := RecoverRings(w);
    OneResultEach(w);
    FirstErrorZero(seen);
    var d := DeadTx(w.tx);
    ShownLive(w, v.tx, v.rx, seen[..d], seen[d..d + DeadRx(w.rx)]);
  }

  /** What one admin command does to the adapter, for every answer: at most
      one reset, and one exactly when it timed out outside a recovery. */
  lemma ExecResets(w: World, op: Op)
    requires Ok(w)
    ensures var (v, ret, _) := Exec(w, op);
            && v.active == w.active
            && v.resets == w.resets + (if !w.active && ret == -ETIMEDOUT then 1 else 0)
            && (ret == -ETIMEDOUT ==> w.adm.up && w.adm.state != Error)
  {
    hide RingsOk, Recover;
    if w.adm.up && w.adm.state != Error && !w.active { RecoverOnce(w.(adm := Ask(w.adm, op).0)); }
  }

  lemma RecoverOnce(w: World)
    requires Ok(w) && !w.active
    ensures Recover(w).0.resets == w.resets + 1
  {
    hide RingsOk, RecoverRings, ApplyAenq;
  }

  /** The adapter when the ring recovery starts: reset, with fresh admin queues
      and the handler of before. */
  ghost predicate Restarted(w: World, v: World)
    requires Ok(w)
  {
    && Later(w.(active := true), v) && v.resets == w.resets + 1
    && v.adm == w.adm.(state := AdminReady, up := true)
    && v.handler == w.handler && (w.handler != 0 ==> v.handlerArg == w.handlerArg)
    && (forall q :: 0 <= q < |w.tx| ==> TxOk(w.tx[q]) && v.tx[q] == ResetTx(w.tx[q]))
    && (forall q :: 0 <= q < |w.rx| ==> RxOk(w.rx[q]) && v.rx[q] == ResetRx(w.rx[q]))
  }

  /** A recovery fails at the reset, with the rings reset, or goes on to ring
      recovery from a restarted adapter. */
  lemma RecoverSplits(w: World) returns (v: World, r: int)
    requires Ok(w) && !w.active
    ensures Later(w.(active := true), v) && v.resets == w.resets + 1
    ensures (forall q :: 0 <= q < |w.tx| ==> TxOk(w.tx[q]) && v.tx[q] == ResetTx(w.tx[q]))
    ensures (forall q :: 0 <= q < |w.rx| ==> RxOk(w.rx[q]) && v.rx[q] == ResetRx(w.rx[q]))
    ensures r == 0 <==> w.plan != [] && w.plan[0] == Finished(true)
    ensures r != 0 ==> Recover(w) == (v.(active := false), [r])
    ensures r == 0 ==>
              var u := if !HasRings(v) && v.adm.groups != 0 then ApplyAenq(v) else v;
              && Restarted(w, v)
              && Recover(w) == (RecoverRings(u).0.(active := false), [0] + RecoverRings(u).1)
  {
    hide RingsOk, RecoverRings, ApplyAenq, TxOk, RxOk, ResetTx, ResetRx, TxBlank, RxBlank;
    var start := Invalidate(w.(active := true, adm := w.adm.(state := Error)));
    v, r := ResetDevice(start).0, ResetDevice(start).1;
  }

  /** With rings, or without event groups, the ring recovery follows at once;
      otherwise the event groups are configured first. Either way only the
      admin side moves. */
  lemma BeforeRings(v: World)
    requires Ok(v) && v.active
    ensures var u := if !HasRings(v) && v.adm.groups != 0 then ApplyAenq(v) else v;
            u == v.(adm := u.adm) && Later(v, u) && Moves(v.adm, u.adm, 0)
  {
    hide RingsOk, ApplyAenq, Moves;
    AenqMoves(v);
    MovesNowhere(v.adm, v.adm, 0);
  }

  /** What a recovery leaves behind, for every script. Every ring was reset and
      at most brought to life again. A result of 0 means that every attached
      ring is live and the event handler and its argument are those from
      before. */
  lemma RecoverResult(w: World)
    requires Ok(w) && !w.active
    ensures var (v, seen) := Recover(w);
            && v.resets == w.resets + 1
            && (forall q :: 0 <= q < |w.tx| ==>
                  TxOk(w.tx[q]) && (v.tx[q] == ResetTx(w.tx[q]) || v.tx[q] == LiveTx(ResetTx(w.tx[q]))))
            && (forall q :: 0 <= q < |w.rx| ==> RxFate(w, q, v.rx[q]))
            && (FirstError(seen) == 0 ==>
                && (forall q :: 0 <= q < |v.tx| ==> TxLive(v.tx[q])) && (forall q :: 0 <= q < |v.rx| ==> RxLive(v.rx[q]))
                && v.handler == w.handler && (w.handler != 0 ==> v.handlerArg == w.handlerArg))
  {
    hide RingsOk, Recover, RecoverRings, ApplyAenq, TxOk, RxOk, ResetTx, ResetRx, TxLive, RxLive, LiveTx, FirstError;
    hide TxShown, RxShown, RxFate, Later;
    var v, r := RecoverSplits(w);
    LaterOk(w.(active := true), v);
    FirstErrorOne(r);
    if r == 0 {
      BeforeRings(v);
      var u := if !HasRings(v) && v.adm.groups != 0 then ApplyAenq(v) else v;
      LaterOk(v, u);
      OneResultEach(u);
      RingFates(w, u);
      FirstErrorJoin([0], RecoverRings(u).1);
      if FirstError(RecoverRings(u).1) == 0 { ZeroMeansLive(u); }
    } else {
      NoFates(w, v);
    }
  }

  /** What becomes of a receive ring. */
  ghost predicate RxFate(w: World, q: nat, x: RxSlot)
    requires q < |w.rx|
  {
    && RxOk(w.rx[q]) && RxOk(ResetRx(w.rx[q]))
    && (x == ResetRx(w.rx[q]) || x == Revived(ResetRx(w.rx[q]), q == 0 && w.refills, w.offers))
  }

  lemma LaterOk(v: World, u: World)
    requires Later(v, u)
    ensures Ok(u) && u.active == v.active && |u.tx| == |v.tx| && |u.rx| == |v.rx|
    ensures u.refills == v.refills && u.offers == v.offers
  {
  }

  lemma NoFates(w: World, v: World)
    requires |v.rx| == |w.rx| && forall q :: 0 <= q < |w.rx| ==> RxOk(w.rx[q]) && v.rx[q] == ResetRx(w.rx[q])
    ensures forall q :: 0 <= q < |w.rx| ==> RxFate(w, q, v.rx[q])
  {
    hide RxOk, ResetRx, Revived;
    forall q | 0 <= q < |w.rx| ensures RxFate(w, q, v.rx[q]) { ResetRxOk(w.rx[q]); }
  }

  /** The rings after ring recovery from reset rings. */
  lemma RingFates(w: World, u: World)
    requires Ok(u) && u.active && |u.tx| == |w.tx| && |u.rx| == |w.rx| && u.refills == w.refills && u.offers == w.offers
    requires forall q :: 0 <= q < |w.tx| ==> TxOk(w.tx[q]) && u.tx[q] == ResetTx(w.tx[q])
    requires forall q :: 0 <= q < |w.rx| ==> RxOk(w.rx[q]) && u.rx[q] == ResetRx(w.rx[q])
    ensures var v := RecoverRings(u).0;
            && |v.tx| == |w.tx| && |v.rx| == |w.rx|
            && (forall q :: 0 <= q < |w.tx| ==> v.tx[q] == ResetTx(w.tx[q]) || v.tx[q] == LiveTx(ResetTx(w.tx[q])))
            && (forall q :: 0 <= q < |w.rx| ==> RxFate(w, q, v.rx[q]))
  {
    hide RingsOk, RecoverRings, TxOk, RxOk, ResetTx, ResetRx, Revived, LiveTx;
    OneResultEach(u);
    var (v, seen) := RecoverRings(u);
    var d := DeadTx(u.tx);
    forall q | 0 <= q < |w.tx| ensures v.tx[q] == ResetTx(w.tx[q]) || v.tx[q] == LiveTx(ResetTx(w.tx[q])) {
      assert TxEntry(u.tx, v.tx, seen[..d], q);
    }
    forall q | 0 <= q < |w.rx| ensures RxFate(w, q, v.rx[q]) {
      assert RxEntry(u, v.rx, seen[d..d + DeadRx(u.rx)], q);
      ResetRxOk(w.rx[q]);
    }
  }

  /** How the next reset ends. */
  ghost function NextEnd(w: World): ResetAnswer {
    if w.plan == [] then Stuck else w.plan[0]
  }

  /** A failed reset leaves the adapter in the error state, so that commands are
      refused with -ENODEV, exactly when it did not get as far as tearing the
      admin queues down: when they cannot be set up again the adapter is stopped
      and has no queues, and commands are refused with -EINVAL. */
  lemma FailedReset(w: World, op: Op)
    requires Ok(w) && !w.active && NextEnd(w) != Finished(true)
    ensures var (v, seen) := Recover(w);
            && FirstError(seen) == (if NextEnd(w).Stuck? then -ETIMEDOUT else if NextEnd(w).Fatal? then -EIO else -ENOMEM)
            && v.adm.state == (if NextEnd(w) == Finished(false) && w.adm.up then Stopped else Error)
            && v.adm.up == (w.adm.up && NextEnd(w) != Finished(false))
            && Exec(v, op) == (v, if w.adm.up && NextEnd(w) != Finished(false) then -ENODEV else -EINVAL, 0)
  {
    hide RingsOk, RecoverRings, ApplyAenq, FirstError;
    FirstErrorOne(ResetDevice(Invalidate(w.(active := true, adm := w.adm.(state := Error)))).1);
  }

  /** The concrete case: a ready adapter without rings whose reset finishes when
      there is no memory for new admin queues. */
  lemma FailedResetStops(op: Op)
    ensures var w := World(false, Adm(AdminReady, true, [], [], 0, 0, 0, NoTables, []), [], [], 0, 0,
                           [Finished(false)], 0, false, []);
            var v := Recover(w).0;
            v.adm.state == Stopped && Exec(v, op).1 == -EINVAL
  {
    hide FirstError;
    FailedReset(World(false, Adm(AdminReady, true, [], [], 0, 0, 0, NoTables, []), [], [], 0, 0,
                      [Finished(false)], 0, false, []), op);
  }

  /** When recovery returns 0, the adapter is ready exactly when the device
      answered every command it was sent, and it can have left unanswered only
      a command whose errors are ignored. The answers are those of the script,
      in order. */
  lemma ReadyExactlyWhen(w: World)
    requires Ok(w) && !w.active && FirstError(Recover(w).1) == 0
    ensures var v := Recover(w).0;
            && w.adm.sent <= v.adm.sent
            && var more := v.adm.sent[|w.adm.sent|..];
               && FromScript(more, w.adm.script) && OnlyIgnoredSilent(more)
               && v.adm.state == if AllAnswered(more) then AdminReady else Error
  {
    hide RingsOk, Recover, RecoverRings, ApplyAenq, TxOk, RxOk, ResetTx, ResetRx, FirstError, Later;
    hide AllAnswered, OnlyIgnoredSilent, FromScript;
    var v, r := RecoverSplits(w);
    LaterOk(w.(active := true), v);
    FirstErrorOne(r);
    if r == 0 {
      BeforeRings(v);
      var u := if !HasRings(v) && v.adm.groups != 0 then ApplyAenq(v) else v;
      LaterOk(v, u);
      RingsMove(u);
      FirstErrorJoin([0], RecoverRings(u).1);
      FirstErrorOne(0);
      MovesOn(v.adm, u.adm, RecoverRings(u).0.adm, 0, FirstError(RecoverRings(u).1));
    }
  }

  // ---- an ignored command times out ----

  /** One attached TX ring and configured event groups; the device answers the
      two queue creations and the attributes, and then falls silent. */
  ghost function SilentAtAenq(ring: TxSlot): World {
    World(false,
          Adm(AdminReady, true, [Reply(0, 0), Reply(0, 0), Reply(0, Pow2(26)), Silent], [], 0, 0, 1, NoTables, []),
          [ring], [], 0, 0, [Finished(true)], 0, false, [])
  }

  /** Recovery then returns 0 and leaves the adapter in the error state: every
      later command is refused. */
  lemma ZeroAndError(ring: TxSlot, op: Op)
    requires ring.TxAttached? && TxOk(ring)
    ensures var w := SilentAtAenq(ring);
            && Ok(w)
            && var (v, seen) := Recover(w);
               FirstError(seen) == 0 && v.adm.state == Error && TxLive(v.tx[0]) && Exec(v, op).1 == -ENODEV
  {
    hide TxOk, Recover, RecoverRings, ApplyAenq, ResetTx, FirstError, TxLive, Later;
    var w := SilentAtAenq(ring);
    ResetDead(ring);
    var v, r := RecoverSplits(w);
    LaterOk(w.(active := true), v);
    FirstErrorJoin([0], RecoverRings(v).1);
    FirstErrorOne(0);
    SilentRings(v);
  }

  lemma ResetDead(ring: TxSlot)
    requires ring.TxAttached? && TxOk(ring)
    ensures ResetTx(ring).TxAttached? && !TxLive(ResetTx(ring))
  {
    ResetTxOk(ring);
  }

  lemma SilentRings(v: World)
    requires Ok(v) && v.active && |v.tx| == 1 && v.rx == [] && v.tx[0].TxAttached? && !TxLive(v.tx[0])
    requires v.adm == SilentAtAenq(v.tx[0]).adm
    ensures var (u, seen) := RecoverRings(v);
            && |u.tx| == 1 && FirstError(seen) == 0
            && u.adm.state == Error && u.adm.up && TxLive(u.tx[0])
  {
    hide RingsOk, Create, Features, LiveTx, FirstError;
    var (a, r) := Create(v);
    BothCreated(v);
    assert TxLoop(v, 0) == (v, []);
    var b := ReviveTx(a, 0);
    assert TxLoop(v, 1) == (b, [] + [0]);
    assert [] + [0] == [0] && RxLoop(b, 0) == (b, []) && [0] + [] == [0];
    SilentFeatures(b);
    LiveIsLive(a.tx[0]);
    FirstErrorOne(0);
    FirstErrorJoin([0], Features(b).1);
  }

  /** Two answers of 0 create a queue pair. */
  lemma BothCreated(w: World)
    requires Ok(w) && w.active && w.adm.up && w.adm.state != Error
    requires |w.adm.script| >= 2 && w.adm.script[0] == w.adm.script[1] == Reply(0, 0)
    ensures var (v, r) := Create(w);
            r == 0 && v.adm == w.adm.(script := w.adm.script[2..], sent := v.adm.sent)
  {
    hide RingsOk, Exec;
    var cq := Exec(w, CreateCq).0;
    ExecAnswered(w, CreateCq);
    ExecAnswered(cq, CreateSq);
    assert w.adm.script[1..][1..] == w.adm.script[2..];
  }

  lemma ExecAnswered(w: World, op: Op)
    requires Ok(w) && w.active && w.adm.up && w.adm.state != Error
    requires w.adm.script != [] && w.adm.script[0].Reply? && w.adm.script[0].status == 0
    ensures var (v, r, word) := Exec(w, op);
            && r == 0 && word == w.adm.script[0].word
            && v == w.(adm := w.adm.(script := w.adm.script[1..], sent := w.adm.sent + [Exchange(op, w.adm.script[0])]))
  {
    hide RingsOk;
  }

  lemma ExecSilent(w: World, op: Op)
    requires Ok(w) && w.active && w.adm.up && w.adm.state != Error && w.adm.script != [] && w.adm.script[0] == Silent
    ensures var (v, r, _) := Exec(w, op);
            r == -ETIMEDOUT && v.adm.state == Error && v.adm.up
  {
    hide RingsOk;
  }

  lemma SilentFeatures(b: World)
    requires Ok(b) && b.active && b.adm.up && b.adm.state != Error && |b.rx| <= 1 && b.adm.mtu == 0 && b.adm.groups == 1
    requires b.adm.script == [Reply(0, Pow2(26)), Silent]
    ensures var (u, seen) := Features(b);
            FirstError(seen) == 0 && u.adm.state == Error && u.adm.up
  {
    hide RingsOk, Exec, FirstError;
    ExecAnswered(b, GetAttributes);
    var a := ReadAttributes(b).0;
    assert b.adm.script[1..] == [Silent];
    DivModUnique(Pow2(26), Pow2(26), 1, 0);
    assert Bit(a.adm.features, 26);
    ExecSilent(a, GetAenq);
    assert ApplyAenq(a) == Exec(a, GetAenq).0;
    assert [0] + [] + [0] + [] == [0, 0];
    FirstErrorZero([0, 0]);
  }

  // ---- a failed creation ----

  /** Commands of a kind that were sent, and those answered with success. */
  ghost function Tried(xs: seq<Exchange>, op: Op): nat {
    if xs == [] then 0 else Tried(xs[..|xs| - 1], op) + if xs[|xs| - 1].op == op then 1 else 0
  }

  ghost function Done(xs: seq<Exchange>, op: Op): nat {
    if xs == [] then 0
    else Done(xs[..|xs| - 1], op) +
         if xs[|xs| - 1].op == op && xs[|xs| - 1].answer.Reply? && xs[|xs| - 1].answer.status == 0 then 1 else 0
  }

  /** Queues created and not given back. */
  ghost predicate Undone(xs: seq<Exchange>) {
    Done(xs, CreateCq) == Tried(xs, DestroyCq) && Done(xs, CreateSq) == Tried(xs, DestroySq)
  }

  lemma Tally(xs: seq<Exchange>, x: Exchange, op: Op)
    ensures Tried(xs + [x], op) == Tried(xs, op) + if x.op == op then 1 else 0
    ensures Done(xs + [x], op) == Done(xs, op) + if x.op == op && x.answer.Reply? && x.answer.status == 0 then 1 else 0
  {
    assert (xs + [x])[..|xs|] == xs;
  }

  lemma TallyAll(xs: seq<Exchange>, x: Exchange)
    ensures Tried(xs + [x], DestroyCq) == Tried(xs, DestroyCq) + if x.op == DestroyCq then 1 else 0
    ensures Tried(xs + [x], DestroySq) == Tried(xs, DestroySq) + if x.op == DestroySq then 1 else 0
    ensures Done(xs + [x], CreateCq) == Done(xs, CreateCq) + if x.op == CreateCq && Good(x.answer) then 1 else 0
    ensures Done(xs + [x], CreateSq) == Done(xs, CreateSq) + if x.op == CreateSq && Good(x.answer) then 1 else 0
  {
    Tally(xs, x, DestroyCq);
    Tally(xs, x, DestroySq);
    Tally(xs, x, CreateCq);
    Tally(xs, x, CreateSq);
  }

  ghost predicate Good(a: Answer) {
    a.Reply? && a.status == 0
  }

  lemma AnsweredOne(x: Exchange)
    ensures AllAnswered([x]) <==> !x.answer.Silent?
  {
    assert [x][0] == x;
  }

  /** One command extends the exchanges since w by one, while the device
      answers. */
  lemma ExecExtends(w: World, v: World, op: Op, xs: seq<Exchange>)
    requires Ok(v) && v.active && v.adm.up && v.adm.sent == w.adm.sent + xs && (v.adm.state == Error <==> !AllAnswered(xs))
    ensures var (u, r, _) := Exec(v, op);
            && u.adm.up && w.adm.sent <= u.adm.sent
            && var ys := u.adm.sent[|w.adm.sent|..];
               && (u.adm.state == Error <==> !AllAnswered(ys))
               && (if AllAnswered(xs) then
                     ys == xs + [Exchange(op, At(v.adm.script, 0))] && (r == 0 <==> Good(At(v.adm.script, 0)))
                   else ys == xs && r != 0)
  {
    hide RingsOk;
    var x := Exchange(op, At(v.adm.script, 0));
    var u := Exec(v, op).0;
    if v.adm.state != Error {
      assert u.adm.sent == w.adm.sent + (xs + [x]);
      JoinAnswers(xs, [x]);
      AnsweredOne(x);
    }
    assert u.adm.sent == w.adm.sent + u.adm.sent[|w.adm.sent|..];
  }

  /** The exchanges from w to v, when v came after w. */
  ghost function Since(w: World, v: World): seq<Exchange>
    requires |w.adm.sent| <= |v.adm.sent|
  {
    v.adm.sent[|w.adm.sent|..]
  }

  /** One more command, with its tally. */
  lemma Follow(w: World, v: World, op: Op)
    requires Ok(v) && v.active && v.adm.up && w.adm.sent <= v.adm.sent
    requires v.adm.state == Error <==> !AllAnswered(Since(w, v))
    ensures var (u, r, _) := Exec(v, op);
            && u.active && u.adm.up && w.adm.sent <= u.adm.sent && (u.adm.state == Error <==> !AllAnswered(Since(w, u)))
            && (r == 0 ==> AllAnswered(Since(w, u)))
            && (if AllAnswered(Since(w, v)) then
                  var x := Exchange(op, At(v.adm.script, 0));
                  Since(w, u) == Since(w, v) + [x] && (r == 0 <==> Good(x.answer))
                else !AllAnswered(Since(w, u)) && r != 0)
    ensures var x := Exchange(op, At(v.adm.script, 0));
            Steps(Since(w, v), Since(w, v) + [x], x)
  {
    hide RingsOk, Exec, AllAnswered;
    assert v.adm.sent == w.adm.sent + Since(w, v);
    ExecExtends(w, v, op, Since(w, v));
    var x := Exchange(op, At(v.adm.script, 0));
    TallyAll(Since(w, v), x);
    JoinAnswers(Since(w, v), [x]);
    AnsweredOne(x);
  }

  ghost predicate Steps(xs: seq<Exchange>, ys: seq<Exchange>, x: Exchange) {
    && Tried(ys, DestroyCq) == Tried(xs, DestroyCq) + (if x.op == DestroyCq then 1 else 0)
    && Tried(ys, DestroySq) == Tried(xs, DestroySq) + (if x.op == DestroySq then 1 else 0)
    && Done(ys, CreateCq) == Done(xs, CreateCq) + (if x.op == CreateCq && Good(x.answer) then 1 else 0)
    && Done(ys, CreateSq) == Done(xs, CreateSq) + (if x.op == CreateSq && Good(x.answer) then 1 else 0)
  }

  /** A creation that fails while the device answers asks for every queue it
      created to be destroyed; one that succeeds leaves one of each. */
  lemma CreateUndoes(w: World)
    requires Ok(w) && w.active && w.adm.up && w.adm.state != Error
    ensures var (v, r) := Create(w);
            && w.adm.sent <= v.adm.sent
            && (r != 0 && AllAnswered(Since(w, v)) ==> Undone(Since(w, v)))
            && (r == 0 ==>
                && Done(Since(w, v), CreateCq) == 1 == Done(Since(w, v), CreateSq)
                && Tried(Since(w, v), DestroyCq) == 0 == Tried(Since(w, v), DestroySq))
  {
    hide RingsOk, Exec, AddSq, Tried, Done, AllAnswered, Since;
    StartsEmpty(w);
    var (cq, r, bad) := Exec(w, CreateCq);
    Follow(w, w, CreateCq);
    if r == 0 {
      if bad != 0 { Follow(w, cq, DestroyCq); } else { AddSqUndoes(w, cq); }
    }
  }

  lemma AddSqUndoes(w: World, cq: World)
    requires Ok(cq) && cq.active && cq.adm.up && cq.adm.state != Error
    requires w.adm.sent <= cq.adm.sent && AllAnswered(Since(w, cq))
    requires Done(Since(w, cq), CreateCq) == 1 && Done(Since(w, cq), CreateSq) == 0
    requires Tried(Since(w, cq), DestroyCq) == 0 == Tried(Since(w, cq), DestroySq)
    ensures var (v, r) := AddSq(cq);
            && w.adm.sent <= v.adm.sent
            && (r != 0 && AllAnswered(Since(w, v)) ==> Undone(Since(w, v)))
            && (r == 0 ==>
                && Done(Since(w, v), CreateCq) == 1 == Done(Since(w, v), CreateSq)
                && Tried(Since(w, v), DestroyCq) == 0 == Tried(Since(w, v), DestroySq))
  {
    hide RingsOk, Exec, Tried, Done, AllAnswered, Since;
    var (sq, r, bad) := Exec(cq, CreateSq);
    Follow(w, cq, CreateSq);
    if r != 0 {
      Follow(w, sq, DestroyCq);
    } else if bad != 0 {
      Follow(w, sq, DestroySq);
      Follow(w, Exec(sq, DestroySq).0, DestroyCq);
    }
  }

  lemma StartsEmpty(w: World)
    ensures Since(w, w) == [] && AllAnswered([])
    ensures Tried([], DestroyCq) == Tried([], DestroySq) == Done([], CreateCq) == Done([], CreateSq) == 0
  {
  }
}
