/** How many commands a recovery sends, and which of them its result blames. */
module RecoveryBlame {
  import opened RingTypes
  import opened IoRings
  import opened RecoveryPlan
  import opened RecoveryMoves
  import opened RecoveryTheorems

  // ---- how many commands ----

  ghost function Size(w: World): nat {
    |w.adm.sent|
  }

  lemma ExecSize(w: World, op: Op)
    requires Ok(w) && w.active
    ensures Size(Exec(w, op).0) <= Size(w) + 1
  {
    hide RingsOk;
  }

  lemma CreateSize(w: World)
    requires Ok(w) && w.active
    ensures Size(Create(w).0) <= Size(w) + 4
  {
    hide RingsOk, Exec, Size;
    var cq := Exec(w, CreateCq).0;
    var sq := Exec(cq, CreateSq).0;
    ExecSize(w, CreateCq);
    ExecSize(cq, DestroyCq);
    ExecSize(cq, CreateSq);
    ExecSize(sq, DestroyCq);
    ExecSize(sq, DestroySq);
    ExecSize(Exec(sq, DestroySq).0, DestroyCq);
  }

  lemma {:induction false} TxLoopSize(w: World, q: nat)
    requires Ok(w) && w.active && q <= |w.tx|
    ensures var (v, seen) := TxLoop(w, q); Size(v) <= Size(w) + 4 * |seen|
  {
    hide RingsOk, Create, LiveTx;
    if q > 0 {
      TxLoopSize(w, q - 1);
      CreateSize(TxLoop(w, q - 1).0);
    }
  }

  lemma {:induction false} RxLoopSize(w: World, q: nat)
    requires Ok(w) && w.active && q <= |w.rx|
    ensures var (v, seen) := RxLoop(w, q); Size(v) <= Size(w) + 4 * |seen|
  {
    hide RingsOk, Create, ReviveRx;
    if q > 0 {
      RxLoopSize(w, q - 1);
      CreateSize(RxLoop(w, q - 1).0);
    }
  }

  lemma AenqSize(w: World)
    requires Ok(w) && w.active
    ensures Size(ApplyAenq(w)) <= Size(w) + 2
  {
    hide RingsOk, Exec, Bit;
    ExecSize(w, GetAenq);
    ExecSize(Exec(w, GetAenq).0, SetAenq);
  }

  lemma OptionalSize(w: World, supported: bool, buffer: bool, op: Op)
    requires Ok(w) && w.active
    ensures Size(Optional(w, supported, buffer, op).0) <= Size(w) + 1
  {
    hide RingsOk, Exec;
    ExecSize(w, op);
  }

  lemma InitRssSize(w: World)
    requires Ok(w) && w.active
    ensures Size(InitRss(w).0) <= Size(w) + 1
  {
    hide RingsOk, Exec, Bit;
    ExecSize(w, GetRssLimits);
  }

  lemma HashSize(w: World)
    requires Ok(w) && w.active
    ensures Size(SendHash(w).0) <= Size(w) + 2
  {
    hide RingsOk, Optional, Bit, Size;
    var key, haveKey := Bit(w.adm.features, 10), w.adm.rss.Tables? && w.adm.rss.key;
    OptionalSize(w, key, haveKey, SetRssKey);
    var v := Optional(w, key, haveKey, SetRssKey).0;
    OptionalSize(v, Bit(v.adm.features, 18), v.adm.rss.Tables? && v.adm.rss.input, SetRssInput);
  }

  lemma TableSize(w: World)
    requires Ok(w) && w.active
    ensures Size(SendTable(w).0) <= Size(w) + 2
  {
    hide RingsOk, Exec, Optional, Size;
    OptionalSize(w, true, w.adm.rss.Tables?, SetRssTable);
    ExecSize(Optional(w, true, w.adm.rss.Tables?, SetRssTable).0, ReadRssTable);
  }

  lemma RssSize(w: World)
    requires Ok(w) && w.active
    ensures Size(ApplyRss(w).0) <= Size(w) + 5
  {
    hide RingsOk, InitRss, SendHash, SendTable, Size;
    InitRssSize(w);
    HashSize(InitRss(w).0);
    TableSize(SendHash(InitRss(w).0).0);
  }

  lemma FeaturesSize(w: World)
    requires Ok(w) && w.active
    ensures Size(Features(w).0) <= Size(w) + 9
  {
    hide RingsOk, Exec, ApplyAenq, ApplyRss, Size;
    var a := ReadAttributes(w).0;
    ExecSize(w, GetAttributes);
    SameSent(Exec(w, GetAttributes).0, a);
    var b := if a.adm.mtu == 0 then a else ApplyMtu(a).0;
    ExecSize(a, SetMtu);
    SameSent(Exec(a, SetMtu).0, b);
    AenqSize(b);
    RssSize(if b.adm.groups == 0 then b else ApplyAenq(b));
  }

  lemma SameSent(a: World, b: World)
    ensures a.adm.sent == b.adm.sent ==> Size(a) == Size(b)
  {
  }

  // ---- results that a command is to blame for ----

  /** The result is the error of the first failed command, or 0 if none failed,
      and then every command was answered. */
  ghost predicate Exact(a: Adm, b: Adm, ret: int) {
    && Flows(a, b)
    && (var xs := b.sent[|a.sent|..];
        var i := FirstFail(xs);
        && ret == (if i < |xs| then ErrorOf(xs[i]) else 0)
        && (ret == 0 ==> AllAnswered(xs)))
  }

  ghost predicate Works(a: Adm) {
    a.up && a.state != Error
  }

  lemma ErrorNonzero(x: Exchange)
    requires Fails(x)
    ensures ErrorOf(x) != 0
  {
  }

  /** Once a command failed, what follows does not change the verdict. */
  lemma ExactOn(a: Adm, b: Adm, c: Adm, r1: int, r2: int)
    requires Exact(a, b, r1) && Flows(b, c) && (r1 == 0 ==> Exact(b, c, r2))
    ensures Exact(a, c, if r1 != 0 then r1 else r2)
  {
    hide AllAnswered, FromScript, Rest, FirstFail, ErrorOf;
    var x, y := b.sent[|a.sent|..], c.sent[|b.sent|..];
    FlowsOn(a, b, c);
    JoinAnswers(x, y);
    FirstFailJoin(x, y);
    FailAt(x, y);
    if FirstFail(x) < |x| { ErrorNonzero(x[FirstFail(x)]); }
  }

  lemma ExactWorks(a: Adm, b: Adm)
    requires Works(a) && Exact(a, b, 0)
    ensures Works(b)
  {
  }

  lemma ExactStill(a: Adm, b: Adm)
    requires b == a.(mtu := b.mtu, features := b.features, groups := b.groups, rss := b.rss, tableMemory := b.tableMemory)
    ensures Exact(a, b, 0)
  {
    assert b.sent[|a.sent|..] == [];
  }

  lemma MovesFlow(a: Adm, b: Adm, r: int)
    requires Moves(a, b, r)
    ensures Flows(a, b)
  {
  }

  lemma ExecExact(w: World, op: Op)
    requires Ok(w) && w.active && Works(w.adm) && !Ignored(op) && !op.DestroyCq? && !op.DestroySq?
    ensures var (v, r, word) := Exec(w, op); Exact(w.adm, v.adm, Effective(op, r, word))
  {
    hide RingsOk, Exact, Ask;
    AskExact(w.adm, op);
  }

  lemma AskExact(a: Adm, op: Op)
    requires a.state != Error && !Ignored(op) && !op.DestroyCq? && !op.DestroySq?
    ensures var (b, r, word) := Ask(a, op); Exact(a, b, Effective(op, r, word))
  {
    var (b, r, word) := Ask(a, op);
    var x := Exchange(op, At(a.script, 0));
    assert b.sent[|a.sent|..] == [x];
    assert b.script == Rest(a.script, 1);
    OneFail(x);
    assert Fails(x) <==> Effective(op, r, word) != 0;
  }

  lemma OneFail(x: Exchange)
    ensures FirstFail([x]) == if Fails(x) then 0 else 1
  {
    assert [x][1..] == [];
  }

  lemma ExactUndo(a: Adm, b: Adm, c: Adm, r: int)
    requires Exact(a, b, r) && r != 0 && Flows(b, c)
    ensures Exact(a, c, r)
  {
    ExactOn(a, b, c, r, 0);
  }

  lemma CreateExact(w: World)
    requires Ok(w) && w.active && Works(w.adm)
    ensures Exact(w.adm, Create(w).0.adm, Create(w).1)
  {
    hide RingsOk, Exec, AddSq, Exact, Flows;
    var (cq, r, bad) := Exec(w, CreateCq);
    ExecExact(w, CreateCq);
    if r == 0 {
      if bad != 0 {
        ExecMoves(cq, DestroyCq);
        ExactUndo(w.adm, cq.adm, Exec(cq, DestroyCq).0.adm, -EINVAL);
      } else {
        ExactWorks(w.adm, cq.adm);
        AddSqExact(cq);
        ExactFlows(cq.adm, AddSq(cq).0.adm, AddSq(cq).1);
        ExactOn(w.adm, cq.adm, AddSq(cq).0.adm, 0, AddSq(cq).1);
      }
    }
  }

  lemma ExactFlows(a: Adm, b: Adm, r: int)
    requires Exact(a, b, r)
    ensures Flows(a, b)
  {
  }

  lemma AddSqExact(w: World)
    requires Ok(w) && w.active && Works(w.adm)
    ensures Exact(w.adm, AddSq(w).0.adm, AddSq(w).1)
  {
    hide RingsOk, Exec, Exact, Flows;
    var (sq, r, bad) := Exec(w, CreateSq);
    ExecExact(w, CreateSq);
    if r != 0 {
      ExecMoves(sq, DestroyCq);
      ExactUndo(w.adm, sq.adm, Exec(sq, DestroyCq).0.adm, r);
    } else if bad != 0 {
      var undone := Exec(sq, DestroySq).0;
      ExecMoves(sq, DestroySq);
      ExecMoves(undone, DestroyCq);
      ExactUndo(w.adm, sq.adm, undone.adm, -EINVAL);
      ExactUndo(w.adm, undone.adm, Exec(undone, DestroyCq).0.adm, -EINVAL);
    }
  }

  /** One more creation. */
  lemma CreateNext(a: Adm, v: World, seen: seq<int>)
    requires Ok(v) && v.active && Works(a) && Exact(a, v.adm, FirstError(seen))
    ensures var (u, r) := Create(v); Exact(a, u.adm, FirstError(seen + [r]))
  {
    hide RingsOk, Create, Exact, Flows, Moves, FirstError, Works;
    var (u, r) := Create(v);
    CreateMoves(v);
    MovesFlow(v.adm, u.adm, r);
    if FirstError(seen) == 0 {
      ExactWorks(a, v.adm);
      CreateExact(v);
    }
    ExactOn(a, v.adm, u.adm, FirstError(seen), r);
    FirstErrorPush(seen, r);
  }

  lemma {:induction false} TxLoopExact(w: World, q: nat)
    requires Ok(w) && w.active && Works(w.adm) && q <= |w.tx|
    ensures var (v, seen) := TxLoop(w, q); Exact(w.adm, v.adm, FirstError(seen))
  {
    hide RingsOk, Create, Exact, FirstError, LiveTx, Works;
    if q == 0 {
      FirstErrorZero([]);
      ExactStill(w.adm, w.adm);
    } else {
      TxLoopExact(w, q - 1);
      CreateNext(w.adm, TxLoop(w, q - 1).0, TxLoop(w, q - 1).1);
    }
  }

  lemma {:induction false} RxLoopExact(a: Adm, w: World, txs: seq<int>, q: nat)
    requires Ok(w) && w.active && Works(a) && q <= |w.rx| && Exact(a, w.adm, FirstError(txs))
    ensures var (v, seen) := RxLoop(w, q); Exact(a, v.adm, FirstError(txs + seen))
  {
    hide RingsOk, Create, Exact, FirstError, ReviveRx, Works;
    if q == 0 {
      assert txs + [] == txs;
    } else {
      RxLoopExact(a, w, txs, q - 1);
      var (v, seen) := RxLoop(w, q - 1);
      CreateNext(a, v, txs + seen);
      assert (txs + seen) + [Create(v).1] == txs + (seen + [Create(v).1]);
    }
  }

  /** The value of the result of a ring recovery that leaves a ring dead. */
  lemma RingsExact(w: World)
    requires Ok(w) && w.active && Works(w.adm)
    ensures var (v, seen) := RecoverRings(w);
            var e := DeadTx(w.tx) + DeadRx(w.rx);
            && e <= |seen| && w.adm.sent <= v.adm.sent
            && (FirstError(seen[..e]) != 0 ==> Exact(w.adm, v.adm, FirstError(seen)))
            && Size(v) <= Size(w) + 4 * e + (if 0 in seen[..e] then 9 else 0)
  {
    hide RingsOk, TxLoop, RxLoop, Features, Exact, Flows, Moves, FirstError, Works, Size;
    var (a, txs) := TxLoop(w, |w.tx|);
    var (b, rxs) := RxLoop(a, |a.rx|);
    TxLoopExact(w, |w.tx|);
    RxLoopExact(w.adm, a, txs, |a.rx|);
    TxLoopSize(w, |w.tx|);
    RxLoopSize(a, |a.rx|);
    FeaturesSize(b);
    LoopCounts(w);
    RingsMove(w);
    MovesFlow(w.adm, RecoverRings(w).0.adm, FirstError(RecoverRings(w).1));
    FlowsSent(w.adm, RecoverRings(w).0.adm);
    FeaturesMove(b);
    MovesFlow(b.adm, Features(b).0.adm, FirstError(Features(b).1));
    var rings := txs + rxs;
    if FirstError(rings) != 0 {
      ExactUndo(w.adm, b.adm, Features(b).0.adm, FirstError(rings));
      FirstErrorJoin(rings, Features(b).1);
    }
    assert (rings + Features(b).1)[..|rings|] == rings && rings[..|rings|] == rings;
  }

  lemma FlowsSent(a: Adm, b: Adm)
    requires Flows(a, b)
    ensures a.sent <= b.sent
  {
  }

  lemma LoopCounts(w: World)
    requires Ok(w) && w.active
    ensures var (a, txs) := TxLoop(w, |w.tx|);
            var (b, rxs) := RxLoop(a, |a.rx|);
            |txs| == DeadTx(w.tx) && |rxs| == DeadRx(w.rx)
  {
    hide RingsOk, TxLoop, RxLoop;
    TxLoopShows(w, |w.tx|);
    var a := TxLoop(w, |w.tx|).0;
    RxLoopShows(a, |a.rx|);
    assert w.tx[..|w.tx|] == w.tx && a.rx[..|a.rx|] == a.rx == w.rx;
  }

  // ---- the whole recovery ----

  /** The rings the adapter owns. */
  ghost function TxCount(tx: seq<TxSlot>): nat {
    if tx == [] then 0 else TxCount(tx[..|tx| - 1]) + if tx[|tx| - 1].TxAttached? then 1 else 0
  }

  ghost function RxCount(rx: seq<RxSlot>): nat {
    if rx == [] then 0 else RxCount(rx[..|rx| - 1]) + if rx[|rx| - 1].RxAttached? then 1 else 0
  }

  /** After a reset every ring is dead. */
  lemma {:induction false} AllDeadTx(was: seq<TxSlot>, now: seq<TxSlot>)
    requires |was| == |now| && forall q :: 0 <= q < |was| ==> TxOk(was[q]) && now[q] == ResetTx(was[q])
    ensures DeadTx(now) == TxCount(was)
  {
    hide TxOk, ResetTx, TxLive;
    if was != [] {
      var n := |was| - 1;
      AllDeadTx(was[..n], now[..n]);
      ResetLiveTx(was[n]);
    }
  }

  lemma {:induction false} AllDeadRx(was: seq<RxSlot>, now: seq<RxSlot>)
    requires |was| == |now| && forall q :: 0 <= q < |was| ==> RxOk(was[q]) && now[q] == ResetRx(was[q])
    ensures DeadRx(now) == RxCount(was)
  {
    hide RxOk, ResetRx, RxLive;
    if was != [] {
      var n := |was| - 1;
      AllDeadRx(was[..n], now[..n]);
      ResetLiveRx(was[n]);
    }
  }

  lemma ResetLiveTx(x: TxSlot)
    requires TxOk(x)
    ensures TxLive(ResetTx(x)) <==> !x.TxAttached?
  {
  }

  lemma ResetLiveRx(x: RxSlot)
    requires RxOk(x)
    ensures RxLive(ResetRx(x)) <==> !x.RxAttached?
  {
  }

  /** The most commands a recovery can send. */
  ghost function Bound(w: World): nat {
    4 * (TxCount(w.tx) + RxCount(w.rx)) + 9
  }

  ghost predicate AllLive(w: World) {
    (forall q :: 0 <= q < |w.tx| ==> TxLive(w.tx[q])) && (forall q :: 0 <= q < |w.rx| ==> RxLive(w.rx[q]))
  }

  /** What the result of a recovery blames. It sends at most four commands per
      ring and nine for the features, and they take the script in order. A result
      other than 0 is the error of the first failed command or one reported
      without a command; if a ring stays dead it is that of the first failed
      command. */
  lemma ResultBlames(w: World)
    requires Ok(w) && !w.active && NextEnd(w) == Finished(true)
    ensures var (v, seen) := Recover(w);
            && w.adm.sent <= v.adm.sent
            && var xs := v.adm.sent[|w.adm.sent|..];
               var i := FirstFail(xs);
               && |xs| <= Bound(w) && FromScript(xs, w.adm.script)
               && Blamed(xs, FirstError(seen), false)
               && (!AllLive(v) ==> i < |xs| && FirstError(seen) == ErrorOf(xs[i]))
  {
    hide RingsOk, Recover, RecoverRings, ApplyAenq, TxOk, RxOk, ResetTx, ResetRx, FirstError, Later;
    hide FromScript, Blamed, AllLive, Exact, Moves, TxCount, RxCount, DeadTx, DeadRx, FirstFail, ErrorOf;
    var v, r := RecoverSplits(w);
    LaterOk(w.(active := true), v);
    AllDeadTx(w.tx, v.tx);
    AllDeadRx(w.rx, v.rx);
    BeforeRings(v);
    var u := if !HasRings(v) && v.adm.groups != 0 then ApplyAenq(v) else v;
    LaterOk(v, u);
    FirstErrorJoin([0], RecoverRings(u).1);
    FirstErrorOne(0);
    RingsMove(u);
    MovesOn(v.adm, u.adm, RecoverRings(u).0.adm, 0, FirstError(RecoverRings(u).1));
    MovesMean(v.adm, RecoverRings(u).0.adm, FirstError(RecoverRings(u).1));
    if HasRings(v) || v.adm.groups == 0 { WithRings(v); } else { NoRings(v); }
    SameLive(RecoverRings(u).0, Recover(w).0);
  }

  lemma SameLive(a: World, b: World)
    requires b.tx == a.tx && b.rx == a.rx
    ensures AllLive(a) <==> AllLive(b)
  {
  }

  lemma MovesMean(a: Adm, b: Adm, r: int)
    requires Moves(a, b, r) && a.state != Error
    ensures a.sent <= b.sent
    ensures var xs := b.sent[|a.sent|..]; FromScript(xs, a.script) && Blamed(xs, r, false)
  {
  }

  lemma ExactMeans(a: Adm, b: Adm, r: int)
    requires Exact(a, b, r) && r != 0
    ensures a.sent <= b.sent
    ensures var xs := b.sent[|a.sent|..]; FirstFail(xs) < |xs| && r == ErrorOf(xs[FirstFail(xs)])
  {
  }

  lemma WithRings(w: World)
    requires Ok(w) && w.active && Works(w.adm)
    ensures var (v, seen) := RecoverRings(w);
            && Size(v) <= Size(w) + 4 * (DeadTx(w.tx) + DeadRx(w.rx)) + 9 && w.adm.sent <= v.adm.sent
            && (!AllLive(v) ==>
                var xs := v.adm.sent[|w.adm.sent|..];
                FirstFail(xs) < |xs| && FirstError(seen) == ErrorOf(xs[FirstFail(xs)]))
  {
    hide RingsOk, RecoverRings, Exact, FirstError, DeadTx, DeadRx, TxShown, RxShown, TxLive, RxLive, FirstFail, ErrorOf;
    RingsExact(w);
    OneResultEach(w);
    var (v, seen) := RecoverRings(w);
    var d := DeadTx(w.tx);
    var e := d + DeadRx(w.rx);
    if FirstError(seen[..e]) == 0 {
      FirstErrorZero(seen[..e]);
      assert seen[..d] == seen[..e][..d] && seen[d..e] == seen[..e][d..];
      ShownLive(w, v.tx, v.rx, seen[..d], seen[d..e]);
    } else {
      PartError(seen, e);
      ExactMeans(w.adm, v.adm, FirstError(seen));
    }
  }

  lemma PartError(seen: seq<int>, e: nat)
    requires e <= |seen| && FirstError(seen[..e]) != 0
    ensures FirstError(seen) != 0
  {
    hide FirstError;
    FirstErrorJoin(seen[..e], seen[e..]);
    assert seen == seen[..e] + seen[e..];
  }

  /** Without rings only the event groups are configured. */
  lemma NoRings(w: World)
    requires Ok(w) && w.active && !HasRings(w)
    ensures var u := ApplyAenq(w);
            && Size(RecoverRings(u).0) <= Size(w) + 2 && AllLive(RecoverRings(u).0)
  {
    hide RingsOk, ApplyAenq, Features;
    AenqSize(w);
    var u := ApplyAenq(w);
    NothingTx(u, |u.tx|);
    NothingRx(TxLoop(u, |u.tx|).0, |u.rx|);
  }

  lemma {:induction false} NothingTx(w: World, q: nat)
    requires Ok(w) && w.active && !HasRings(w) && q <= |w.tx|
    ensures TxLoop(w, q) == (w, [])
  {
    hide RingsOk;
    if q > 0 { NothingTx(w, q - 1); }
  }

  lemma {:induction false} NothingRx(w: World, q: nat)
    requires Ok(w) && w.active && !HasRings(w) && q <= |w.rx|
    ensures RxLoop(w, q) == (w, [])
  {
    hide RingsOk;
    if q > 0 { NothingRx(w, q - 1); }
  }

  /** Read off the script alone: when the device answers as many commands as a
      recovery can send, a result of 0 leaves the adapter ready. */
  lemma ReadyFromScript(w: World)
    requires Ok(w) && !w.active && FirstError(Recover(w).1) == 0
    requires forall i :: 0 <= i < Bound(w) ==> !At(w.adm.script, i).Silent?
    ensures Recover(w).0.adm.state == AdminReady
  {
    hide RingsOk, Recover, FirstError, Bound;
    ReadyExactlyWhen(w);
    ZeroFinished(w);
    ResultBlames(w);
  }

  lemma ZeroFinished(w: World)
    requires Ok(w) && !w.active && FirstError(Recover(w).1) == 0
    ensures NextEnd(w) == Finished(true)
  {
    hide RingsOk, Recover, RecoverRings, ApplyAenq, FirstError, Later;
    var _, r := RecoverSplits(w);
    FirstErrorOne(r);
  }
}
