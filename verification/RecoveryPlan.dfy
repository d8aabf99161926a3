/** Admin commands and device recovery as functions of what the device answers:
    `ena_admin_exec_cmd`, `ena_adapter_reset_and_recover`,
    `ena_adapter_recover_io_rings`, `ena_ring_create_hw` and
    `ena_init_reapply_device_features`, which call each other. */
module RecoveryPlan {
  import opened Bits
  import opened RingTypes
  import opened IoRings
  import N = RxNetdev

  const ETIMEDOUT := 110
  const EIO := 5
  const ENOMEM := 12
  const EOPNOTSUPP := 95

  const MTU_MIN := 46
  const MTU_MAX := 0xFFFF

  datatype DevState = Stopped | AdminReady | Error

  // ---- what the device does ----

  /** One admin command is not answered in time, or answered with a status
      and a data word: for a queue creation a nonzero word stands for register
      offsets outside the device memory, for a feature query it is the value. */
  datatype Answer = Silent | Reply(status: nat, word: nat)

  /** How a reset ends: finished, with or without memory for new admin queues,
      with a fatal error, or never. */
  datatype ResetAnswer = Finished(memory: bool) | Fatal | Stuck

  datatype Op =
    | CreateCq | DestroyCq | CreateSq | DestroySq
    | GetAttributes | SetMtu | GetAenq | SetAenq
    | GetRssLimits | SetRssKey | SetRssInput | SetRssTable | ReadRssTable

  datatype Exchange = Exchange(op: Op, answer: Answer)

  /** Commands whose errors the driver ignores. */
  predicate Ignored(op: Op) {
    op.GetAenq? || op.SetAenq? || op.GetRssLimits? || op.ReadRssTable?
  }

  // ---- the adapter ----

  datatype RssMem = NoTables | Tables(key: bool, input: bool)

  /** The admin side: `script` is what the device will answer, command by
      command, and never again after its end; `sent` is what was exchanged;
      `tableMemory` tells which of the next allocations of RSS tables succeed. */
  datatype Adm = Adm(
    state: DevState, up: bool, script: seq<Answer>, sent: seq<Exchange>,
    mtu: nat, features: nat, groups: nat, rss: RssMem, tableMemory: seq<bool>)

  /** `offers` is what the buffer allocator gives to a refill of queue 0, if a
      refill is configured; `plan` is how the device ends its next resets. */
  datatype World = World(
    active: bool, adm: Adm, tx: seq<TxSlot>, rx: seq<RxSlot>,
    handler: nat, handlerArg: nat,
    plan: seq<ResetAnswer>, resets: nat,
    refills: bool, offers: seq<N.Offer>)

  ghost predicate Ok(w: World) {
    RingsOk(w.tx, w.rx)
  }

  /** The same adapter later on. */
  ghost predicate Later(w: World, v: World) {
    && Ok(v) && |v.tx| == |w.tx| && |v.rx| == |w.rx| && v.active == w.active
    && v.refills == w.refills && v.offers == w.offers
  }

  predicate Bit(word: nat, k: nat) {
    word / Pow2(k) % 2 == 1
  }

  // ---- results ----

  /** The first result that is not 0. */
  function FirstError(seen: seq<int>): int {
    if seen == [] then 0
    else if FirstError(seen[..|seen| - 1]) != 0 then FirstError(seen[..|seen| - 1])
    else seen[|seen| - 1]
  }

  lemma {:induction false} FirstErrorZero(seen: seq<int>)
    ensures FirstError(seen) == 0 <==> forall i :: 0 <= i < |seen| ==> seen[i] == 0
  {
    if seen != [] { FirstErrorZero(seen[..|seen| - 1]); }
  }

  lemma {:induction false} FirstErrorIs(seen: seq<int>, k: nat)
    requires k < |seen| && seen[k] != 0 && forall i :: 0 <= i < k ==> seen[i] == 0
    ensures FirstError(seen) == seen[k]
  {
    var front := seen[..|seen| - 1];
    if k < |front| { FirstErrorIs(front, k); } else { FirstErrorZero(front); }
  }

  lemma FirstErrorPush(seen: seq<int>, r: int)
    ensures FirstError(seen + [r]) == if FirstError(seen) != 0 then FirstError(seen) else r
  {
    assert (seen + [r])[..|seen|] == seen;
  }

  lemma {:induction false} FirstErrorJoin(a: seq<int>, b: seq<int>)
    ensures FirstError(a + b) == if FirstError(a) != 0 then FirstError(a) else FirstError(b)
    decreases |b|
  {
    if b == [] {
      assert a + b == a;
    } else {
      var front, r := b[..|b| - 1], b[|b| - 1];
      FirstErrorJoin(a, front);
      assert a + b == (a + front) + [r];
      FirstErrorPush(a + front, r);
    }
  }

  lemma FirstErrorOne(r: int)
    ensures FirstError([r]) == r
  {
    assert [r][..0] == [];
  }

  // ---- one command ----

  /** The exchange of one command under the admin lock. */
  function Ask(a: Adm, op: Op): (r: (Adm, int, nat))
    ensures r.1 <= 0
  {
    var answer := if a.script == [] then Silent else a.script[0];
    var b := a.(script := if a.script == [] then [] else a.script[1..], sent := a.sent + [Exchange(op, answer)]);
    match answer
    case Silent => (b.(state := Error), -ETIMEDOUT, 0)
    case Reply(status, word) => (b, 0 - status, if status == 0 then word else 0)
  }

  /** `ena_admin_exec_cmd`. */
  function Exec(w: World, op: Op): (r: (World, int, nat))
    requires Ok(w)
    ensures Later(w, r.0)
    ensures w.active ==> r.0 == w.(adm := r.0.adm)
    decreases if w.active then 0 else 1, 1
  {
    hide RingsOk;
    if !w.adm.up then (w, -EINVAL, 0)
    else if w.adm.state == Error then (w, -ENODEV, 0)
    else
      var (a, ret, word) := Ask(w.adm, op);
      var v := w.(adm := a);
      (if ret == -ETIMEDOUT then Recover(v).0 else v, ret, word)
  }

  // ---- queue creation ----

  /** The submission queue on a completion queue that exists. */
  function AddSq(w: World): (r: (World, int))
    requires Ok(w)
    ensures Later(w, r.0)
    ensures w.active ==> r.0 == w.(adm := r.0.adm)
    decreases if w.active then 0 else 1, 2
  {
    hide RingsOk;
    var (sq, r, bad) := Exec(w, CreateSq);
    if r != 0 then (Exec(sq, DestroyCq).0, r)
    else if bad != 0 then (Exec(Exec(sq, DestroySq).0, DestroyCq).0, -EINVAL)
    else (sq, 0)
  }

  /** `ena_ring_create_hw` up to the ring it makes live. */
  function Create(w: World): (r: (World, int))
    requires Ok(w)
    ensures Later(w, r.0)
    ensures w.active ==> r.0 == w.(adm := r.0.adm)
    decreases if w.active then 0 else 1, 3
  {
    hide RingsOk;
    var (cq, r, bad) := Exec(w, CreateCq);
    if r != 0 then (cq, r)
    else if bad != 0 then (Exec(cq, DestroyCq).0, -EINVAL)
    else AddSq(cq)
  }

  function ReviveTx(w: World, q: nat): (v: World)
    requires Ok(w) && q < |w.tx|
    ensures Later(w, v) && v == w.(tx := w.tx[q := LiveTx(w.tx[q])])
  {
    hide RingsOk, TxOk, LiveTx;
    RingsAt(w.tx, w.rx);
    LiveTxOk(w.tx[q]);
    TxUpdated(w.tx, w.rx, q, LiveTx(w.tx[q]));
    w.(tx := w.tx[q := LiveTx(w.tx[q])])
  }

  /** Receive queue 0 is refilled when it comes to life. */
  function ReviveRx(w: World, q: nat): (v: World)
    requires Ok(w) && q < |w.rx|
    ensures Later(w, v) && RxOk(w.rx[q])
    ensures v == w.(rx := w.rx[q := Revived(w.rx[q], q == 0 && w.refills, w.offers)])
  {
    hide RingsOk, RxOk, Revived;
    RingsAt(w.tx, w.rx);
    var x := Revived(w.rx[q], q == 0 && w.refills, w.offers);
    RxUpdated(w.tx, w.rx, q, x);
    w.(rx := w.rx[q := x])
  }

  /** The TX rings below q, in order: one result per ring that is attached and
      not live. */
  function TxLoop(w: World, q: nat): (r: (World, seq<int>))
    requires Ok(w) && q <= |w.tx|
    ensures Later(w, r.0)
    ensures w.active ==> r.0 == w.(adm := r.0.adm, tx := r.0.tx)
    decreases if w.active then 0 else 1, 4, q
  {
    if q == 0 then (w, [])
    else
      hide RingsOk, ReviveTx, TxLive;
      var (v, seen) := TxLoop(w, q - 1);
      if TxLive(v.tx[q - 1]) then (v, seen)
      else
        var (u, r) := Create(v);
        (if r == 0 then ReviveTx(u, q - 1) else u, seen + [r])
  }

  /** The same for the RX rings below q. */
  function RxLoop(w: World, q: nat): (r: (World, seq<int>))
    requires Ok(w) && q <= |w.rx|
    ensures Later(w, r.0)
    ensures w.active ==> r.0 == w.(adm := r.0.adm, rx := r.0.rx)
    decreases if w.active then 0 else 1, 4, q
  {
    if q == 0 then (w, [])
    else
      hide RingsOk, ReviveRx, RxLive;
      var (v, seen) := RxLoop(w, q - 1);
      if RxLive(v.rx[q - 1]) then (v, seen)
      else
        var (u, r) := Create(v);
        (if r == 0 then ReviveRx(u, q - 1) else u, seen + [r])
  }

  // ---- device features ----

  /** `ena_init_get_device_attributes`. */
  function ReadAttributes(w: World): (r: (World, int))
    requires Ok(w)
    ensures Later(w, r.0)
    ensures w.active ==> r.0 == w.(adm := r.0.adm)
    decreases if w.active then 0 else 1, 2
  {
    hide RingsOk;
    var (v, r, word) := Exec(w, GetAttributes);
    (if r == 0 then v.(adm := v.adm.(features := word)) else v, r)
  }

  /** `ena_init_set_mtu` with the MTU the adapter has. */
  function ApplyMtu(w: World): (r: (World, int))
    requires Ok(w)
    ensures Later(w, r.0)
    ensures w.active ==> r.0 == w.(adm := r.0.adm)
    decreases if w.active then 0 else 1, 2
  {
    hide RingsOk;
    if w.adm.mtu < MTU_MIN || w.adm.mtu > MTU_MAX then (w, -EINVAL)
    else
      var (v, r, _) := Exec(w, SetMtu);
      (if r == 0 then v.(adm := v.adm.(mtu := w.adm.mtu)) else v, r)
  }

  /** `ena_init_config_aenq`: reports success whatever happens. */
  function ApplyAenq(w: World): (v: World)
    requires Ok(w)
    ensures Later(w, v)
    ensures w.active ==> v == w.(adm := v.adm)
    decreases if w.active then 0 else 1, 2
  {
    hide RingsOk;
    if !Bit(w.adm.features, 26) then w
    else
      var (v, r, word) := Exec(w, GetAenq);
      var groups := word % 0x20;
      if r != 0 || groups == 0 then v
      else
        var (u, r, _) := Exec(v, SetAenq);
        if r != 0 then u else u.(adm := u.adm.(groups := groups))
  }

  /** A command that is sent only when its feature is supported, and needs its
      buffer then. */
  function Optional(w: World, supported: bool, buffer: bool, op: Op): (r: (World, int))
    requires Ok(w)
    ensures Later(w, r.0)
    ensures w.active ==> r.0 == w.(adm := r.0.adm)
    decreases if w.active then 0 else 1, 2
  {
    hide RingsOk;
    if !supported then (w, 0)
    else if !buffer then (w, -EINVAL)
    else
      var (v, r, _) := Exec(w, op);
      (v, r)
  }

  /** `ena_rss_init`; the query of the table limits is best effort. */
  function InitRss(w: World): (r: (World, int))
    requires Ok(w)
    ensures Later(w, r.0)
    ensures w.active ==> r.0 == w.(adm := r.0.adm)
    decreases if w.active then 0 else 1, 2
  {
    hide RingsOk;
    if !Bit(w.adm.features, 12) then (w, -EOPNOTSUPP)
    else if w.adm.rss.Tables? then (w, 0)
    else
      var v := if |w.rx| < 2 then w else Exec(w, GetRssLimits).0;
      var rest := if v.adm.tableMemory == [] then [] else v.adm.tableMemory[1..];
      if v.adm.tableMemory == [] || !v.adm.tableMemory[0] then (v.(adm := v.adm.(tableMemory := rest)), -ENOMEM)
      else (v.(adm := v.adm.(rss := Tables(Bit(v.adm.features, 10), Bit(v.adm.features, 18)), tableMemory := rest)), 0)
  }

  /** The hash key and the hash input, as far as they are supported. */
  function SendHash(w: World): (r: (World, int))
    requires Ok(w)
    ensures Later(w, r.0)
    ensures w.active ==> r.0 == w.(adm := r.0.adm)
    decreases if w.active then 0 else 1, 3
  {
    hide RingsOk;
    var (v, r) := Optional(w, Bit(w.adm.features, 10), w.adm.rss.Tables? && w.adm.rss.key, SetRssKey);
    if r != 0 then (v, r)
    else Optional(v, Bit(v.adm.features, 18), v.adm.rss.Tables? && v.adm.rss.input, SetRssInput)
  }

  /** The indirection table; its readback is best effort. */
  function SendTable(w: World): (r: (World, int))
    requires Ok(w)
    ensures Later(w, r.0)
    ensures w.active ==> r.0 == w.(adm := r.0.adm)
    decreases if w.active then 0 else 1, 3
  {
    hide RingsOk;
    var (v, r) := Optional(w, true, w.adm.rss.Tables?, SetRssTable);
    if r != 0 then (v, r) else (Exec(v, ReadRssTable).0, 0)
  }

  /** `ena_rss_configure`. */
  function ApplyRss(w: World): (r: (World, int))
    requires Ok(w)
    ensures Later(w, r.0)
    ensures w.active ==> r.0 == w.(adm := r.0.adm)
    decreases if w.active then 0 else 1, 4
  {
    hide RingsOk;
    var (a, r) := InitRss(w);
    if r != 0 then (a, r)
    else
      var (b, r) := SendHash(a);
      if r != 0 then (b, r) else SendTable(b)
  }

  /** `ena_init_reapply_device_features`: one result per step that applies. */
  function Features(w: World): (r: (World, seq<int>))
    requires Ok(w)
    ensures Later(w, r.0)
    ensures w.active ==> r.0 == w.(adm := r.0.adm)
    decreases if w.active then 0 else 1, 5
  {
    hide RingsOk;
    var (a, r0) := ReadAttributes(w);
    var (b, r1) := if a.adm.mtu == 0 then (a, []) else var (v, r) := ApplyMtu(a); (v, [r]);
    var (c, r2) := if b.adm.groups == 0 then (b, []) else (ApplyAenq(b), [0]);
    var (d, r3) := if |c.rx| <= 1 then (c, []) else var (v, r) := ApplyRss(c); (v, [r]);
    (d, [r0] + r1 + r2 + r3)
  }

  // ---- recovery ----

  /** `ena_adapter_recover_io_rings`: the results of the queue creations, then
      of the feature steps if any queue was created. */
  function RecoverRings(w: World): (r: (World, seq<int>))
    requires Ok(w)
    ensures Later(w, r.0)
    ensures w.active ==> r.0 == w.(adm := r.0.adm, tx := r.0.tx, rx := r.0.rx)
    decreases if w.active then 0 else 1, 6
  {
    hide RingsOk;
    var (a, txs) := TxLoop(w, |w.tx|);
    var (b, rxs) := RxLoop(a, |a.rx|);
    if 0 !in txs && 0 !in rxs then (b, txs + rxs)
    else
      var (c, features) := Features(b);
      (c, txs + rxs + features)
  }

  /** Every ring reset. */
  function Invalidate(w: World): (v: World)
    requires Ok(w)
    ensures Later(w, v) && v == w.(tx := v.tx, rx := v.rx)
    ensures forall q :: 0 <= q < |w.tx| ==> TxOk(w.tx[q]) && v.tx[q] == ResetTx(w.tx[q]) && TxBlank(v.tx[q])
    ensures forall q :: 0 <= q < |w.rx| ==> RxOk(w.rx[q]) && v.rx[q] == ResetRx(w.rx[q]) && RxBlank(v.rx[q])
  {
    hide TxOk, RxOk, TxBlank, RxBlank, ResetTx, ResetRx;
    assert forall q :: 0 <= q < |w.tx| ==> TxOk(ResetTx(w.tx[q])) && TxBlank(ResetTx(w.tx[q])) by {
      forall q | 0 <= q < |w.tx| { ResetTxOk(w.tx[q]); }
    }
    assert forall q :: 0 <= q < |w.rx| ==> RxOk(ResetRx(w.rx[q])) && RxBlank(ResetRx(w.rx[q])) by {
      forall q | 0 <= q < |w.rx| { ResetRxOk(w.rx[q]); }
    }
    w.(tx := seq(|w.tx|, q requires 0 <= q < |w.tx| => ResetTx(w.tx[q])),
       rx := seq(|w.rx|, q requires 0 <= q < |w.rx| => ResetRx(w.rx[q])))
  }

  /** Tear the admin queues down, which forgets the event handler, set them up
      again and register the handler again. */
  function Rebuild(w: World, memory: bool): (r: (World, int))
    ensures r.0 == w.(adm := w.adm.(up := r.0.adm.up, state := r.0.adm.state),
                      handler := r.0.handler, handlerArg := r.0.handlerArg)
    ensures r.1 == 0 ==> r.0.adm.up && r.0.adm.state == AdminReady && r.0.handler == w.handler
  {
    var torn := if !w.adm.up then w
                else w.(adm := w.adm.(up := false, state := Stopped), handler := 0, handlerArg := 0);
    if !memory then (torn, -ENOMEM)
    else
      (torn.(adm := torn.adm.(up := true, state := AdminReady),
             handler := w.handler, handlerArg := if w.handler != 0 then w.handlerArg else 0), 0)
  }

  /** Reset the device and set the admin queues up again. */
  function ResetDevice(w: World): (r: (World, int))
    requires Ok(w)
    ensures Later(w, r.0)
    ensures r.0 == w.(adm := r.0.adm, handler := r.0.handler, handlerArg := r.0.handlerArg,
                      plan := r.0.plan, resets := w.resets + 1)
  {
    var end := if w.plan == [] then Stuck else w.plan[0];
    var v := w.(plan := if w.plan == [] then [] else w.plan[1..], resets := w.resets + 1);
    match end
    case Stuck => (v, -ETIMEDOUT)
    case Fatal => (v.(adm := v.adm.(state := Error)), -EIO)
    case Finished(memory) => Rebuild(v, memory)
  }

  predicate HasRings(w: World) {
    (exists q :: 0 <= q < |w.tx| && w.tx[q].TxAttached?) || (exists q :: 0 <= q < |w.rx| && w.rx[q].RxAttached?)
  }

  /** `ena_adapter_reset_and_recover`: the result of the reset, then those of
      the ring recovery. One recovery at a time. */
  function Recover(w: World): (r: (World, seq<int>))
    requires Ok(w)
    ensures Later(w, r.0)
    ensures w.active ==> r == (w, [-EBUSY])
    decreases if w.active then 0 else 1, 0
  {
    hide RingsOk;
    if w.active then (w, [-EBUSY])
    else
      var (v, r) := ResetDevice(Invalidate(w.(active := true, adm := w.adm.(state := Error))));
      if r != 0 then (v.(active := false), [r])
      else
        var u := if !HasRings(v) && v.adm.groups != 0 then ApplyAenq(v) else v;
        var (t, seen) := RecoverRings(u);
        (t.(active := false), [0] + seen)
  }
}
