/** The control fields of `struct ena_adapter`, updated in place: the admin
    lock, the recovery flag, the adapter state and the rings. Every method is
    proved equal to the function of the same section in `RecoveryPlan`, and the
    recursion between admin commands and recovery terminates. */
module Recovery {
  import opened RingTypes
  import opened IoRings
  import opened RecoveryPlan
  import N = RxNetdev

  class Control {
    var lock: bool                 // admin_lock
    var recoverActive: bool
    var state: DevState
    var adminUp: bool              // aq_base and acq_base are set
    var handler: nat               // aenq_handler, 0 for none
    var handlerArg: nat
    var tx: seq<TxSlot>            // tx_rings
    var rx: seq<RxSlot>            // rx_rings
    var mtu: nat
    var features: nat              // supported_features
    var groups: nat                // aenq_enabled_groups
    var rss: RssMem                // rss_info
    var tableMemory: seq<bool>     // which allocations of RSS tables succeed
    const refills: bool            // refill_netbuf of RX ring 0 is set
    var script: seq<Answer>        // what the device will do
    var plan: seq<ResetAnswer>
    const offers: seq<N.Offer>
    ghost var sent: seq<Exchange>
    ghost var resets: nat

    ghost function AdmAbs(): Adm
      reads this
    {
      Adm(state, adminUp, script, sent, mtu, features, groups, rss, tableMemory)
    }

    ghost function Abs(): World
      reads this
    {
      World(recoverActive, AdmAbs(), tx, rx, handler, handlerArg, plan, resets, refills, offers)
    }

    /** Between calls: the lock is free and every ring accounts for itself. */
    ghost predicate Valid()
      reads this
    {
      !lock && Ok(Abs())
    }

    constructor (tx: seq<TxSlot>, rx: seq<RxSlot>, refills: bool, offers: seq<N.Offer>,
                 script: seq<Answer>, plan: seq<ResetAnswer>, tableMemory: seq<bool>)
      requires RingsOk(tx, rx)
      ensures Valid()
      ensures Abs() == World(false, Adm(AdminReady, true, script, [], 0, 0, 0, NoTables, tableMemory), tx, rx, 0, 0,
                             plan, 0, refills, offers)
    {
      lock, recoverActive, state, adminUp := false, false, AdminReady, true;
      handler, handlerArg := 0, 0;
      this.tx, this.rx, this.refills, this.offers := tx, rx, refills, offers;
      mtu, features, groups, rss := 0, 0, 0, NoTables;
      this.script, this.plan, this.tableMemory := script, plan, tableMemory;
      sent, resets := [], 0;
    }

    /** `ena_admin_lock_take`. The lock is not recursive: taking it while it is
        held would spin forever, so every caller must show that it is free. */
    method TakeLock()
      requires !lock
      modifies `lock
      ensures lock
    {
      lock := true;
    }

    method DropLock()
      requires lock
      modifies `lock
      ensures !lock
    {
      lock := false;
    }

    /** `ena_admin_exec_locked`, by its outcome. */
    method ExecLocked(op: Op) returns (ret: int, word: nat)
      requires lock
      modifies `state, `script, `sent
      ensures (AdmAbs(), ret, word) == Ask(old(AdmAbs()), op)
    {
      var answer := Silent;
      if script != [] { answer, script := script[0], script[1..]; }
      sent := sent + [Exchange(op, answer)];
      match answer
      case Silent =>
        state := Error;
        return -ETIMEDOUT, 0;
      case Reply(status, data) =>
        return 0 - status, if status == 0 then data else 0;
    }

    /** `ena_admin_exec_cmd`. */
    method ExecCmd(op: Op) returns (ret: int, word: nat)
      requires Valid()
      modifies this
      ensures Valid() && (Abs(), ret, word) == Exec(old(Abs()), op)
      decreases if recoverActive then 0 else 1, 1
    {
      hide RingsOk, Ask, Recover;
      if !adminUp { return -EINVAL, 0; }
      if state == Error { return -ENODEV, 0; }
      TakeLock();
      ret, word := ExecLocked(op);
      DropLock();
      if ret == -ETIMEDOUT { var _, _ := ResetAndRecover(); }
    }

    method CreateSqOn() returns (ret: int)
      requires Valid()
      modifies this
      ensures Valid() && (Abs(), ret) == AddSq(old(Abs()))
      decreases if recoverActive then 0 else 1, 2
    {
      hide RingsOk, Exec;
      var bad, undo, none;
      ret, bad := ExecCmd(CreateSq);
      if ret != 0 {
        undo, none := ExecCmd(DestroyCq);
      } else if bad != 0 {
        undo, none := ExecCmd(DestroySq);
        undo, none := ExecCmd(DestroyCq);
        ret := -EINVAL;
      }
    }

    /** `ena_ring_create_hw` up to the ring it makes live. */
    method CreateQueues() returns (ret: int)
      requires Valid()
      modifies this
      ensures Valid() && (Abs(), ret) == Create(old(Abs()))
      decreases if recoverActive then 0 else 1, 3
    {
      hide RingsOk, Exec, AddSq;
      var bad;
      ret, bad := ExecCmd(CreateCq);
      if ret != 0 { return; }
      if bad != 0 {
        var _, _ := ExecCmd(DestroyCq);
        return -EINVAL;
      }
      ret := CreateSqOn();
    }

    /** The TX loop of `ena_adapter_recover_io_rings`. */
    method RecoverTx() returns (ret: int, created: nat, ghost seen: seq<int>)
      requires Valid()
      modifies this
      ensures Valid() && (Abs(), seen) == TxLoop(old(Abs()), |old(tx)|)
      ensures ret == FirstError(seen) && (created > 0 <==> 0 in seen)
      decreases if recoverActive then 0 else 1, 5
    {
      hide RingsOk, Create, FirstError, TxLive, ReviveTx;
      ret, created, seen := 0, 0, [];
      FirstErrorZero([]);
      var n := |tx|;
      for q := 0 to n
        invariant Valid() && recoverActive == old(recoverActive) && |tx| == n
        invariant (Abs(), seen) == TxLoop(old(Abs()), q)
        invariant ret == FirstError(seen) && (created > 0 <==> 0 in seen)
      {
        LiveTxTest(tx[q]);
        if tx[q].TxAttached? && !tx[q].ring.hwValid {
          var r := CreateQueues();
          FirstErrorPush(seen, r);
          seen := seen + [r];
          if r != 0 {
            if ret == 0 { ret := r; }
          } else {
            ghost var next := ReviveTx(Abs(), q);
            tx := tx[q := LiveTx(tx[q])];
            assert Abs() == next;
            created := created + 1;
          }
        }
      }
    }

    /** The RX loop of `ena_adapter_recover_io_rings`. */
    method RecoverRx() returns (ret: int, created: nat, ghost seen: seq<int>)
      requires Valid()
      modifies this
      ensures Valid() && (Abs(), seen) == RxLoop(old(Abs()), |old(rx)|)
      ensures ret == FirstError(seen) && (created > 0 <==> 0 in seen)
      decreases if recoverActive then 0 else 1, 5
    {
      hide RingsOk, Create, FirstError, RxLive, ReviveRx, Revived, RxOk;
      ret, created, seen := 0, 0, [];
      FirstErrorZero([]);
      var n := |rx|;
      for q := 0 to n
        invariant Valid() && recoverActive == old(recoverActive) && |rx| == n
        invariant (Abs(), seen) == RxLoop(old(Abs()), q)
        invariant ret == FirstError(seen) && (created > 0 <==> 0 in seen)
      {
        LiveRxTest(rx[q]);
        if rx[q].RxAttached? && !rx[q].net.rx.hwValid {
          var r := CreateQueues();
          FirstErrorPush(seen, r);
          seen := seen + [r];
          if r != 0 {
            if ret == 0 { ret := r; }
          } else {
            ghost var next := ReviveRx(Abs(), q);
            rx := rx[q := Revived(rx[q], q == 0 && refills, offers)];
            assert Abs() == next;
            created := created + 1;
          }
        }
      }
    }

    /** `ena_init_get_device_attributes`. */
    method GetDeviceAttributes() returns (ret: int)
      requires Valid()
      modifies this
      ensures Valid() && (Abs(), ret) == ReadAttributes(old(Abs()))
      decreases if recoverActive then 0 else 1, 2
    {
      hide RingsOk, Exec;
      var word;
      ret, word := ExecCmd(GetAttributes);
      if ret == 0 { features := word; }
    }

    /** `ena_init_set_mtu` with the MTU the adapter has. */
    method SetMtuAgain() returns (ret: int)
      requires Valid()
      modifies this
      ensures Valid() && (Abs(), ret) == ApplyMtu(old(Abs()))
      decreases if recoverActive then 0 else 1, 2
    {
      hide RingsOk, Exec;
      var value := mtu;
      if value < MTU_MIN || value > MTU_MAX { return -EINVAL; }
      var none;
      ret, none := ExecCmd(SetMtu);
      if ret == 0 { mtu := value; }
    }

    /** `ena_init_config_aenq`: reports success whatever happens. */
    method ConfigAenq() returns (ret: int)
      requires Valid()
      modifies this
      ensures Valid() && Abs() == ApplyAenq(old(Abs())) && ret == 0
      decreases if recoverActive then 0 else 1, 2
    {
      hide RingsOk, Exec, Bit;
      if !Bit(features, 26) { return 0; }
      var word, none;
      ret, word := ExecCmd(GetAenq);
      if ret != 0 { return 0; }
      var found := word % 0x20;
      if found == 0 { return 0; }
      ret, none := ExecCmd(SetAenq);
      if ret != 0 { return 0; }
      groups := found;
    }

    /** The allocations of `ena_rss_init`; what was allocated is freed again when
        one fails. */
    method AllocTables() returns (enough: bool)
      modifies `tableMemory
      ensures enough == (old(tableMemory) != [] && old(tableMemory)[0])
      ensures tableMemory == if old(tableMemory) == [] then [] else old(tableMemory)[1..]
    {
      if tableMemory == [] { return false; }
      enough, tableMemory := tableMemory[0], tableMemory[1..];
    }

    /** `ena_rss_init`. */
    method RssInit() returns (ret: int)
      requires Valid()
      modifies this
      ensures Valid() && (Abs(), ret) == InitRss(old(Abs()))
      decreases if recoverActive then 0 else 1, 2
    {
      hide RingsOk, Exec, Bit;
      if !Bit(features, 12) { return -EOPNOTSUPP; }
      if rss.Tables? { return 0; }
      if |rx| >= 2 { var _, _ := ExecCmd(GetRssLimits); }
      var enough := AllocTables();
      if !enough { return -ENOMEM; }
      rss := Tables(Bit(features, 10), Bit(features, 18));
      return 0;
    }

    method SendIf(supported: bool, buffer: bool, op: Op) returns (ret: int)
      requires Valid()
      modifies this
      ensures Valid() && (Abs(), ret) == Optional(old(Abs()), supported, buffer, op)
      decreases if recoverActive then 0 else 1, 2
    {
      hide RingsOk, Exec;
      if !supported { return 0; }
      if !buffer { return -EINVAL; }
      var none;
      ret, none := ExecCmd(op);
    }

    method SetHash() returns (ret: int)
      requires Valid()
      modifies this
      ensures Valid() && (Abs(), ret) == SendHash(old(Abs()))
      decreases if recoverActive then 0 else 1, 3
    {
      hide RingsOk, Optional, Bit;
      ret := SendIf(Bit(features, 10), rss.Tables? && rss.key, SetRssKey);
      if ret != 0 { return; }
      ret := SendIf(Bit(features, 18), rss.Tables? && rss.input, SetRssInput);
    }

    method SetTable() returns (ret: int)
      requires Valid()
      modifies this
      ensures Valid() && (Abs(), ret) == SendTable(old(Abs()))
      decreases if recoverActive then 0 else 1, 3
    {
      hide RingsOk, Optional, Exec;
      ret := SendIf(true, rss.Tables?, SetRssTable);
      if ret != 0 { return; }
      var _, _ := ExecCmd(ReadRssTable);
    }

    /** `ena_rss_configure`. */
    method ConfigRss() returns (ret: int)
      requires Valid()
      modifies this
      ensures Valid() && (Abs(), ret) == ApplyRss(old(Abs()))
      decreases if recoverActive then 0 else 1, 4
    {
      hide RingsOk, InitRss, SendHash, SendTable;
      ret := RssInit();
      if ret != 0 { return; }
      ret := SetHash();
      if ret != 0 { return; }
      ret := SetTable();
    }

    /** `ena_init_reapply_device_features`: every step runs; the first error is
        the result. */
    method ReapplyFeatures() returns (ret: int, ghost seen: seq<int>)
      requires Valid()
      modifies this
      ensures Valid() && (Abs(), seen) == Features(old(Abs())) && ret == FirstError(seen)
      decreases if recoverActive then 0 else 1, 5
    {
      hide RingsOk, FirstError, ReadAttributes, ApplyMtu, ApplyAenq, ApplyRss;
      ret := GetDeviceAttributes();
      seen := [ret];
      FirstErrorOne(ret);
      ghost var more: seq<int> := [];
      if mtu != 0 {
        var r := SetMtuAgain();
        FirstErrorPush(seen, r);
        more := [r];
        if ret == 0 { ret := r; }
      }
      seen := Appended(seen, more);
      more := [];
      if groups != 0 {
        var r := ConfigAenq();
        FirstErrorPush(seen, r);
        more := [r];
        if ret == 0 { ret := r; }
      }
      seen := Appended(seen, more);
      more := [];
      if |rx| > 1 {
        var r := ConfigRss();
        FirstErrorPush(seen, r);
        more := [r];
        if ret == 0 { ret := r; }
      }
      seen := Appended(seen, more);
    }

    /** `ena_adapter_recover_io_rings`. */
    method RecoverIoRings() returns (ret: int, ghost seen: seq<int>)
      requires Valid()
      modifies this
      ensures Valid() && (Abs(), seen) == RecoverRings(old(Abs())) && ret == FirstError(seen)
      decreases if recoverActive then 0 else 1, 6
    {
      hide RingsOk, FirstError, TxLoop, RxLoop, Features;
      var made, more: nat;
      ret, made, seen := RecoverTx();
      ghost var late: seq<int>;
      var r: int;
      r, more, late := RecoverRx();
      FirstErrorJoin(seen, late);
      seen := seen + late;
      if ret == 0 { ret := r; }
      if made > 0 || more > 0 {
        r, late := ReapplyFeatures();
        FirstErrorJoin(seen, late);
        seen := seen + late;
        if ret == 0 { ret := r; }
      }
    }

    /** `ena_adapter_invalidate_io_rings`. */
    method InvalidateRings()
      requires Ok(Abs())
      modifies `tx, `rx
      ensures Abs() == Invalidate(old(Abs())) && Ok(Abs())
    {
      hide TxOk, RxOk, ResetTx, ResetRx;
      ghost var end := Invalidate(Abs());
      for q := 0 to |tx|
        invariant Ok(Abs()) && |tx| == |old(tx)| && rx == old(rx)
        invariant forall k :: q <= k < |tx| ==> tx[k] == old(tx)[k]
        invariant forall k :: 0 <= k < q ==> tx[k] == end.tx[k]
      {
        ResetTxOk(tx[q]);
        tx := tx[q := ResetTx(tx[q])];
      }
      assert tx == end.tx;
      for q := 0 to |rx|
        invariant Ok(Abs()) && |rx| == |old(rx)| && tx == end.tx
        invariant forall k :: q <= k < |rx| ==> rx[k] == old(rx)[k]
        invariant forall k :: 0 <= k < q ==> rx[k] == end.rx[k]
      {
        ResetRxOk(rx[q]);
        rx := rx[q := ResetRx(rx[q])];
      }
      assert rx == end.rx;
    }

    /** `ena_admin_fini`. */
    method AdminFini()
      modifies `adminUp, `state, `handler, `handlerArg
      ensures !adminUp
      ensures if old(adminUp) then state == Stopped && handler == 0 && handlerArg == 0
              else state == old(state) && handler == old(handler) && handlerArg == old(handlerArg)
    {
      if adminUp { adminUp, state, handler, handlerArg := false, Stopped, 0, 0; }
    }

    /** `ena_admin_init` after a reset, with the event handler saved across it. */
    method AdminInit(memory: bool) returns (ret: int)
      modifies `adminUp, `state, `handler, `handlerArg
      ensures (Abs(), ret) == Rebuild(old(Abs()), memory)
    {
      var h, arg := handler, handlerArg;
      AdminFini();
      if !memory { return -ENOMEM; }
      adminUp, state, handler, handlerArg := true, AdminReady, 0, 0;
      if h != 0 { handler, handlerArg := h, arg; }
      return 0;
    }

    /** What the device makes of the next reset. */
    method NextReset() returns (end: ResetAnswer)
      modifies `plan, `resets
      ensures end == if old(plan) == [] then Stuck else old(plan)[0]
      ensures plan == (if old(plan) == [] then [] else old(plan)[1..]) && resets == old(resets) + 1
    {
      resets := resets + 1;
      if plan == [] { return Stuck; }
      end, plan := plan[0], plan[1..];
    }

    /** Reset the device and set the admin queues up again, under the lock. */
    method ResetUnderLock() returns (ret: int)
      requires Valid()
      modifies this
      ensures Valid() && (Abs(), ret) == ResetDevice(old(Abs()))
    {
      hide RingsOk, Rebuild;
      TakeLock();
      var end := NextReset();
      match end {
        case Stuck => ret := -ETIMEDOUT;
        case Fatal => state, ret := Error, -EIO;
        case Finished(memory) => ret := AdminInit(memory);
      }
      DropLock();
    }

    /** True when the adapter owns at least one IO ring. */
    method HasIoRings() returns (found: bool)
      ensures found == HasRings(Abs())
    {
      for q := 0 to |tx|
        invariant forall k :: 0 <= k < q ==> !tx[k].TxAttached?
      {
        if tx[q].TxAttached? { return true; }
      }
      for q := 0 to |rx|
        invariant forall k :: 0 <= k < |tx| ==> !tx[k].TxAttached?
        invariant forall k :: 0 <= k < q ==> !rx[k].RxAttached?
      {
        if rx[q].RxAttached? { return true; }
      }
      return false;
    }

    /** `ena_adapter_reset_and_recover`. */
    method ResetAndRecover() returns (ret: int, ghost seen: seq<int>)
      requires Valid()
      modifies this
      ensures Valid() && (Abs(), seen) == Recover(old(Abs())) && ret == FirstError(seen)
      decreases if recoverActive then 0 else 1, 0
    {
      hide RingsOk, FirstError, Invalidate, ResetDevice, ApplyAenq, RecoverRings, HasRings;
      FirstErrorOne(-EBUSY);
      if recoverActive { return -EBUSY, [-EBUSY]; }
      recoverActive := true;
      state := Error;
      InvalidateRings();
      ret := ResetUnderLock();
      seen := [ret];
      FirstErrorOne(ret);
      if ret != 0 {
        recoverActive := false;
        return;
      }
      var owns := HasIoRings();
      if !owns && groups != 0 { var _ := ConfigAenq(); }
      ghost var late: seq<int>;
      ret, late := RecoverIoRings();
      FirstErrorJoin([0], late);
      seen := [0] + late;
      recoverActive := false;
    }
  }

  ghost function Appended(seen: seq<int>, more: seq<int>): (r: seq<int>)
    ensures r == seen + more && (more == [] ==> r == seen)
  {
    seen + more
  }

  lemma LiveTxTest(x: TxSlot)
    ensures TxLive(x) <==> !(x.TxAttached? && !x.ring.hwValid)
  {
  }

  lemma LiveRxTest(x: RxSlot)
    ensures RxLive(x) <==> !(x.RxAttached? && !x.net.rx.hwValid)
  {
  }
}
