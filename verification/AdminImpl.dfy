/** The admin fields of `struct ena_adapter`, updated in place. The device
    writes the completion ring between the driver's reads. */
module AdminImpl {
  import opened Bits
  import opened RingTypes
  import opened AdminQueue

  class Adapter {
    const aq: array<AqEntry>
    var aqTail: nat
    var aqPhase: nat
    var nextId: nat              // next_command_id
    const acq: array<AcqEntry>
    var acqHead: nat
    var acqPhase: nat
    var failed: bool             // ENA_STATE_ERROR
    var devTail: nat             // the device's own index and phase bit
    var devPhase: nat
    var subs: seq<AqEntry>       // commands seen and completions written by the device
    var posted: seq<AcqEntry>

    ghost function Repr(): set<object> {
      {this, aq, acq}
    }

    ghost function Abs(): Admin
      reads Repr()
    {
      Admin(aq[..], aqTail, aqPhase, nextId, acq[..], acqHead, acqPhase, failed, devTail, devPhase, subs, posted)
    }

    ghost predicate Wf()
      reads Repr()
    {
      Shape(Abs())
    }

    /** `ena_admin_init`. */
    constructor (aqDepth: nat, acqDepth: nat)
      requires DepthOk(aqDepth) && DepthOk(acqDepth)
      ensures Abs() == Init(aqDepth, acqDepth) && Wf() && fresh(Repr())
    {
      var sub := NewFilled(aqDepth, AqEntry(0, 0, 0));
      var comp := NewFilled(acqDepth, NO_ENTRY);
      aq, acq := sub, comp;
      aqTail, aqPhase, nextId := 0, 1, 1;
      acqHead, acqPhase := 0, 1;
      failed := false;
      devTail, devPhase := 0, 1;
      subs, posted := [], [];
    }

    /** Take the next command ID, skipping zero. */
    method TakeId() returns (id: nat)
      requires nextId < ID_SPACE
      modifies `nextId
      ensures id == SkipZero(old(nextId)) && nextId == SkipZero((id + 1) % ID_SPACE)
    {
      if nextId == 0 { nextId := 1; }
      id := nextId;
      nextId := (nextId + 1) % ID_SPACE;
      if nextId == 0 { nextId := 1; }
    }

    /** Write an entry and advance the tail: the doorbell value. */
    method WriteEntry(e: AqEntry)
      requires Wf()
      modifies aq, `aqTail, `aqPhase, `subs
      ensures aq[..] == old(aq[..])[old(aqTail) % aq.Length := e] && aqTail == (old(aqTail) + 1) % U16
      ensures aqPhase == (if aqTail % aq.Length == 0 then 1 - old(aqPhase) else old(aqPhase)) && subs == old(subs) + [e]
    {
      aq[Mask(aqTail, aq.Length)] := e;
      aqTail := (aqTail + 1) % U16;
      if Mask(aqTail, aq.Length) == 0 { aqPhase := 1 - aqPhase; }
      subs := subs + [e];
    }

    /** At a command-ID wrap: recompute the phase and clear the slot. */
    method ClearSlot()
      requires Wf()
      modifies acq, `acqPhase
      ensures acqPhase == RecomputedPhase(old(Abs())) && acq[..] == old(acq[..])[acqHead % acq.Length := NO_ENTRY]
    {
      acqPhase := 1 - (acqHead / acq.Length) % 2;
      acq[Mask(acqHead, acq.Length)] := NO_ENTRY;
    }

    /** Build the entry, prepare the completion slot, ring the doorbell. */
    method SubmitCommand(opcode: nat) returns (id: nat)
      requires Wf()
      modifies Repr()
      ensures Abs() == Submit(old(Abs()), opcode) && Wf() && id == CommandId(old(Abs()))
    {
      ghost var a := Abs();
      id := TakeId();
      if id == 1 && acqHead > 0 { ClearSlot(); }
      WriteEntry(AqEntry(aqPhase, id, opcode));
      hide Shape, RecomputedPhase;
      assert Abs() == Submit(a, opcode);
    }

    /** The device answers its oldest unanswered command, if any. */
    method Answer(status: nat)
      requires Wf()
      modifies Repr()
      ensures Abs() == Post(old(Abs()), status) && Wf()
    {
      ghost var a := Abs();
      if |posted| < |subs| {
        var e := AcqEntry(devPhase, aq[Mask(devTail, aq.Length)].id, status);
        acq[Mask(devTail, acq.Length)] := e;
        posted := posted + [e];
        devTail := (devTail + 1) % U16;
        if Mask(devTail, acq.Length) == 0 { devPhase := 1 - devPhase; }
      }
      assert Abs() == Post(a, status);
    }

    method AnswerAll(statuses: seq<nat>)
      requires Wf()
      modifies Repr()
      ensures Abs() == Posts(old(Abs()), statuses) && Wf()
    {
      hide Shape, Post;
      assert statuses[0..] == statuses;
      for i := 0 to |statuses|
        invariant Wf() && Posts(old(Abs()), statuses) == Posts(Abs(), statuses[i..])
      {
        ghost var rest := statuses[i..];
        assert rest[0] == statuses[i] && rest[1..] == statuses[i + 1..];
        Answer(statuses[i]);
      }
    }

    /** The poll loop; before each read the device answers some commands. */
    method AwaitSlot(polls: seq<seq<nat>>) returns (found: bool)
      requires Wf()
      modifies Repr()
      ensures (Abs(), found) == Await(old(Abs()), polls) && Wf()
    {
      assert polls[0..] == polls;
      for i := 0 to |polls|
        invariant Wf() && Await(old(Abs()), polls) == Await(Abs(), polls[i..])
      {
        ghost var rest := polls[i..];
        assert rest[0] == polls[i] && rest[1..] == polls[i + 1..];
        AnswerAll(polls[i]);
        if acq[Mask(acqHead, acq.Length)].phase == acqPhase { return true; }
      }
      return false;
    }

    /** `ena_admin_exec_locked`. */
    method ExecLocked(opcode: nat, polls: seq<seq<nat>>) returns (out: Outcome)
      requires Wf()
      modifies Repr()
      ensures (Abs(), out) == Exec(old(Abs()), opcode, polls) && Wf()
    {
      hide Submit, Await, CommandId;
      var id := SubmitCommand(opcode);
      var found := AwaitSlot(polls);
      if !found {
        failed := true;
        return TimedOut;
      }
      var e := acq[Mask(acqHead, acq.Length)];
      acqHead := (acqHead + 1) % U16;
      if Mask(acqHead, acq.Length) == 0 { acqPhase := 1 - acqPhase; }
      if e.id != id { return Mismatch; }
      return Answered(e.status);
    }

    /** A command on a queue between commands is sound: see `ExecSound`. */
    method ExecSafely(opcode: nat, polls: seq<seq<nat>>) returns (out: Outcome)
      requires Inv(Abs()) && polls != []
      modifies Repr()
      ensures !out.TimedOut? ==> Inv(Abs()) && aqTail == acqHead
      ensures out.Answered? ==>
                var n := |old(subs)|;
                n < |posted| && posted[n] == AcqEntry(old(acqPhase), IdOf(n), out.status)
      ensures failed == (old(failed) || out.TimedOut?)
    {
      hide Inv, Exec;
      ExecSound(Abs(), opcode, polls);
      out := ExecLocked(opcode, polls);
    }
  }
}
