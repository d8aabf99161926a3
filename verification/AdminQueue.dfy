/** The admin queue pair: one command at a time is written to the submission
    ring (AQ), and its completion is awaited in the completion ring (ACQ), as
    in `ena_admin_exec_locked`. The device answers in order and may lag. */
module AdminQueue {
  import opened Bits
  import opened RingTypes

  /** Command IDs occupy 1 .. 4095. */
  const ID_SPACE := 0x1000

  datatype AqEntry = AqEntry(phase: nat, id: nat, opcode: nat)
  datatype AcqEntry = AcqEntry(phase: nat, id: nat, status: nat)

  const NO_ENTRY := AcqEntry(0, 0, 0)

  /** Driver fields, both rings, and the device's own index and phase bit.
      `subs` are the commands submitted since init, `posted` the completions
      the device wrote. */
  datatype Admin = Admin(
    aq: seq<AqEntry>, aqTail: nat, aqPhase: nat, nextId: nat,
    acq: seq<AcqEntry>, acqHead: nat, acqPhase: nat,
    failed: bool,
    devTail: nat, devPhase: nat,
    subs: seq<AqEntry>, posted: seq<AcqEntry>)

  datatype Outcome = Answered(status: nat) | Mismatch | TimedOut

  /** `ena_admin_init` on zeroed rings. */
  function Init(aqDepth: nat, acqDepth: nat): Admin {
    Admin(Fill(aqDepth, AqEntry(0, 0, 0)), 0, 1, 1, Fill(acqDepth, NO_ENTRY), 0, 1, false, 0, 1, [], [])
  }

  ghost predicate Shape(a: Admin) {
    && DepthOk(|a.aq|) && DepthOk(|a.acq|)
    && a.aqTail < U16 && a.acqHead < U16 && a.aqPhase <= 1 && a.acqPhase <= 1
    && a.nextId < ID_SPACE && a.devTail < U16 && a.devPhase <= 1
    && |a.posted| <= |a.subs|
  }

  ghost predicate SameRings(a: Admin, b: Admin) {
    Shape(b) && |b.aq| == |a.aq| && |b.acq| == |a.acq|
  }

  // ---- the driver ----

  function SkipZero(id: nat): nat {
    if id == 0 then 1 else id
  }

  /** The ID the next command gets. */
  function CommandId(a: Admin): nat {
    SkipZero(a.nextId)
  }

  /** The phase bit recomputed from the head at a command-ID wrap. */
  function RecomputedPhase(a: Admin): nat
    requires 0 < |a.acq|
  {
    1 - (a.acqHead / |a.acq|) % 2
  }

  /** Whether the next command clears its completion slot first. */
  predicate Wraps(a: Admin) {
    CommandId(a) == 1 && a.acqHead > 0
  }

  /** Write the entry, prepare the completion slot, ring the doorbell. */
  function Submit(a: Admin, opcode: nat): (b: Admin)
    requires Shape(a)
    ensures SameRings(a, b)
  {
    var id := CommandId(a);
    var e := AqEntry(a.aqPhase, id, opcode);
    var tail := (a.aqTail + 1) % U16;
    var c := if Wraps(a) then a.(acqPhase := RecomputedPhase(a), acq := a.acq[a.acqHead % |a.acq| := NO_ENTRY]) else a;
    c.(aq := a.aq[a.aqTail % |a.aq| := e],
       nextId := SkipZero((id + 1) % ID_SPACE),
       aqTail := tail,
       aqPhase := if tail % |a.aq| == 0 then 1 - a.aqPhase else a.aqPhase,
       subs := a.subs + [e])
  }

  /** The device answers the oldest unanswered command, read from AQ memory. */
  function Post(a: Admin, status: nat): (b: Admin)
    requires Shape(a)
    ensures SameRings(a, b)
  {
    if |a.posted| == |a.subs| then a
    else
      var e := AcqEntry(a.devPhase, a.aq[a.devTail % |a.aq|].id, status);
      var tail := (a.devTail + 1) % U16;
      a.(posted := a.posted + [e], acq := a.acq[a.devTail % |a.acq| := e],
         devTail := tail, devPhase := if tail % |a.acq| == 0 then 1 - a.devPhase else a.devPhase)
  }

  function Posts(a: Admin, statuses: seq<nat>): (b: Admin)
    requires Shape(a)
    ensures SameRings(a, b)
    decreases |statuses|
  {
    if statuses == [] then a else Posts(Post(a, statuses[0]), statuses[1..])
  }

  function Head(a: Admin): AcqEntry
    requires Shape(a)
  {
    a.acq[a.acqHead % |a.acq|]
  }

  /** The poll loop: before each read the device answers some commands. */
  function Await(a: Admin, polls: seq<seq<nat>>): (r: (Admin, bool))
    requires Shape(a)
    ensures SameRings(a, r.0)
    decreases |polls|
  {
    if polls == [] then (a, false)
    else
      var b := Posts(a, polls[0]);
      if Head(b).phase == b.acqPhase then (b, true) else Await(b, polls[1..])
  }

  /** Consume the completion slot and examine what it holds. */
  function Finish(a: Admin, id: nat): (r: (Admin, Outcome))
    requires Shape(a)
    ensures SameRings(a, r.0)
  {
    var e := Head(a);
    var head := (a.acqHead + 1) % U16;
    var b := a.(acqHead := head, acqPhase := if head % |a.acq| == 0 then 1 - a.acqPhase else a.acqPhase);
    (b, if e.id != id then Mismatch else Answered(e.status))
  }

  /** `ena_admin_exec_locked` with one poll per element of `polls`. */
  function Exec(a: Admin, opcode: nat, polls: seq<seq<nat>>): (r: (Admin, Outcome))
    requires Shape(a)
    ensures SameRings(a, r.0)
  {
    var (b, found) := Await(Submit(a, opcode), polls);
    if found then Finish(b, CommandId(a)) else (b.(failed := true), TimedOut)
  }

  // ---- invariant ----

  /** The ID of the n-th command. */
  function IdOf(n: nat): nat {
    1 + n % (ID_SPACE - 1)
  }

  /** Every index is its count modulo 2^16, and every phase bit the parity of
      its pass. */
  ghost predicate Counts(a: Admin, heads: nat) {
    && Shape(a)
    && a.aqTail == |a.subs| % U16 && a.aqPhase == Phase(|a.subs|, |a.aq|)
    && a.acqHead == heads % U16 && a.acqPhase == Phase(heads, |a.acq|)
    && a.devTail == |a.posted| % U16 && a.devPhase == Phase(|a.posted|, |a.acq|)
    && a.nextId == IdOf(|a.subs|)
  }

  /** Commands carry their IDs, the device answered each with the ID it was
      given, and the commands it has not answered are still in AQ memory. */
  ghost predicate Told(a: Admin)
    requires Shape(a)
  {
    && |a.subs| - |a.posted| <= 2
    && (forall k :: 0 <= k < |a.subs| ==> a.subs[k].id == IdOf(k))
    && (forall k :: 0 <= k < |a.posted| ==> a.posted[k].id == IdOf(k) && a.posted[k].phase == Phase(k, |a.acq|))
    && (forall k :: |a.posted| <= k < |a.subs| ==> a.aq[k % |a.aq|] == a.subs[k])
  }

  /** None of the n slots from `first` on carries the phase it will be awaited
      with. */
  ghost predicate Blank(a: Admin, first: nat, n: nat)
    requires Shape(a)
  {
    forall k :: first <= k < first + n ==> a.acq[k % |a.acq|].phase != Phase(k, |a.acq|)
  }

  /** Between commands. The device is behind only right after a command with
      ID 1, and by one answer. */
  ghost predicate Inv(a: Admin)
    ensures Inv(a) ==> Shape(a)
  {
    var n := |a.subs|;
    && Counts(a, n) && Told(a) && Blank(a, n, |a.acq|)
    && (|a.posted| == n || (|a.posted| == n - 1 && IdOf(n - 1) == 1))
  }

  /** While the last command is awaited; `zeroed` tells that its slot was
      cleared when it was submitted. */
  ghost predicate Waiting(a: Admin, zeroed: bool)
    ensures Waiting(a, zeroed) ==> Shape(a)
  {
    && 0 < |a.subs| && Shape(a)
    && (var n := |a.subs| - 1;
        && Counts(a, n) && Told(a) && Blank(a, n + 1, |a.acq| - 1)
        && (|a.posted| >= n || (|a.posted| == n - 1 && IdOf(n - 1) == 1))
        && (zeroed ==> IdOf(n) == 1 && 0 < n)
        && SlotOf(a, n, zeroed))
  }

  ghost predicate SlotOf(a: Admin, n: nat, zeroed: bool)
    requires Shape(a)
  {
    var e := a.acq[n % |a.acq|];
    if n < |a.posted| then e == a.posted[n]
    else if zeroed then e == NO_ENTRY
    else e.phase != Phase(n, |a.acq|)
  }

  // ---- steps ----

  lemma InitInv(aqDepth: nat, acqDepth: nat)
    requires DepthOk(aqDepth) && DepthOk(acqDepth)
    ensures Inv(Init(aqDepth, acqDepth))
  {
    hide IsPow2, Phase;
    PhaseFirst(0, aqDepth);
    PhaseFirst(0, acqDepth);
    forall k | 0 <= k < acqDepth ensures Phase(k, acqDepth) == 1 { PhaseFirst(k, acqDepth); }
  }

  /** The 12-bit increment that skips zero counts the commands modulo 4095. */
  lemma IdStep(n: nat)
    ensures SkipZero((IdOf(n) + 1) % ID_SPACE) == IdOf(n + 1)
    ensures SkipZero(IdOf(n)) == IdOf(n)
    ensures IdOf(n) == 1 && 0 < n ==> IdOf(n - 1) == ID_SPACE - 1
  {
    var q, r := n / 4095, n % 4095;
    assert n == q * 4095 + r;
    if r == 4094 {
      DivModUnique(n + 1, 4095, q + 1, 0);
    } else {
      DivModUnique(n + 1, 4095, q, r + 1);
    }
    if r == 0 && 0 < n { DivModUnique(n - 1, 4095, q - 1, 4094); }
  }

  /** The phase recomputed at a command-ID wrap is the phase the driver has. */
  lemma RecomputeChangesNothing(a: Admin)
    requires Inv(a)
    ensures RecomputedPhase(a) == a.acqPhase
  {
    hide IsPow2;
    WrapHarmless(|a.subs|, |a.acq|);
  }

  lemma SubmitWaits(a: Admin, opcode: nat)
    requires Inv(a)
    ensures Waiting(Submit(a, opcode), Wraps(a)) && Submit(a, opcode).posted == a.posted
    ensures CommandId(a) == IdOf(|a.subs|)
    ensures Submit(a, opcode).acqHead == a.acqHead && Submit(a, opcode).acqPhase == a.acqPhase
  {
    hide IsPow2, Phase, IdOf;
    RecomputeChangesNothing(a);
    SubmitCounts(a, opcode);
    SubmitTold(a, opcode);
    SubmitSlots(a, opcode);
  }

  lemma SubmitCounts(a: Admin, opcode: nat)
    requires Inv(a)
    ensures Counts(Submit(a, opcode), |a.subs|) && CommandId(a) == IdOf(|a.subs|)
    ensures Wraps(a) ==> IdOf(|a.subs|) == 1 && 0 < |a.subs|
    ensures Wraps(a) ==> |a.posted| == |a.subs|
  {
    hide IsPow2, Phase, IdOf, Told, Blank;
    IdStep(|a.subs|);
    RecomputeChangesNothing(a);
    CounterStep(|a.subs|, |a.aq|);
  }

  lemma SubmitTold(a: Admin, opcode: nat)
    requires Inv(a)
    ensures Told(Submit(a, opcode))
  {
    hide IsPow2, Phase, IdOf, Blank, RecomputedPhase;
    var n, d, b := |a.subs|, |a.aq|, Submit(a, opcode);
    IdStep(n);
    WrapHarmless(n, d);
    forall k | |b.posted| <= k < |b.subs| ensures b.aq[k % d] == b.subs[k] {
      if k < n { SlotsDiffer(k, n, d); }
    }
  }

  lemma SubmitSlots(a: Admin, opcode: nat)
    requires Inv(a)
    ensures var b := Submit(a, opcode);
            Blank(b, |b.subs|, |b.acq| - 1) && SlotOf(b, |a.subs|, Wraps(a))
  {
    hide IsPow2, Phase, IdOf, Told, RecomputedPhase, CommandId;
    var n, d, b := |a.subs|, |a.acq|, Submit(a, opcode);
    WrapHarmless(n, d);
    forall k | n + 1 <= k < n + d ensures b.acq[k % d].phase != Phase(k, d) {
      SlotsDiffer(n, k, d);
      assert a.acq[k % d].phase != Phase(k, d);
    }
    assert a.acq[n % d].phase != Phase(n, d);
  }

  lemma PostWaits(a: Admin, status: nat, zeroed: bool)
    requires Waiting(a, zeroed)
    ensures var b := Post(a, status);
            Waiting(b, zeroed) && b.subs == a.subs && |a.posted| <= |b.posted| && b.acqHead == a.acqHead
  {
    if |a.posted| < |a.subs| {
      hide IsPow2, Phase, IdOf;
      PostCounts(a, status, zeroed);
      PostTold(a, status, zeroed);
      PostSlots(a, status, zeroed);
    }
  }

  lemma PostCounts(a: Admin, status: nat, zeroed: bool)
    requires Waiting(a, zeroed) && |a.posted| < |a.subs|
    ensures Counts(Post(a, status), |a.subs| - 1)
    ensures Post(a, status).posted == a.posted + [AcqEntry(Phase(|a.posted|, |a.acq|), IdOf(|a.posted|), status)]
    ensures Post(a, status).acq == a.acq[|a.posted| % |a.acq| := Post(a, status).posted[|a.posted|]]
  {
    hide IsPow2, Phase, IdOf, Blank, SlotOf;
    var p := |a.posted|;
    CounterStep(p, |a.acq|);
    WrapHarmless(p, |a.acq|);
    WrapHarmless(p, |a.aq|);
    assert a.aq[p % |a.aq|] == a.subs[p];
  }

  lemma PostTold(a: Admin, status: nat, zeroed: bool)
    requires Waiting(a, zeroed) && |a.posted| < |a.subs|
    ensures Told(Post(a, status))
  {
    hide IsPow2, Phase, IdOf, Blank, SlotOf;
    PostCounts(a, status, zeroed);
  }

  lemma PostSlots(a: Admin, status: nat, zeroed: bool)
    requires Waiting(a, zeroed) && |a.posted| < |a.subs|
    ensures var b, n := Post(a, status), |a.subs| - 1;
            Blank(b, n + 1, |b.acq| - 1) && SlotOf(b, n, zeroed)
  {
    hide IsPow2, Phase, IdOf, Told;
    PostCounts(a, status, zeroed);
    var b, n, p, d := Post(a, status), |a.subs| - 1, |a.posted|, |a.acq|;
    forall k | n + 1 <= k < n + d ensures b.acq[k % d].phase != Phase(k, d) {
      if k < p + d { SlotsDiffer(p, k, d); } else { PhaseNextPass(p, d); }
      assert a.acq[k % d].phase != Phase(k, d);
    }
    if p < n { SlotsDiffer(p, n, d); }
  }

  lemma {:induction false} PostsWait(a: Admin, statuses: seq<nat>, zeroed: bool)
    requires Waiting(a, zeroed)
    ensures var b := Posts(a, statuses);
            Waiting(b, zeroed) && b.subs == a.subs && |a.posted| <= |b.posted| && b.acqHead == a.acqHead
    decreases |statuses|
  {
    hide Waiting, Post;
    if statuses != [] {
      PostWaits(a, statuses[0], zeroed);
      PostsWait(Post(a, statuses[0]), statuses[1..], zeroed);
    }
  }

  /** The awaited slot matches exactly when the device has answered, or when
      the slot was cleared and the awaited phase bit is 0. */
  lemma MatchMeans(a: Admin, zeroed: bool)
    requires Waiting(a, zeroed)
    ensures var n := |a.subs| - 1;
            && (Head(a).phase == a.acqPhase <==> n < |a.posted| || (zeroed && a.acqPhase == 0))
            && a.acqPhase == Phase(n, |a.acq|)
            && (n < |a.posted| ==> Head(a) == a.posted[n] && Head(a).id == IdOf(n))
            && (n >= |a.posted| && Head(a).phase == a.acqPhase ==> Head(a) == NO_ENTRY)
  {
    hide IsPow2, Phase, Blank;
    WrapHarmless(|a.subs| - 1, |a.acq|);
  }

  lemma {:induction false} AwaitMeans(a: Admin, polls: seq<seq<nat>>, zeroed: bool)
    requires Waiting(a, zeroed)
    ensures var (b, found) := Await(a, polls);
            && Waiting(b, zeroed) && b.subs == a.subs && b.acqHead == a.acqHead
            && (found ==> Head(b).phase == b.acqPhase)
            && (!found && polls != [] ==> |b.posted| < |b.subs| && !(zeroed && b.acqPhase == 0))
            && (found && |b.posted| < |b.subs| ==> zeroed && b.acqPhase == 0 && b == Posts(a, polls[0]))
    decreases |polls|
  {
    hide Waiting, Posts, Head;
    if polls != [] {
      var b := Posts(a, polls[0]);
      PostsWait(a, polls[0], zeroed);
      MatchMeans(b, zeroed);
      if Head(b).phase != b.acqPhase {
        AwaitMeans(b, polls[1..], zeroed);
        PhaseOfWait(b, zeroed);
        PhaseOfWait(Await(b, polls[1..]).0, zeroed);
      }
    }
  }

  /** The awaited phase bit depends only on the number of commands. */
  lemma PhaseOfWait(a: Admin, zeroed: bool)
    requires Waiting(a, zeroed)
    ensures a.acqPhase == Phase(|a.subs| - 1, |a.acq|)
  {
  }

  lemma FinishInv(a: Admin, zeroed: bool, id: nat)
    requires Waiting(a, zeroed) && Head(a).phase == a.acqPhase
    ensures var b := Finish(a, id).0; Inv(b) && b.subs == a.subs && b.posted == a.posted
  {
    hide IsPow2, Phase, IdOf, Told;
    var b, n, d := Finish(a, id).0, |a.subs| - 1, |a.acq|;
    FinishTold(a, id);
    FinishLag(a, zeroed);
    CounterStep(n, d);
    WrapHarmless(n, d);
    PhaseNextPass(n, d);
    forall k | n + 1 <= k < n + 1 + d ensures b.acq[k % d].phase != Phase(k, d) {
      if k < n + d { assert a.acq[k % d].phase != Phase(k, d); }
    }
  }

  lemma FinishTold(a: Admin, id: nat)
    requires Shape(a) && Told(a)
    ensures Told(Finish(a, id).0)
  {
  }

  lemma FinishLag(a: Admin, zeroed: bool)
    requires Waiting(a, zeroed) && Head(a).phase == a.acqPhase
    ensures |a.posted| == |a.subs| || (|a.posted| == |a.subs| - 1 && IdOf(|a.subs| - 1) == 1)
  {
    MatchMeans(a, zeroed);
    IdStep(|a.subs| - 1);
  }

  // ---- one command ----

  /** Whether the device had answered command n at the first read. */
  ghost predicate AnsweredEarly(a: Admin, opcode: nat, polls: seq<seq<nat>>)
    requires Shape(a) && polls != []
  {
    |Posts(Submit(a, opcode), polls[0]).posted| > |a.subs|
  }

  /** What an admin command guarantees. It gets the ID of its number. An
      answer is the device's own completion of this command. The only other
      non-timeout outcome is a mismatch, and it happens exactly when the
      command ID wrapped, the awaited phase bit is 0 and the device had not
      answered at the first read: then the cleared slot itself matched. */
  lemma ExecSound(a: Admin, opcode: nat, polls: seq<seq<nat>>)
    requires Inv(a) && polls != []
    ensures var (b, r) := Exec(a, opcode, polls);
            var n := |a.subs|;
            && b.subs == a.subs + [AqEntry(a.aqPhase, IdOf(n), opcode)]
            && b.failed == (a.failed || r.TimedOut?)
            && (r.TimedOut? ==> |b.posted| <= n)
            && (!r.TimedOut? ==> Inv(b) && b.aqTail == b.acqHead)
            && (r.Answered? ==> n < |b.posted| && b.posted[n] == AcqEntry(a.acqPhase, IdOf(n), r.status))
            && (r.Mismatch? <==> Wraps(a) && a.acqPhase == 0 && !AnsweredEarly(a, opcode, polls))
  {
    hide Waiting, Await, Submit, Posts, IsPow2, Phase, IdOf, Inv, Shape, Head;
    var s, z := Submit(a, opcode), Wraps(a);
    SubmitWaits(a, opcode);
    SubmitFacts(a, opcode);
    AwaitMeans(s, polls, z);
    var (w, found) := Await(s, polls);
    PostsWait(s, polls[0], z);
    MatchMeans(Posts(s, polls[0]), z);
    AwaitFirst(s, polls);
    PhaseOfWait(s, z);
    PhaseOfWait(w, z);
    AwaitFailed(s, polls);
    if found {
      MatchMeans(w, z);
      FinishInv(w, z, CommandId(a));
      IndexesMeet(Finish(w, CommandId(a)).0);
      IdPositive(|a.subs|);
    }
  }

  lemma SubmitFacts(a: Admin, opcode: nat)
    requires Inv(a)
    ensures Submit(a, opcode).subs == a.subs + [AqEntry(a.aqPhase, IdOf(|a.subs|), opcode)]
    ensures Submit(a, opcode).failed == a.failed && |Submit(a, opcode).acq| == |a.acq|
    ensures a.acqPhase == Phase(|a.subs|, |a.acq|)
  {
    IdStep(|a.subs|);
  }

  lemma IndexesMeet(a: Admin)
    requires Inv(a)
    ensures a.aqTail == a.acqHead
  {
  }

  lemma IdPositive(n: nat)
    ensures 0 < IdOf(n) < ID_SPACE
  {
  }

  /** A first read that finds nothing means no cleared slot matched. */
  lemma AwaitFirst(a: Admin, polls: seq<seq<nat>>)
    requires Shape(a) && polls != []
    ensures var b := Posts(a, polls[0]);
            Head(b).phase == b.acqPhase ==> Await(a, polls) == (b, true)
  {
  }

  lemma {:induction false} AwaitFailed(a: Admin, polls: seq<seq<nat>>)
    requires Shape(a)
    ensures Await(a, polls).0.failed == a.failed
    decreases |polls|
  {
    if polls != [] {
      PostsFailed(a, polls[0]);
      AwaitFailed(Posts(a, polls[0]), polls[1..]);
    }
  }

  lemma {:induction false} PostsFailed(a: Admin, statuses: seq<nat>)
    requires Shape(a)
    ensures Posts(a, statuses).failed == a.failed
    decreases |statuses|
  {
    if statuses != [] { PostsFailed(Post(a, statuses[0]), statuses[1..]); }
  }

  /** The first wrap of the command ID falls on command 4095. It awaits phase
      bit 0 at every depth up to 2048, so there a device that has not answered
      by the first read causes a mismatch. */
  lemma FirstWrapAwaitsZero(d: nat)
    requires DepthOk(d)
    ensures IdOf(4095) == 1 && (Phase(4095, d) == 0 <==> d <= 2048)
  {
    hide IsPow2, Phase;
    if d <= 2048 {
      WrapInOddPass(d);
    } else {
      NoPow2Between(d);
      PhaseFirst(4095, d);
    }
  }

  lemma WrapInOddPass(d: nat)
    requires IsPow2(d) && d <= 2048
    ensures Phase(4095, d) == 0
  {
    Pow2IsPow2(12);
    assert Pow2(12) == 4096 by { assert Pow2(4) == 16; assert Pow2(8) == 256; }
    assert IsPow2(2 * d) by { assert 2 * d / 2 == d; }
    Pow2Divides(2 * d, 4096);
    hide IsPow2, Pow2;
    EndOfPass(4096, d);
  }

  /** The last index before a multiple of two passes lies in an odd pass. */
  lemma EndOfPass(n: nat, d: nat)
    requires 0 < d && 0 < n && n % (2 * d) == 0
    ensures Phase(n - 1, d) == 0
  {
    var h := n / (2 * d);
    assert n == h * (2 * d);
    assert n == 2 * h * d by { assert h * (2 * d) == 2 * h * d; }
    LastOfPass(n, d, 2 * h);
  }

  lemma LastOfPass(n: nat, d: nat, k: nat)
    requires 0 < d && 0 < n && n == k * d
    ensures 0 < k && (n - 1) / d == k - 1
  {
    assert n - 1 == (k - 1) * d + (d - 1);
    DivModUnique(n - 1, d, k - 1, d - 1);
  }

  lemma NoPow2Between(d: nat)
    requires IsPow2(d) && 2048 < d
    ensures 4096 <= d
  {
    Pow2IsPow2(11);
    assert Pow2(11) == 2048 by { assert Pow2(3) == 8; assert Pow2(7) == 128; }
    Pow2Divides(2048, d);
  }

  // ---- any number of commands ----

  datatype Command = Command(opcode: nat, polls: seq<seq<nat>>)

  datatype Result = Done(outcome: Outcome) | NoDevice

  /** `ena_admin_exec_cmd` without recovery: after a timeout every command is
      refused until the queues are set up again. */
  function ExecCmd(a: Admin, c: Command): (r: (Admin, Result))
    requires Shape(a)
    ensures SameRings(a, r.0)
  {
    if a.failed then (a, NoDevice)
    else
      var (b, out) := Exec(a, c.opcode, c.polls);
      (b, Done(out))
  }

  function Run(a: Admin, cmds: seq<Command>): (r: (Admin, seq<Result>))
    requires Shape(a)
    ensures SameRings(a, r.0) && |r.1| == |cmds|
    decreases |cmds|
  {
    if cmds == [] then (a, [])
    else
      var n := |cmds| - 1;
      var (b, results) := Run(a, cmds[..n]);
      var (c, last) := ExecCmd(b, cmds[n]);
      (c, results + [last])
  }

  lemma {:induction false} PostsGrow(a: Admin, statuses: seq<nat>)
    requires Shape(a)
    ensures a.posted <= Posts(a, statuses).posted && Posts(a, statuses).subs == a.subs
    decreases |statuses|
  {
    if statuses != [] { PostsGrow(Post(a, statuses[0]), statuses[1..]); }
  }

  lemma {:induction false} AwaitGrows(a: Admin, polls: seq<seq<nat>>)
    requires Shape(a)
    ensures a.posted <= Await(a, polls).0.posted && Await(a, polls).0.subs == a.subs
    decreases |polls|
  {
    if polls != [] {
      PostsGrow(a, polls[0]);
      AwaitGrows(Posts(a, polls[0]), polls[1..]);
    }
  }

  lemma ExecGrows(a: Admin, opcode: nat, polls: seq<seq<nat>>)
    requires Shape(a)
    ensures a.posted <= Exec(a, opcode, polls).0.posted
    ensures Exec(a, opcode, polls).0.subs == Submit(a, opcode).subs
  {
    AwaitGrows(Submit(a, opcode), polls);
  }

  /** What a run of commands from a fresh queue guarantees about each: the
      i-th command carries ID 1 + i mod 4095, an answer is the device's own
      completion of it, and nothing is executed after a timeout. */
  ghost predicate RunOk(a: Admin, cmds: seq<Command>, results: seq<Result>) {
    && |results| == |cmds|
    && (!a.failed ==> Inv(a) && |a.subs| == |cmds| && forall i :: 0 <= i < |cmds| ==> Ran(results[i]))
    && (forall i :: 0 <= i < |cmds| && results[i].Done? ==> CommandOk(a, i, cmds[i], results[i].outcome))
    && (forall i, j :: 0 <= i < j < |cmds| && !Ran(results[i]) ==> results[j] == NoDevice)
  }

  ghost predicate Ran(r: Result) {
    r.Done? && !r.outcome.TimedOut?
  }

  ghost predicate CommandOk(a: Admin, i: nat, c: Command, out: Outcome) {
    && i < |a.subs| && a.subs[i].id == IdOf(i) && a.subs[i].opcode == c.opcode
    && (out.Answered? ==> i < |a.posted| && a.posted[i].id == IdOf(i) && a.posted[i].status == out.status)
  }

  lemma {:induction false} RunSound(aqDepth: nat, acqDepth: nat, cmds: seq<Command>)
    requires DepthOk(aqDepth) && DepthOk(acqDepth) && forall i :: 0 <= i < |cmds| ==> cmds[i].polls != []
    ensures var (a, results) := Run(Init(aqDepth, acqDepth), cmds); RunOk(a, cmds, results)
    decreases |cmds|
  {
    InitInv(aqDepth, acqDepth);
    if cmds != [] {
      var n := |cmds| - 1;
      RunSound(aqDepth, acqDepth, cmds[..n]);
      var (a, results) := Run(Init(aqDepth, acqDepth), cmds[..n]);
      RunStep(a, cmds[..n], results, cmds[n]);
      assert cmds == cmds[..n] + [cmds[n]];
    }
  }

  lemma RunStep(a: Admin, cmds: seq<Command>, results: seq<Result>, c: Command)
    requires Shape(a) && RunOk(a, cmds, results) && c.polls != []
    ensures var (b, r) := ExecCmd(a, c); RunOk(b, cmds + [c], results + [r])
  {
    hide Inv, Exec, IdOf;
    var (b, r) := ExecCmd(a, c);
    if !a.failed {
      ExecSound(a, c.opcode, c.polls);
      ExecGrows(a, c.opcode, c.polls);
    }
    forall i | 0 <= i <= |cmds| && (results + [r])[i].Done?
      ensures CommandOk(b, i, (cmds + [c])[i], (results + [r])[i].outcome)
    {
      if i < |cmds| { assert CommandOk(a, i, cmds[i], results[i].outcome); }
    }
  }

  // ---- commands and recoveries ----

  /** A command, and whether a recovery sets the queues up again should it time
      out. */
  datatype Turn = Turn(cmd: Command, rebuilt: bool)

  function Drive(aqDepth: nat, acqDepth: nat, turns: seq<Turn>): (a: Admin)
    requires DepthOk(aqDepth) && DepthOk(acqDepth)
    ensures Shape(a)
    decreases |turns|
  {
    if turns == [] then Init(aqDepth, acqDepth)
    else
      var n := |turns| - 1;
      var (b, r) := ExecCmd(Drive(aqDepth, acqDepth, turns[..n]), turns[n].cmd);
      if r == Done(TimedOut) && turns[n].rebuilt then Init(aqDepth, acqDepth) else b
  }

  /** How many commands were submitted since the queues were last set up. */
  function Since(aqDepth: nat, acqDepth: nat, turns: seq<Turn>): nat
    requires DepthOk(aqDepth) && DepthOk(acqDepth)
    decreases |turns|
  {
    if turns == [] then 0
    else
      var n := |turns| - 1;
      var r := ExecCmd(Drive(aqDepth, acqDepth, turns[..n]), turns[n].cmd).1;
      if r == Done(TimedOut) && turns[n].rebuilt then 0
      else Since(aqDepth, acqDepth, turns[..n]) + if r == NoDevice then 0 else 1
  }

  lemma {:induction false} DriveInv(aqDepth: nat, acqDepth: nat, turns: seq<Turn>)
    requires DepthOk(aqDepth) && DepthOk(acqDepth) && forall i :: 0 <= i < |turns| ==> turns[i].cmd.polls != []
    ensures var a := Drive(aqDepth, acqDepth, turns);
            !a.failed ==> Inv(a) && |a.subs| == Since(aqDepth, acqDepth, turns)
    decreases |turns|
  {
    hide Inv, Exec, Shape, DepthOk;
    if turns == [] {
      InitInv(aqDepth, acqDepth);
    } else {
      hide Init;
      var n := |turns| - 1;
      DriveInv(aqDepth, acqDepth, turns[..n]);
      InitInv(aqDepth, acqDepth);
      FreshQueue(aqDepth, acqDepth);
      var a := Drive(aqDepth, acqDepth, turns[..n]);
      if !a.failed { ExecSound(a, turns[n].cmd.opcode, turns[n].cmd.polls); }
    }
  }

  lemma FreshQueue(aqDepth: nat, acqDepth: nat)
    ensures Init(aqDepth, acqDepth).subs == [] && !Init(aqDepth, acqDepth).failed
  {
  }

  /** Over any number of commands and recoveries: a command is refused exactly
      when an earlier one timed out and no recovery set the queues up since;
      otherwise it gets the ID of its number since then, an answer is the device's
      own completion of it, and a mismatch is a cleared slot that matched. */
  lemma DriveSound(aqDepth: nat, acqDepth: nat, turns: seq<Turn>, c: Command)
    requires DepthOk(aqDepth) && DepthOk(acqDepth) && forall i :: 0 <= i < |turns| ==> turns[i].cmd.polls != []
    requires c.polls != []
    ensures var a := Drive(aqDepth, acqDepth, turns);
            var n := Since(aqDepth, acqDepth, turns);
            var (b, r) := ExecCmd(a, c);
            && (r == NoDevice <==> a.failed)
            && (r.Done? ==>
                && n < |b.subs| && b.subs[n].id == IdOf(n) && b.subs[n].opcode == c.opcode
                && (r.outcome.Answered? ==>
                    n < |b.posted| && b.posted[n].id == IdOf(n) && b.posted[n].status == r.outcome.status)
                && (r.outcome.Mismatch? <==> Wraps(a) && a.acqPhase == 0 && !AnsweredEarly(a, c.opcode, c.polls)))
  {
    hide Inv, Exec, IdOf, Drive, Since;
    DriveInv(aqDepth, acqDepth, turns);
    var a := Drive(aqDepth, acqDepth, turns);
    if !a.failed { ExecSound(a, c.opcode, c.polls); }
  }

  // ---- a late answer at the first wrap ----

  /** A command that the device answers before the first read is answered. */
  lemma PromptExec(a: Admin, opcode: nat, status: nat)
    requires Inv(a) && |a.posted| == |a.subs| && !a.failed
    ensures var (b, r) := Exec(a, opcode, [[status]]);
            && r == Answered(status)
            && Inv(b) && !b.failed && |b.posted| == |b.subs| == |a.subs| + 1
  {
    hide Inv, Submit, Post, Head, Finish, Waiting, Phase, IsPow2, IdOf;
    var s := Submit(a, opcode);
    SubmitWaits(a, opcode);
    SubmitFacts(a, opcode);
    ExecSound(a, opcode, [[status]]);
    OnePost(s, status);
    PostOnce(s, status, Wraps(a));
    OnePoll(a, opcode, [status]);
  }

  lemma OnePost(a: Admin, status: nat)
    requires Shape(a)
    ensures Posts(a, [status]) == Post(a, status)
  {
  }

  lemma PostOnce(a: Admin, status: nat, zeroed: bool)
    requires Waiting(a, zeroed) && |a.posted| < |a.subs|
    ensures Post(a, status).posted == a.posted + [AcqEntry(Phase(|a.posted|, |a.acq|), IdOf(|a.posted|), status)]
  {
    PostCounts(a, status, zeroed);
  }

  lemma OnePoll(a: Admin, opcode: nat, answers: seq<nat>)
    requires Shape(a)
    ensures Exec(a, opcode, [answers]).0.posted == Posts(Submit(a, opcode), answers).posted
  {
    hide Submit, Posts, Post, Shape, Head;
    var s := Submit(a, opcode);
    assert Await(Posts(s, answers), []).0 == Posts(s, answers);
    assert Await(s, [answers]).0 == Posts(s, answers);
  }

  /** A device that answers each of n commands before the first read. */
  lemma {:induction false} PromptRun(aqDepth: nat, acqDepth: nat, n: nat, c: Command)
    requires DepthOk(aqDepth) && DepthOk(acqDepth) && c.polls == [[0]]
    ensures var (a, results) := Run(Init(aqDepth, acqDepth), Fill(n, c));
            && Inv(a) && !a.failed && |a.posted| == |a.subs| == n && |a.acq| == acqDepth
            && results == Fill(n, Done(Answered(0)))
  {
    hide Inv, Exec, Run, Shape, DepthOk, IsPow2;
    InitInv(aqDepth, acqDepth);
    if n == 0 {
      RunNone(Init(aqDepth, acqDepth), Fill(n, c));
    } else {
      hide Init, Fill;
      PromptRun(aqDepth, acqDepth, n - 1, c);
      RunLast(Init(aqDepth, acqDepth), Fill(n - 1, c), c);
      FillLast(n - 1, c);
      FillLast(n - 1, Done(Answered(0)));
      PromptExec(Run(Init(aqDepth, acqDepth), Fill(n - 1, c)).0, c.opcode, 0);
    }
  }

  lemma RunNone(a: Admin, cmds: seq<Command>)
    requires Shape(a) && |cmds| == 0
    ensures Run(a, cmds) == (a, [])
  {
  }

  /** At the first wrap of the command ID a late answer is reported as a
      mismatch exactly up to depth 2048: after 4095 commands that the device
      answered at once, a command it has not answered by the only read finds
      its own cleared slot. */
  lemma LateAnswerMismatch(aqDepth: nat, acqDepth: nat, c: Command, late: Command)
    requires DepthOk(aqDepth) && DepthOk(acqDepth) && c.polls == [[0]] && late.polls == [[]]
    ensures Run(Init(aqDepth, acqDepth), Fill(4095, c) + [late]).1[4095]
         == Done(if acqDepth <= 2048 then Mismatch else TimedOut)
  {
    hide Inv, Exec, IdOf, Phase, IsPow2;
    InitInv(aqDepth, acqDepth);
    PromptRun(aqDepth, acqDepth, 4095, c);
    var a := Run(Init(aqDepth, acqDepth), Fill(4095, c)).0;
    RunLast(Init(aqDepth, acqDepth), Fill(4095, c), late);
    ExecSound(a, late.opcode, [[]]);
    FirstWrapAwaitsZero(acqDepth);
    AtFirstWrap(a, late.opcode);
    OnePoll(a, late.opcode, []);
  }

  lemma RunLast(a: Admin, cmds: seq<Command>, c: Command)
    requires Shape(a)
    ensures var (b, r) := ExecCmd(Run(a, cmds).0, c); Run(a, cmds + [c]) == (b, Run(a, cmds).1 + [r])
  {
    assert (cmds + [c])[..|cmds|] == cmds;
  }

  lemma FillLast<T>(n: nat, x: T)
    ensures Fill(n + 1, x) == Fill(n, x) + [x]
  {
  }

  lemma AtFirstWrap(a: Admin, opcode: nat)
    requires Inv(a) && |a.subs| == |a.posted| == 4095
    ensures Wraps(a) && a.acqPhase == Phase(4095, |a.acq|)
    ensures Submit(a, opcode).posted == a.posted && Posts(Submit(a, opcode), []) == Submit(a, opcode)
  {
  }
}
