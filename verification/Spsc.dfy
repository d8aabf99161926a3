/** The single-producer single-consumer ring that hands file descriptors from
    one core to another, as the individual steps of both threads, in any
    interleaving. */
module Spsc {
  import opened Bits
  import opened RingTypes

  const CAP := 1024

  /** Number of values of a 64-bit `size_t`. */
  const WORD := 0x1_0000_0000_0000_0000

  /** Where the producer is inside `spsc_ring_push`. `pops` is the number of
      pops at the moment it loaded the tail. */
  datatype Producer =
    | PIdle
    | PHead(fd: int, h: nat)
    | PBoth(fd: int, h: nat, t: nat, pops: nat)
    | PWriting(fd: int, h: nat)
    | PWritten(fd: int, h: nat)

  /** Where the consumer is inside `spsc_ring_pop`. */
  datatype Consumer =
    | CIdle
    | CTail(t: nat)
    | CBoth(t: nat, h: nat, pushes: nat)
    | CReading(t: nat)
    | CRead(t: nat, fd: int)

  /** `pushed` and `popped` list the values of the calls that published. */
  datatype Ring = Ring(head: nat, tail: nat, data: seq<int>, prod: Producer, cons: Consumer,
                       pushed: seq<int>, popped: seq<int>)

  datatype Step =
    | PushCall(fd: int)   // load head
    | LoadTail
    | CheckFull
    | Scribble(v: int)    // the slot while its write is in progress
    | WriteSlot
    | PublishHead
    | PopCall             // load tail
    | LoadHead
    | CheckEmpty
    | ReadSlot
    | PublishTail

  function Init(data: seq<int>): Ring {
    Ring(0, 0, data, PIdle, CIdle, [], [])
  }

  /** `h - t` in 64-bit arithmetic. */
  function Distance(h: nat, t: nat): nat {
    (h - t) % WORD
  }

  /** One step; a step that the thread is not at changes nothing. */
  function Apply(s: Ring, step: Step): Ring
    requires |s.data| == CAP
  {
    match step
    case PushCall(fd) => if s.prod.PIdle? then s.(prod := PHead(fd, s.head)) else s
    case LoadTail => if s.prod.PHead? then s.(prod := PBoth(s.prod.fd, s.prod.h, s.tail, |s.popped|)) else s
    case CheckFull =>
      if !s.prod.PBoth? then s
      else if Distance(s.prod.h, s.prod.t) >= CAP then s.(prod := PIdle)
      else s.(prod := PWriting(s.prod.fd, s.prod.h))
    case Scribble(v) => if s.prod.PWriting? then s.(data := s.data[s.prod.h % CAP := v]) else s
    case WriteSlot =>
      if s.prod.PWriting?
      then s.(data := s.data[s.prod.h % CAP := s.prod.fd], prod := PWritten(s.prod.fd, s.prod.h))
      else s
    case PublishHead =>
      if s.prod.PWritten? then s.(head := (s.prod.h + 1) % WORD, prod := PIdle, pushed := s.pushed + [s.prod.fd]) else s
    case PopCall => if s.cons.CIdle? then s.(cons := CTail(s.tail)) else s
    case LoadHead => if s.cons.CTail? then s.(cons := CBoth(s.cons.t, s.head, |s.pushed|)) else s
    case CheckEmpty =>
      if !s.cons.CBoth? then s
      else if s.cons.h == s.cons.t then s.(cons := CIdle)
      else s.(cons := CReading(s.cons.t))
    case ReadSlot => if s.cons.CReading? then s.(cons := CRead(s.cons.t, s.data[s.cons.t % CAP])) else s
    case PublishTail =>
      if s.cons.CRead? then s.(tail := (s.cons.t + 1) % WORD, cons := CIdle, popped := s.popped + [s.cons.fd]) else s
  }

  // ---- invariant ----

  ghost predicate Inv(s: Ring) {
    var p, c := |s.pushed|, |s.popped|;
    && |s.data| == CAP
    && s.head == p % WORD && s.tail == c % WORD
    && c <= p <= c + CAP
    && s.popped == s.pushed[..c]
    && (forall k :: c <= k < p ==> s.data[k % CAP] == s.pushed[k])
    && ProducerOk(s) && ConsumerOk(s)
  }

  ghost predicate ProducerOk(s: Ring)
    requires |s.data| == CAP
  {
    var p, c := |s.pushed|, |s.popped|;
    match s.prod
    case PIdle => true
    case PHead(_, h) => h == p % WORD
    case PBoth(_, h, t, pops) => h == p % WORD && t == pops % WORD && pops <= c && p <= pops + CAP
    case PWriting(_, h) => h == p % WORD && p < c + CAP
    case PWritten(fd, h) => h == p % WORD && p < c + CAP && s.data[p % CAP] == fd
  }

  ghost predicate ConsumerOk(s: Ring)
    requires |s.data| == CAP
  {
    var p, c := |s.pushed|, |s.popped|;
    match s.cons
    case CIdle => true
    case CTail(t) => t == c % WORD
    case CBoth(t, h, pushes) => t == c % WORD && h == pushes % WORD && c <= pushes <= p && pushes <= c + CAP
    case CReading(t) => t == c % WORD && c < p
    case CRead(t, fd) => t == c % WORD && c < p && fd == s.pushed[c]
  }

  // ---- index arithmetic ----

  /** The 64-bit counter selects the slot of the unbounded count. */
  lemma SlotOf(n: nat)
    ensures (n % WORD) % CAP == n % CAP
  {
    ModOfMultiple(n, CAP, WORD);
  }

  lemma NextWord(n: nat)
    ensures (n % WORD + 1) % WORD == (n + 1) % WORD
  {
  }

  /** The 64-bit difference of two counters less than a word apart is the
      difference of the counts. */
  lemma DistanceOf(p: nat, c: nat)
    requires c <= p < c + WORD
    ensures Distance(p % WORD, c % WORD) == p - c
  {
    var a, b := p / WORD, c / WORD;
    assert p == a * WORD + p % WORD && c == b * WORD + c % WORD;
    var d := p % WORD - c % WORD;
    if d >= 0 {
      DivModUnique(d, WORD, 0, d);
      assert p - c == (a - b) * WORD + d;
      MulOrder(a, b, WORD);
      MulOrder(b, a, WORD);
    } else {
      DivModUnique(d, WORD, -1, d + WORD);
      assert p - c == (a - b - 1) * WORD + (d + WORD);
      MulOrder(a - 1, b, WORD);
      MulOrder(b, a - 1, WORD);
    }
  }

  // ---- every step keeps it ----

  lemma ProducerStepKeeps(s: Ring, step: Step)
    requires Inv(s) && (step.PushCall? || step.LoadTail? || step.CheckFull?)
    ensures Inv(Apply(s, step))
  {
    if step.CheckFull? && s.prod.PBoth? { DistanceOf(|s.pushed|, s.prod.pops); }
  }

  lemma WriteKeeps(s: Ring, v: int)
    requires Inv(s) && s.prod.PWriting?
    ensures Inv(Apply(s, Scribble(v))) && Inv(Apply(s, WriteSlot))
  {
    var p, c := |s.pushed|, |s.popped|;
    SlotOf(p);
    forall k | c <= k < p ensures k % CAP != p % CAP { SlotsDiffer(k, p, CAP); }
  }

  lemma PublishHeadKeeps(s: Ring)
    requires Inv(s)
    ensures Inv(Apply(s, PublishHead))
  {
    NextWord(|s.pushed|);
  }

  lemma ConsumerStepKeeps(s: Ring, step: Step)
    requires Inv(s) && (step.PopCall? || step.LoadHead? || step.CheckEmpty? || step.ReadSlot?)
    ensures Inv(Apply(s, step))
  {
    SlotOf(|s.popped|);
    if step.CheckEmpty? && s.cons.CBoth? { DistanceOf(s.cons.pushes, |s.popped|); }
  }

  lemma PublishTailKeeps(s: Ring)
    requires Inv(s)
    ensures Inv(Apply(s, PublishTail))
  {
    NextWord(|s.popped|);
  }

  lemma StepKeeps(s: Ring, step: Step)
    requires Inv(s)
    ensures Inv(Apply(s, step))
  {
    hide Inv, Apply;
    match step
    case Scribble(v) => if s.prod.PWriting? { WriteKeeps(s, v); } else { NotAt(s, step); }
    case WriteSlot => if s.prod.PWriting? { WriteKeeps(s, 0); } else { NotAt(s, step); }
    case PublishHead => PublishHeadKeeps(s);
    case PublishTail => PublishTailKeeps(s);
    case PushCall(_) => ProducerStepKeeps(s, step);
    case LoadTail => ProducerStepKeeps(s, step);
    case CheckFull => ProducerStepKeeps(s, step);
    case _ => ConsumerStepKeeps(s, step);
  }

  lemma NotAt(s: Ring, step: Step)
    requires Inv(s) && !s.prod.PWriting? && (step.Scribble? || step.WriteSlot?)
    ensures Apply(s, step) == s
  {
  }

  /** The state after any interleaving, from a ring with any slot contents. */
  ghost function Run(data: seq<int>, steps: seq<Step>): (s: Ring)
    requires |data| == CAP
    ensures Inv(s)
    decreases |steps|
  {
    hide Apply;
    if steps == [] then Init(data)
    else
      var s := Run(data, steps[..|steps| - 1]);
      StepKeeps(s, steps[|steps| - 1]);
      Apply(s, steps[|steps| - 1])
  }

  // ---- theorems ----

  /** In every interleaving the popped values are a prefix of the pushed ones,
      the occupancy stays within the capacity, and the consumer is never at a
      slot that the producer is writing. */
  lemma SpscSafe(data: seq<int>, steps: seq<Step>)
    requires |data| == CAP
    ensures var s := Run(data, steps);
            && s.popped <= s.pushed
            && 0 <= |s.pushed| - |s.popped| <= CAP
            && Distance(s.head, s.tail) == |s.pushed| - |s.popped|
            && (s.cons.CReading? && (s.prod.PWriting? || s.prod.PWritten?) ==> s.cons.t % CAP != s.prod.h % CAP)
  {
    var s := Run(data, steps);
    var p, c := |s.pushed|, |s.popped|;
    DistanceOf(p, c);
    SlotOf(p);
    SlotOf(c);
    if s.cons.CReading? && (s.prod.PWriting? || s.prod.PWritten?) { SlotsDiffer(c, p, CAP); }
  }

  /** A push is refused exactly when the ring was full at the moment it loaded
      the tail, and a pop exactly when it was empty when it loaded the head. */
  lemma RefusedExactlyWhen(data: seq<int>, steps: seq<Step>)
    requires |data| == CAP
    ensures var s := Run(data, steps);
            && (s.prod.PBoth? ==> (Apply(s, CheckFull).prod.PIdle? <==> |s.pushed| - s.prod.pops == CAP))
            && (s.cons.CBoth? ==> (Apply(s, CheckEmpty).cons.CIdle? <==> s.cons.pushes == |s.popped|))
  {
    hide Inv, Apply;
    var s := Run(data, steps);
    if s.prod.PBoth? { PushRefused(s); }
    if s.cons.CBoth? { PopRefused(s); }
  }

  lemma PushRefused(s: Ring)
    requires Inv(s) && s.prod.PBoth?
    ensures Apply(s, CheckFull).prod.PIdle? <==> |s.pushed| - s.prod.pops == CAP
  {
    DistanceOf(|s.pushed|, s.prod.pops);
  }

  lemma PopRefused(s: Ring)
    requires Inv(s) && s.cons.CBoth?
    ensures Apply(s, CheckEmpty).cons.CIdle? <==> s.cons.pushes == |s.popped|
  {
    DistanceOf(s.cons.pushes, |s.popped|);
  }

  // ---- one call at a time ----

  /** `struct spsc_ring` with uninterrupted calls: a bounded FIFO. */
  class SpscRing {
    var head: nat
    var tail: nat
    const data: array<int>
    ghost var pushed: seq<int>
    ghost var popped: seq<int>

    ghost predicate Valid()
      reads this, data
    {
      Inv(Ring(head, tail, data[..], PIdle, CIdle, pushed, popped))
    }

    ghost function Contents(): seq<int>
      reads this
      requires |popped| <= |pushed|
    {
      pushed[|popped|..]
    }

    constructor ()
      ensures Valid() && Contents() == [] && fresh(data)
    {
      var slots := NewFilled(CAP, 0);
      data := slots;
      head, tail, pushed, popped := 0, 0, [], [];
    }

    method Push(fd: int) returns (ok: bool)
      requires Valid()
      modifies this, data
      ensures Valid() && ok == (|old(Contents())| < CAP)
      ensures Contents() == if ok then old(Contents()) + [fd] else old(Contents())
    {
      ghost var p, c := |pushed|, |popped|;
      DistanceOf(p, c);
      if (head - tail) % WORD >= CAP { return false; }
      SlotOf(p);
      NextWord(p);
      forall k | c <= k < p ensures k % CAP != p % CAP { SlotsDiffer(k, p, CAP); }
      data[head % CAP] := fd;
      head := (head + 1) % WORD;
      pushed := pushed + [fd];
      return true;
    }

    method Pop() returns (ok: bool, fd: int)
      requires Valid()
      modifies this
      ensures Valid() && ok == (old(Contents()) != [])
      ensures ok ==> old(Contents()) == [fd] + Contents()
      ensures !ok ==> Contents() == old(Contents())
    {
      ghost var p, c := |pushed|, |popped|;
      DistanceOf(p, c);
      fd := 0;
      if head == tail { return false, 0; }
      SlotOf(c);
      NextWord(c);
      fd := data[tail % CAP];
      tail := (tail + 1) % WORD;
      popped := popped + [fd];
      return true, fd;
    }
  }
}
