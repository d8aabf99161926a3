/** Reassembly of a stream of well-formed frames some of whose fragments are
    lost in the ring or refused by the receive loop. */
module FrameDrops {
  import opened RingTypes
  import opened Reassembly

  /** What became of a fragment: handed over, dropped by the ring, or refused
      by the bounds test. */
  datatype Mark = Taken | Lost | Refused
  datatype Piece = Piece(frag: Frag, mark: Mark)

  /** What the chain notices. */
  datatype Event = Gap | Refuse(nb: Netbuf) | Take(frag: Frag)

  function StepEvent(s: State, e: Event): State {
    match e
    case Gap => DropChain(s)
    case Refuse(nb) => DropChain(s.(released := s.released + [nb]))
    case Take(f) => Accept(s, f)
  }

  function StepAll(s: State, es: seq<Event>): State
    decreases |es|
  {
    if es == [] then s else StepAll(StepEvent(s, es[0]), es[1..])
  }

  function PollEvents(p: Poll): seq<Event> {
    (if p.dropped then [Gap] else []) +
    match p.got
    case Bad(nb) => [Refuse(nb)]
    case Good(f) => [Take(f)]
    case _ => []
  }

  function EventsOf(polls: seq<Poll>): seq<Event> {
    if polls == [] then [] else PollEvents(polls[0]) + EventsOf(polls[1..])
  }

  function PieceEvent(p: Piece): Event {
    match p.mark
    case Taken => Take(p.frag)
    case Lost => Gap
    case Refused => Refuse(p.frag.nb)
  }

  function PieceEvents(ps: seq<Piece>): (es: seq<Event>)
    ensures |es| == |ps|
  {
    seq(|ps|, i requires 0 <= i < |ps| => PieceEvent(ps[i]))
  }

  /** One poll reports any number of losses in a row as one gap, and a row of
      losses may be reported over several polls. */
  function Squash(es: seq<Event>): seq<Event> {
    if |es| < 2 then es
    else if es[0].Gap? && es[1].Gap? then Squash(es[1..])
    else [es[0]] + Squash(es[1..])
  }

  // ---- what each frame becomes ----

  function FragsOf(ps: seq<Piece>): (r: seq<Frag>)
    ensures |r| == |ps|
  {
    seq(|ps|, i requires 0 <= i < |ps| => ps[i].frag)
  }

  /** The number of fragments before the first that was not handed over. */
  function Intact(ps: seq<Piece>): (k: nat)
    ensures k <= |ps|
    ensures forall i :: 0 <= i < k ==> ps[i].mark == Taken
    ensures k < |ps| ==> ps[k].mark != Taken
  {
    if ps == [] || ps[0].mark != Taken then 0 else 1 + Intact(ps[1..])
  }

  function AloneOf(p: Piece): seq<seq<Frag>> {
    if p.mark == Taken then [[p.frag]] else []
  }

  function FreedOf(p: Piece): seq<Netbuf> {
    if p.mark == Refused then [p.frag.nb] else []
  }

  /** Every handed-over fragment as a chain of its own. */
  function Singles(ps: seq<Piece>): seq<seq<Frag>> {
    if ps == [] then [] else AloneOf(ps[0]) + Singles(ps[1..])
  }

  function RefusedBufs(ps: seq<Piece>): seq<Netbuf> {
    if ps == [] then [] else FreedOf(ps[0]) + RefusedBufs(ps[1..])
  }

  /** The chains returned for a frame: the whole frame, or, once a fragment is
      missing, each later one alone. */
  function Chains(frame: seq<Piece>): seq<seq<Frag>> {
    var k := Intact(frame);
    if k == |frame| then [FragsOf(frame)] else Singles(frame[k + 1..])
  }

  /** The buffers released for a frame: every refused one, and the fragments
      that arrived before the first missing one. */
  function Freed(frame: seq<Piece>): seq<Netbuf> {
    var k := Intact(frame);
    if k == |frame| then []
    else RefusedBufs([frame[k]]) + Bufs(FragsOf(frame[..k])) + RefusedBufs(frame[k + 1..])
  }

  function AllChains(frames: seq<seq<Piece>>): seq<seq<Frag>> {
    if frames == [] then [] else Chains(frames[0]) + AllChains(frames[1..])
  }

  function AllFreed(frames: seq<seq<Piece>>): seq<Netbuf> {
    if frames == [] then [] else Freed(frames[0]) + AllFreed(frames[1..])
  }

  // ---- events ----

  lemma {:induction false} StepSplits(s: State, a: seq<Event>, b: seq<Event>)
    ensures StepAll(s, a + b) == StepAll(StepAll(s, a), b)
    decreases |a|
  {
    if a == [] {
      assert a + b == b;
    } else {
      StepSplits(StepEvent(s, a[0]), a[1..], b);
      assert (a + b)[1..] == a[1..] + b;
    }
  }

  lemma StepOne(s: State, e: Event)
    ensures StepAll(s, [e]) == StepEvent(s, e)
  {
    assert [e][1..] == [];
  }

  lemma PassEvents(s: State, p: Poll)
    ensures Pass(s, p) == StepAll(s, PollEvents(p))
  {
    var gap: seq<Event> := if p.dropped then [Gap] else [];
    var rest: seq<Event> := match p.got case Bad(nb) => [Refuse(nb)] case Good(f) => [Take(f)] case _ => [];
    StepSplits(s, gap, rest);
    StepOne(s, Gap);
    if rest != [] { StepOne(StepAll(s, gap), rest[0]); }
  }

  lemma {:induction false} PassesEvents(s: State, polls: seq<Poll>)
    ensures Passes(s, polls) == StepAll(s, EventsOf(polls))
    decreases |polls|
  {
    if polls != [] {
      hide Pass, PollEvents;
      PassEvents(s, polls[0]);
      PassesEvents(Pass(s, polls[0]), polls[1..]);
      StepSplits(s, PollEvents(polls[0]), EventsOf(polls[1..]));
    }
  }

  /** A second gap in a row changes nothing. */
  lemma {:induction false} SquashSame(s: State, es: seq<Event>)
    ensures StepAll(s, Squash(es)) == StepAll(s, es)
    decreases |es|
  {
    if |es| >= 2 {
      if es[0].Gap? && es[1].Gap? {
        SquashSame(s, es[1..]);
        assert DropChain(DropChain(s)) == DropChain(s);
        assert es[1..][1..] == es[2..];
        assert StepAll(s, es) == StepAll(StepEvent(StepEvent(s, Gap), Gap), es[2..]);
      } else {
        SquashSame(StepEvent(s, es[0]), es[1..]);
        assert ([es[0]] + Squash(es[1..]))[1..] == Squash(es[1..]);
      }
    }
  }

  // ---- one frame ----

  lemma {:induction false} TakenAll(s: State, ps: seq<Piece>)
    requires forall i :: 0 <= i < |ps| ==> ps[i].mark == Taken
    ensures StepAll(s, PieceEvents(ps)) == AcceptAll(s, FragsOf(ps))
    decreases |ps|
  {
    if ps != [] {
      TakenAll(Accept(s, ps[0].frag), ps[1..]);
      assert PieceEvents(ps)[1..] == PieceEvents(ps[1..]) && FragsOf(ps)[1..] == FragsOf(ps[1..]);
    }
  }

  /** With no chain pending, fragments that are not first stay alone. */
  lemma {:induction false} TailAlone(s: State, ps: seq<Piece>)
    requires s.chain == [] && forall i :: 0 <= i < |ps| ==> !ps[i].frag.first
    ensures StepAll(s, PieceEvents(ps)) == State([], s.returned + Singles(ps), s.released + RefusedBufs(ps))
    decreases |ps|
  {
    hide StepEvent, PieceEvent;
    if ps == [] {
      assert s.returned + [] == s.returned && s.released + [] == s.released;
    } else {
      hide PieceEvents;
      var alone, freed := AloneOf(ps[0]), FreedOf(ps[0]);
      StayAlone(s, ps[0]);
      FirstEvent(s, ps);
      TailAlone(State([], s.returned + alone, s.released + freed), ps[1..]);
      Assoc(s.returned, alone, Singles(ps[1..]));
      Assoc(s.released, freed, RefusedBufs(ps[1..]));
    }
  }

  lemma FirstEvent(s: State, ps: seq<Piece>)
    requires ps != []
    ensures StepAll(s, PieceEvents(ps)) == StepAll(StepEvent(s, PieceEvent(ps[0])), PieceEvents(ps[1..]))
  {
    assert PieceEvents(ps)[1..] == PieceEvents(ps[1..]);
  }

  lemma StayAlone(s: State, p: Piece)
    requires s.chain == [] && !p.frag.first
    ensures StepEvent(s, PieceEvent(p)) == State([], s.returned + AloneOf(p), s.released + FreedOf(p))
  {
    assert Bufs([]) == [];
  }

  /** A frame, or the part of one that has arrived, with a piece missing. */
  lemma BrokenRun(s: State, ps: seq<Piece>)
    requires s.chain == [] && Intact(ps) < |ps| && Unfinished(FragsOf(ps[..Intact(ps)]))
    requires forall i :: 0 < i < |ps| ==> !ps[i].frag.first
    ensures StepAll(s, PieceEvents(ps)) == State([], s.returned + Chains(ps), s.released + Freed(ps))
  {
    hide PieceEvents, StepAll, RefusedBufs, Singles, FragsOf, Unfinished, Bufs;
    var k := Intact(ps);
    var head, at, tail := ps[..k], [ps[k]], ps[k + 1..];
    Cut(ps, k);
    PieceSplits(s, head, at + tail);
    HeadRun(s, head);
    var t := s.(chain := FragsOf(head));
    PieceSplits(t, at, tail);
    GapFrees(t, ps[k]);
    var u := StepAll(t, PieceEvents(at));
    TailAlone(u, tail);
    Assoc(t.released, RefusedBufs(at) + Bufs(t.chain), RefusedBufs(tail));
  }

  lemma Cut<T>(s: seq<T>, k: nat)
    requires k < |s|
    ensures s == s[..k] + ([s[k]] + s[k + 1..])
  {
  }

  lemma HeadRun(s: State, head: seq<Piece>)
    requires s.chain == [] && Intact(head) == |head| && Unfinished(FragsOf(head))
    ensures StepAll(s, PieceEvents(head)) == s.(chain := FragsOf(head))
  {
    TakenAll(s, head);
    assert FragsOf(head)[0..] == FragsOf(head);
    PartPends(s, FragsOf(head), 0);
  }

  lemma PieceSplits(s: State, a: seq<Piece>, b: seq<Piece>)
    ensures StepAll(s, PieceEvents(a + b)) == StepAll(StepAll(s, PieceEvents(a)), PieceEvents(b))
  {
    assert PieceEvents(a + b) == PieceEvents(a) + PieceEvents(b);
    StepSplits(s, PieceEvents(a), PieceEvents(b));
  }

  lemma GapFrees(t: State, p: Piece)
    requires p.mark != Taken
    ensures StepAll(t, PieceEvents([p])) == State([], t.returned, t.released + (RefusedBufs([p]) + Bufs(t.chain)))
  {
    assert PieceEvents([p]) == [PieceEvent(p)];
    StepOne(t, PieceEvent(p));
    assert RefusedBufs([p][1..]) == [];
  }

  lemma FrameRun(s: State, frame: seq<Piece>)
    requires s.chain == [] && WellFormed(FragsOf(frame))
    ensures StepAll(s, PieceEvents(frame)) == State([], s.returned + Chains(frame), s.released + Freed(frame))
  {
    if Intact(frame) == |frame| {
      TakenAll(s, frame);
      assert FragsOf(frame)[0..] == FragsOf(frame);
      FrameTail(s, FragsOf(frame), 0);
    } else {
      assert forall i :: 0 <= i < |frame| ==> FragsOf(frame)[i] == frame[i].frag;
      assert Unfinished(FragsOf(frame[..Intact(frame)]));
      BrokenRun(s, frame);
    }
  }

  // ---- the stream ----

  lemma {:induction false} FramesRun(s: State, frames: seq<seq<Piece>>)
    requires s.chain == [] && forall i :: 0 <= i < |frames| ==> WellFormed(FragsOf(frames[i]))
    ensures StepAll(s, PieceEvents(Flatten(frames)))
         == State([], s.returned + AllChains(frames), s.released + AllFreed(frames))
    decreases |frames|
  {
    hide Chains, Freed, PieceEvents, StepAll;
    if frames == [] {
      NoPieces(s);
    } else {
      var frame, rest := frames[0], frames[1..];
      PieceSplits(s, frame, Flatten(rest));
      FrameRun(s, frame);
      FramesRun(State([], s.returned + Chains(frame), s.released + Freed(frame)), rest);
      Assoc(s.returned, Chains(frame), AllChains(rest));
      Assoc(s.released, Freed(frame), AllFreed(rest));
    }
  }

  lemma NoPieces(s: State)
    ensures StepAll(s, PieceEvents([])) == s && s.returned + [] == s.returned && s.released + [] == s.released
  {
  }

  lemma Assoc<T>(a: seq<T>, b: seq<T>, c: seq<T>)
    ensures (a + b) + c == a + (b + c)
  {
  }

  /** What is pending, returned and released for the part of the next frame
      that has arrived. */
  function PartState(s: State, part: seq<Piece>): State {
    if Intact(part) == |part| then s.(chain := FragsOf(part))
    else State([], s.returned + Chains(part), s.released + Freed(part))
  }

  lemma PartRun(s: State, part: seq<Piece>)
    requires s.chain == [] && Unfinished(FragsOf(part))
    ensures StepAll(s, PieceEvents(part)) == PartState(s, part)
  {
    if Intact(part) == |part| {
      HeadRun(s, part);
    } else {
      assert forall i :: 0 <= i < |part| ==> FragsOf(part)[i] == part[i].frag;
      assert Unfinished(FragsOf(part[..Intact(part)]));
      BrokenRun(s, part);
    }
  }

  /** For any stream of well-formed frames with fragments lost or refused
      anywhere, however it is split across receive calls and polls: a frame
      without a missing fragment is returned whole; of any other frame the
      fragments before the first missing one are released and each one after it
      is returned alone; every refused buffer is released. Frames do not affect
      each other. */
  lemma StreamWithDrops(frames: seq<seq<Piece>>, part: seq<Piece>, polls: seq<Poll>)
    requires (forall i :: 0 <= i < |frames| ==> WellFormed(FragsOf(frames[i]))) && Unfinished(FragsOf(part))
    requires Squash(EventsOf(polls)) == Squash(PieceEvents(Flatten(frames) + part))
    ensures Calls(EMPTY, polls) == PartState(State([], AllChains(frames), AllFreed(frames)), part)
  {
    hide PartState, Squash, Chains, Freed, PieceEvents, StepAll, Calls, Passes, EventsOf, Flatten, AllChains, AllFreed;
    var all := Flatten(frames) + part;
    CallsArePasses(EMPTY, polls);
    PassesEvents(EMPTY, polls);
    SquashSame(EMPTY, EventsOf(polls));
    SquashSame(EMPTY, PieceEvents(all));
    PieceSplits(EMPTY, Flatten(frames), part);
    FramesRun(EMPTY, frames);
    assert [] + AllChains(frames) == AllChains(frames) && [] + AllFreed(frames) == AllFreed(frames);
    PartRun(State([], AllChains(frames), AllFreed(frames)), part);
  }
}
