/** Frame reassembly in the receive loop: fragments are chained per queue
    until the last one arrives (`ena_netdev_rxq_recv`), a drop frees the
    pending chain (`ena_netdev_rxq_drop_chain`). */
module Reassembly {
  import opened RingTypes

  /** A received buffer with the first and last flags of its completion. */
  datatype Frag = Frag(nb: Netbuf, first: bool, last: bool)

  /** What one pass of the receive loop polls: nothing, an empty packet, a
      packet that fails the bounds test, or a good fragment. `dropped` tells
      that the ring dropped a completion on the way. */
  datatype Got = Nothing | NoBuffer | Bad(nb: Netbuf) | Good(frag: Frag)
  datatype Poll = Poll(dropped: bool, got: Got)

  datatype State = State(chain: seq<Frag>, returned: seq<seq<Frag>>, released: seq<Netbuf>)

  const EMPTY := State([], [], [])

  function Bufs(frags: seq<Frag>): (r: seq<Netbuf>)
    ensures |r| == |frags|
  {
    seq(|frags|, i requires 0 <= i < |frags| => frags[i].nb)
  }

  /** `ena_netdev_rxq_drop_chain`. */
  function DropChain(s: State): State {
    State([], s.returned, s.released + Bufs(s.chain))
  }

  /** A good fragment starts or extends the chain, or completes a frame. */
  function Accept(s: State, f: Frag): State {
    if s.chain == [] && f.first && !f.last then s.(chain := [f])
    else if s.chain == [] then s.(returned := s.returned + [[f]])
    else if f.last then State([], s.returned + [s.chain + [f]], s.released)
    else s.(chain := s.chain + [f])
  }

  /** One pass of the receive loop. */
  function Pass(s: State, p: Poll): State {
    var t := if p.dropped then DropChain(s) else s;
    match p.got
    case Nothing => t
    case NoBuffer => t
    case Bad(nb) => DropChain(t.(released := t.released + [nb]))
    case Good(f) => Accept(t, f)
  }

  /** Whether the receive call returns after this pass; otherwise it polls
      again. */
  predicate Returns(s: State, p: Poll) {
    p.got.Good? ==> |Pass(s, p).returned| > |s.returned|
  }

  /** One receive call: it polls until it returns. Yields the polls left for
      later calls; a call that runs out of polls has found the queue empty. */
  function Recv(s: State, polls: seq<Poll>): (r: (State, seq<Poll>))
    ensures |r.1| <= |polls| && (polls != [] ==> |r.1| < |polls|)
    decreases |polls|
  {
    if polls == [] then (s, [])
    else if Returns(s, polls[0]) then (Pass(s, polls[0]), polls[1..])
    else Recv(Pass(s, polls[0]), polls[1..])
  }

  /** As many receive calls as it takes to use up the polls. */
  function Calls(s: State, polls: seq<Poll>): State
    decreases |polls|
  {
    if polls == [] then s else Calls(Recv(s, polls).0, Recv(s, polls).1)
  }

  function Passes(s: State, polls: seq<Poll>): State
    decreases |polls|
  {
    if polls == [] then s else Passes(Pass(s, polls[0]), polls[1..])
  }

  // ---- frames ----

  /** Exactly the first fragment is marked first and the last one last. */
  ghost predicate WellFormed(frame: seq<Frag>) {
    && frame != []
    && forall i :: 0 <= i < |frame| ==> (frame[i].first <==> i == 0) && (frame[i].last <==> i == |frame| - 1)
  }

  /** The beginning of a well-formed frame, without its last fragment. */
  ghost predicate Unfinished(part: seq<Frag>) {
    forall i :: 0 <= i < |part| ==> (part[i].first <==> i == 0) && !part[i].last
  }

  ghost function Flatten<T>(parts: seq<seq<T>>): seq<T> {
    if parts == [] then [] else parts[0] + Flatten(parts[1..])
  }

  ghost predicate NoDrops(polls: seq<Poll>) {
    forall i :: 0 <= i < |polls| ==> !polls[i].dropped && !polls[i].got.Bad?
  }

  ghost function Frags(polls: seq<Poll>): seq<Frag> {
    if polls == [] then []
    else (if polls[0].got.Good? then [polls[0].got.frag] else []) + Frags(polls[1..])
  }

  ghost function AcceptAll(s: State, frags: seq<Frag>): State
    decreases |frags|
  {
    if frags == [] then s else AcceptAll(Accept(s, frags[0]), frags[1..])
  }

  /** Where receive calls begin and end does not matter. */
  lemma {:induction false} CallsArePasses(s: State, polls: seq<Poll>)
    ensures Calls(s, polls) == Passes(s, polls)
    decreases |polls|
  {
    if polls != [] {
      RecvPasses(s, polls);
      CallsArePasses(Recv(s, polls).0, Recv(s, polls).1);
    }
  }

  lemma {:induction false} RecvPasses(s: State, polls: seq<Poll>)
    ensures Passes(Recv(s, polls).0, Recv(s, polls).1) == Passes(s, polls)
    decreases |polls|
  {
    if polls != [] && !Returns(s, polls[0]) { RecvPasses(Pass(s, polls[0]), polls[1..]); }
  }

  /** Without drops only the good fragments matter. */
  lemma {:induction false} PassesAccept(s: State, polls: seq<Poll>)
    requires NoDrops(polls)
    ensures Passes(s, polls) == AcceptAll(s, Frags(polls))
    decreases |polls|
  {
    if polls != [] {
      PassesAccept(Pass(s, polls[0]), polls[1..]);
      if polls[0].got.Good? {
        assert Frags(polls)[1..] == Frags(polls[1..]);
      } else {
        assert Frags(polls) == Frags(polls[1..]);
      }
    }
  }

  lemma {:induction false} AcceptSplits(s: State, a: seq<Frag>, b: seq<Frag>)
    ensures AcceptAll(s, a + b) == AcceptAll(AcceptAll(s, a), b)
    decreases |a|
  {
    if a == [] {
      assert a + b == b;
    } else {
      AcceptSplits(Accept(s, a[0]), a[1..], b);
      assert (a + b)[1..] == a[1..] + b;
    }
  }

  /** The rest of a frame completes the chain of its beginning. */
  lemma {:induction false} FrameTail(s: State, frame: seq<Frag>, i: nat)
    requires WellFormed(frame) && i < |frame| && s.chain == frame[..i]
    ensures AcceptAll(s, frame[i..]) == State([], s.returned + [frame], s.released)
    decreases |frame| - i
  {
    var rest, t := frame[i..], Accept(s, frame[i]);
    assert rest[0] == frame[i] && rest[1..] == frame[i + 1..];
    assert frame[..i] + [frame[i]] == frame[..i + 1];
    if i + 1 < |frame| {
      FrameTail(t, frame, i + 1);
    } else {
      assert frame[..i + 1] == frame && frame[i + 1..] == [];
      assert i == 0 ==> [frame[0]] == frame;
    }
  }

  lemma {:induction false} PartPends(s: State, part: seq<Frag>, i: nat)
    requires Unfinished(part) && i <= |part| && s.chain == part[..i]
    ensures AcceptAll(s, part[i..]) == s.(chain := part)
    decreases |part| - i
  {
    if i < |part| {
      var rest := part[i..];
      assert rest[0] == part[i] && rest[1..] == part[i + 1..] && part[..i] + [part[i]] == part[..i + 1];
      PartPends(Accept(s, part[i]), part, i + 1);
    } else {
      assert part[..i] == part;
    }
  }

  lemma {:induction false} FramesInOrder(s: State, frames: seq<seq<Frag>>, part: seq<Frag>)
    requires s.chain == [] && (forall i :: 0 <= i < |frames| ==> WellFormed(frames[i])) && Unfinished(part)
    ensures AcceptAll(s, Flatten(frames) + part) == State(part, s.returned + frames, s.released)
    decreases |frames|
  {
    if frames == [] {
      assert Flatten(frames) + part == part[0..] && s.returned + frames == s.returned;
      PartPends(s, part, 0);
    } else {
      var f, rest := frames[0], frames[1..];
      assert Flatten(frames) + part == f + (Flatten(rest) + part);
      AcceptSplits(s, f, Flatten(rest) + part);
      assert f[0..] == f;
      FrameTail(s, f, 0);
      FramesInOrder(State([], s.returned + [f], s.released), rest, part);
      assert s.returned + [f] + rest == s.returned + frames;
    }
  }

  /** For any stream of well-formed frames that arrives without drops, however
      it is split across receive calls and empty polls, the chains returned
      are exactly the frames, in order, and the pending chain is the part of
      the next frame that has arrived. */
  lemma FramesReassembled(frames: seq<seq<Frag>>, part: seq<Frag>, polls: seq<Poll>)
    requires (forall i :: 0 <= i < |frames| ==> WellFormed(frames[i])) && Unfinished(part)
    requires NoDrops(polls) && Frags(polls) == Flatten(frames) + part
    ensures Calls(EMPTY, polls) == State(part, frames, [])
  {
    CallsArePasses(EMPTY, polls);
    PassesAccept(EMPTY, polls);
    FramesInOrder(EMPTY, frames, part);
    assert [] + frames == frames;
  }

  // ---- drops ----

  ghost function Arrived(polls: seq<Poll>): seq<Netbuf> {
    if polls == [] then []
    else
      (match polls[0].got
       case Bad(nb) => [nb]
       case Good(f) => [f.nb]
       case _ => []) + Arrived(polls[1..])
  }

  /** Every buffer is in a returned chain, pending, or released. */
  ghost function Where(s: State): multiset<Netbuf> {
    multiset(Bufs(Flatten(s.returned))) + multiset(Bufs(s.chain)) + multiset(s.released)
  }

  lemma {:induction false} FlattenAppend<T>(parts: seq<seq<T>>, last: seq<T>)
    ensures Flatten(parts + [last]) == Flatten(parts) + last
  {
    if parts == [] {
      assert Flatten([last][1..]) == [];
      assert [] + [last] == [last] && last + [] == last;
    } else {
      FlattenAppend(parts[1..], last);
      assert (parts + [last])[1..] == parts[1..] + [last];
    }
  }

  lemma BufsJoin(a: seq<Frag>, b: seq<Frag>)
    ensures Bufs(a + b) == Bufs(a) + Bufs(b)
  {
  }

  lemma DropKeepsAll(s: State)
    ensures Where(DropChain(s)) == Where(s)
  {
    assert Bufs([]) == [];
  }

  lemma AcceptKeepsAll(s: State, f: Frag)
    ensures Where(Accept(s, f)) == Where(s) + multiset{f.nb}
  {
    var joined := s.chain + [f];
    BufsJoin(s.chain, [f]);
    assert Bufs([f]) == [f.nb] && Bufs([]) == [];
    if s.chain == [] { assert joined == [f]; }
    FlattenAppend(s.returned, joined);
    BufsJoin(Flatten(s.returned), joined);
  }

  lemma PassKeepsAll(s: State, p: Poll)
    ensures Where(Pass(s, p)) == Where(s) + multiset(Arrived([p]))
  {
    hide Where;
    var t := if p.dropped then DropChain(s) else s;
    DropKeepsAll(s);
    assert Arrived([p][1..]) == [];
    match p.got
    case Nothing =>
    case NoBuffer =>
    case Bad(nb) =>
      ReleaseKeepsAll(t, nb);
      DropKeepsAll(t.(released := t.released + [nb]));
    case Good(f) => AcceptKeepsAll(t, f);
  }

  lemma ReleaseKeepsAll(s: State, nb: Netbuf)
    ensures Where(s.(released := s.released + [nb])) == Where(s) + multiset{nb}
  {
  }

  lemma {:induction false} PassesKeepAll(s: State, polls: seq<Poll>)
    ensures Where(Passes(s, polls)) == Where(s) + multiset(Arrived(polls))
    decreases |polls|
  {
    hide Where, Pass;
    if polls != [] {
      PassKeepsAll(s, polls[0]);
      PassesKeepAll(Pass(s, polls[0]), polls[1..]);
      var one, more := Arrived([polls[0]]), Arrived(polls[1..]);
      ArrivedStep(polls);
      assert Where(s) + multiset(one) + multiset(more) == Where(s) + (multiset(one) + multiset(more));
    }
  }

  lemma ArrivedStep(polls: seq<Poll>)
    requires polls != []
    ensures multiset(Arrived(polls)) == multiset(Arrived([polls[0]])) + multiset(Arrived(polls[1..]))
  {
    assert Arrived([polls[0]][1..]) == [];
    assert Arrived(polls) == Arrived([polls[0]]) + Arrived(polls[1..]);
  }

  /** With any drops, every buffer that arrived is in exactly one of a
      returned chain, the pending chain or the released list. */
  lemma FragmentsConserved(polls: seq<Poll>)
    ensures Where(Calls(EMPTY, polls)) == multiset(Arrived(polls))
  {
    CallsArePasses(EMPTY, polls);
    PassesKeepAll(EMPTY, polls);
    assert Where(EMPTY) == multiset{} by { assert Bufs([]) == []; }
  }

  /** The pending chain always begins with a first fragment and holds no last
      one. */
  ghost predicate ChainOk(s: State) {
    s.chain != [] ==> s.chain[0].first && forall i :: 0 <= i < |s.chain| ==> !s.chain[i].last
  }

  /** A pass returns a chain that does not begin with a first fragment exactly
      when a fragment that is not first arrives and no chain is pending, as
      happens after a drop. */
  lemma HeadlessIff(s: State, p: Poll)
    requires ChainOk(s) && p.got.Good?
    ensures ChainOk(Pass(s, p))
    ensures var t := Pass(s, p);
            |t.returned| > |s.returned| ==>
              (!t.returned[|t.returned| - 1][0].first <==> !p.got.frag.first && (s.chain == [] || p.dropped))
  {
  }

  /** One dropped completion in a frame of three: its last two fragments are
      returned as two frames of their own. */
  lemma DropSplitsFrame(a: Netbuf, b: Netbuf, c: Netbuf)
    ensures var frame := [Frag(a, true, false), Frag(b, false, false), Frag(c, false, true)];
            && WellFormed(frame)
            && Calls(EMPTY, [Poll(true, Good(frame[1])), Poll(false, Good(frame[2]))]).returned == [[frame[1]], [frame[2]]]
  {
    var polls := [Poll(true, Good(Frag(b, false, false))), Poll(false, Good(Frag(c, false, true)))];
    var one := Pass(EMPTY, polls[0]);
    CallsArePasses(EMPTY, polls);
    assert polls[1..] == [polls[1]] && polls[1..][1..] == [];
    assert one == State([], [[Frag(b, false, false)]], []);
    assert Passes(EMPTY, polls) == Passes(one, polls[1..]) == Pass(one, polls[1]);
  }
}
