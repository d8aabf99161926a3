/** The partial-frame chain of `struct uk_netdev_rx_queue`: netbufs linked
    through their `next` pointers, updated in place. */
module ChainImpl {
  import opened RingTypes
  import R = Reassembly

  /** `struct uk_netbuf` with the flags of its completion. */
  class Node {
    const frag: R.Frag
    var next: Node?

    constructor (frag: R.Frag)
      ensures this.frag == frag && next == null
    {
      this.frag := frag;
      next := null;
    }
  }

  ghost function FragsOf(nodes: seq<Node>): (r: seq<R.Frag>)
    ensures |r| == |nodes|
  {
    seq(|nodes|, i requires 0 <= i < |nodes| => nodes[i].frag)
  }

  ghost predicate Distinct(nodes: seq<Node>) {
    forall i, j :: 0 <= i < j < |nodes| ==> nodes[i] != nodes[j]
  }

  ghost function NextOf(nodes: seq<Node>, i: nat): Node?
    requires i < |nodes|
  {
    if i + 1 < |nodes| then nodes[i + 1] else null
  }

  /** The `next` pointers from `head` visit exactly `nodes`, in order. */
  ghost predicate Links(head: Node?, nodes: seq<Node>)
    reads nodes
  {
    && head == (if nodes == [] then null else nodes[0])
    && Distinct(nodes)
    && forall i :: 0 <= i < |nodes| ==> nodes[i].next == NextOf(nodes, i)
  }

  lemma LinksAppend(head: Node?, was: seq<Node>, nb: Node)
    requires was != [] && head == was[0] && Distinct(was) && nb !in was
    requires forall k :: 0 <= k < |was| - 1 ==> was[k].next == NextOf(was, k)
    requires was[|was| - 1].next == nb && nb.next == null
    ensures Links(head, was + [nb]) && FragsOf(was + [nb]) == FragsOf(was) + [nb.frag]
  {
    var nodes := was + [nb];
    forall k | 0 <= k < |nodes| ensures nodes[k].next == NextOf(nodes, k) {
      if k < |was| - 1 { assert nodes[k] == was[k] && nodes[k + 1] == was[k + 1] && was[k].next == NextOf(was, k); }
    }
  }

  class Chain {
    var head: Node?            // chain_head
    var tail: Node?            // chain_tail
    ghost var nodes: seq<Node>

    ghost predicate Valid()
      reads this, nodes
    {
      Links(head, nodes) && tail == (if nodes == [] then null else nodes[|nodes| - 1])
    }

    ghost function Contents(): seq<R.Frag>
      reads this
    {
      FragsOf(nodes)
    }

    constructor ()
      ensures Valid() && Contents() == []
    {
      head, tail, nodes := null, null, [];
    }

    /** `ena_netdev_rxq_drop_chain`: walk the chain, free every buffer in
        order and clear the pointers. */
    method DropChain() returns (freed: seq<Netbuf>)
      requires Valid()
      modifies this
      ensures Valid() && nodes == []
      ensures freed == R.Bufs(old(Contents()))
    {
      var frag := head;
      freed := [];
      ghost var i := 0;
      while frag != null
        invariant 0 <= i <= |nodes| && frag == (if i < |nodes| then nodes[i] else null)
        invariant freed == R.Bufs(FragsOf(nodes[..i]))
        decreases |nodes| - i
      {
        var next := frag.next;
        assert frag.next == NextOf(nodes, i);
        assert FragsOf(nodes[..i + 1]) == FragsOf(nodes[..i]) + [frag.frag];
        freed := freed + [frag.frag.nb];
        frag := next;
        i := i + 1;
      }
      assert nodes[..i] == nodes;
      head, tail, nodes := null, null, [];
    }

    /** Link a node behind the tail. */
    method Append(nb: Node)
      requires Valid() && nodes != [] && nb !in nodes && nb.next == null
      modifies this, nodes[|nodes| - 1]
      ensures Valid() && nodes == old(nodes) + [nb] && Contents() == old(Contents()) + [nb.frag]
    {
      ghost var was := nodes;
      assert forall k :: 0 <= k < |was| - 1 ==> was[k] != tail && was[k].next == NextOf(was, k);
      tail.next := nb;
      tail := nb;
      nodes := was + [nb];
      hide Links;
      LinksAppend(head, was, nb);
    }

    /** A good fragment: returns the head of the frame it completes, if any. */
    method Accept(nb: Node) returns (pkt: Node?, ghost frame: seq<Node>)
      requires Valid() && nb !in nodes
      modifies this, nodes, nb
      ensures Valid() && Links(pkt, frame)
      ensures R.Accept(R.State(old(Contents()), [], []), nb.frag) ==
              R.State(Contents(), if pkt == null then [] else [FragsOf(frame)], [])
      ensures forall n :: n in nodes || n in frame ==> n == nb || n in old(nodes)
    {
      nb.next := null;
      pkt, frame := null, [];
      if head == null {
        assert FragsOf([nb]) == [nb.frag];
        if nb.frag.first && !nb.frag.last {
          head, tail, nodes := nb, nb, [nb];
        } else {
          pkt, frame := nb, [nb];
        }
      } else {
        Append(nb);
        if nb.frag.last {
          pkt, frame := head, nodes;
          head, tail, nodes := null, null, [];
        }
      }
    }
  }

  // ---- one receive call ----

  /** What one pass polls; buffers are distinct objects. */
  datatype Got = Nothing | NoBuffer | Bad(nb: Node) | Good(nb: Node)
  datatype Poll = Poll(dropped: bool, got: Got)

  ghost function Reading(p: Poll): R.Poll {
    R.Poll(p.dropped, match p.got
                      case Nothing => R.Nothing
                      case NoBuffer => R.NoBuffer
                      case Bad(nb) => R.Bad(nb.frag.nb)
                      case Good(nb) => R.Good(nb.frag))
  }

  ghost function Readings(polls: seq<Poll>): (r: seq<R.Poll>)
    ensures |r| == |polls|
  {
    seq(|polls|, i requires 0 <= i < |polls| => Reading(polls[i]))
  }

  ghost function Brings(p: Poll): set<Node> {
    if p.got.Good? || p.got.Bad? then {p.got.nb} else {}
  }

  ghost predicate Apart(nodes: seq<Node>, others: set<Node>) {
    forall i :: 0 <= i < |nodes| ==> nodes[i] !in others
  }

  /** The buffers still to come are distinct and not in the chain. */
  ghost predicate Coming(polls: seq<Poll>, nodes: seq<Node>) {
    && (forall i :: 0 <= i < |polls| ==> Apart(nodes, Brings(polls[i])))
    && (forall i, j :: 0 <= i < j < |polls| ==> Brings(polls[i]) !! Brings(polls[j]))
  }

  /** One pass of the receive loop. `done` ends the call. */
  method PassOnce(c: Chain, p: Poll) returns (done: bool, pkt: Node?, ghost frame: seq<Node>, freed: seq<Netbuf>)
    requires c.Valid() && Apart(c.nodes, Brings(p))
    modifies c, c.nodes, Brings(p)
    ensures c.Valid() && Links(pkt, frame)
    ensures R.Pass(R.State(old(c.Contents()), [], []), Reading(p)) ==
            R.State(c.Contents(), if pkt == null then [] else [FragsOf(frame)], freed)
    ensures done == R.Returns(R.State(old(c.Contents()), [], []), Reading(p))
    ensures pkt != null ==> done
    ensures forall n :: n in c.nodes ==> n in old(c.nodes) || n in Brings(p)
  {
    pkt, frame, freed, done := null, [], [], true;
    if p.dropped { freed := c.DropChain(); }
    match p.got
    case Nothing =>
    case NoBuffer =>
    case Bad(nb) =>
      var more := c.DropChain();
      freed := freed + [nb.frag.nb] + more;
    case Good(nb) =>
      pkt, frame := c.Accept(nb);
      done := pkt != null;
  }

  ghost function BroughtBy(polls: seq<Poll>): set<Node> {
    set i, n | 0 <= i < |polls| && n in Brings(polls[i]) :: n
  }

  /** What was released before a pass only precedes what the pass releases. */
  lemma PassShift(chain: seq<R.Frag>, released: seq<Netbuf>, p: R.Poll)
    ensures var t := R.Pass(R.State(chain, [], []), p);
            && R.Pass(R.State(chain, [], released), p) == R.State(t.chain, t.returned, released + t.released)
            && R.Returns(R.State(chain, [], released), p) == R.Returns(R.State(chain, [], []), p)
  {
    assert R.Bufs([]) == [];
    assert released + [] == released;
    if p.dropped { assert released + R.Bufs(chain) + R.Bufs([]) == released + R.Bufs(chain); }
  }

  lemma ComingNext(polls: seq<Poll>, i: nat, nodes: seq<Node>, after: seq<Node>)
    requires i < |polls| && Coming(polls[i..], nodes)
    requires forall n :: n in after ==> n in nodes || n in Brings(polls[i])
    ensures Coming(polls[i + 1..], after)
  {
    var rest, more := polls[i..], polls[i + 1..];
    forall k | 0 <= k < |more| ensures Apart(after, Brings(more[k])) {
      assert more[k] == rest[k + 1] && rest[0] == polls[i];
      assert Apart(nodes, Brings(rest[k + 1]));
    }
    forall j, k | 0 <= j < k < |more| ensures Brings(more[j]) !! Brings(more[k]) {
      assert more[j] == rest[j + 1] && more[k] == rest[k + 1];
    }
  }

  /** One receive call over the polls it makes: it returns the head of the
      first complete frame, or null. */
  method RecvCall(c: Chain, polls: seq<Poll>) returns (pkt: Node?, ghost frame: seq<Node>, used: nat, freed: seq<Netbuf>)
    requires c.Valid() && Coming(polls, c.nodes)
    modifies c, c.nodes, BroughtBy(polls)
    ensures c.Valid() && Links(pkt, frame) && used <= |polls|
    ensures R.Recv(R.State(old(c.Contents()), [], []), Readings(polls)) ==
            (R.State(c.Contents(), if pkt == null then [] else [FragsOf(frame)], freed), Readings(polls)[used..])
  {
    hide R.Pass, R.Returns, Links, Reading;
    pkt, frame, used, freed := null, [], 0, [];
    assert Links(null, []) by { NoLinks(); }
    ghost var all := Readings(polls);
    assert all[0..] == all && polls[0..] == polls;
    while used < |polls|
      invariant used <= |polls| && c.Valid() && Coming(polls[used..], c.nodes)
      invariant forall n :: n in c.nodes ==> n in old(c.nodes) || n in BroughtBy(polls)
      invariant pkt == null && Links(pkt, frame)
      invariant R.Recv(R.State(old(c.Contents()), [], []), all) == R.Recv(R.State(c.Contents(), [], freed), all[used..])
    {
      ghost var rest, nodes := all[used..], c.nodes;
      assert rest[0] == Reading(polls[used]) && rest[1..] == all[used + 1..];
      assert polls[used..][0] == polls[used];
      assert Brings(polls[used]) <= BroughtBy(polls);
      PassShift(c.Contents(), freed, rest[0]);
      var done, more;
      done, pkt, frame, more := PassOnce(c, polls[used]);
      freed := freed + more;
      ComingNext(polls, used, nodes, c.nodes);
      used := used + 1;
      if done { return; }
    }
  }

  lemma NoLinks()
    ensures Links(null, [])
  {
  }
}
