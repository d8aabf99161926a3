/** The RX ring as a value: posting a buffer (`ena_rx_submit_one`), the
    ring-locked section of `ena_rx_poll`, and `ena_ring_reset_sw_state`. */
module RxRing {
  import opened Bits
  import opened IdFifo
  import opened RingTypes
  import opened RequestIds

  /** Where the device writes a packet: the buffer's own memory or a bounce
      slot. A cleared tracking slot has no address. */
  datatype Addr = NoAddr | Own | Bounce(slot: nat)

  datatype RxDesc = RxDesc(length: nat, phase: nat, reqId: nat, addr: Addr)

  datatype RxBody = RxBody(len: nat, offset: nat, first: bool, last: bool)

  type RxCdesc = Cdesc<RxBody>

  datatype RxPkt = RxPkt(netbuf: Ptr, len: nat, offset: nat, reqId: nat, first: bool, last: bool)

  /** The end of a buffer's stay in the ring: passed up to reassembly, refused
      there because its data does not fit, or released by the ring or the
      refill path. */
  datatype Fate = Passed(pkt: RxPkt, nb: Netbuf, from: Addr) | Refused(nb: Netbuf) | Released(nb: Netbuf)

  /** `taken`: buffers obtained from the allocator. `faults` counts
      executions of the pool-full error. */
  datatype Log = Log(taken: seq<Netbuf>, gone: seq<Fate>, faults: nat)

  datatype Rx = Rx(
    sqDepth: nat, cqDepth: nat,
    ids: IdPool, inFlight: seq<bool>,
    slots: seq<Ptr>, caps: seq<nat>, addrs: seq<Addr>,
    sq: seq<RxDesc>, sqTail: nat, sqPhase: nat,
    cqHead: nat, cqPhase: nat,
    hwValid: bool, log: Log)

  ghost predicate Shape(s: Rx) {
    && DepthOk(s.sqDepth) && DepthOk(s.cqDepth)
    && s.ids.Shape() && |s.ids.owned| == s.sqDepth
    && |s.inFlight| == |s.slots| == |s.caps| == |s.addrs| == |s.sq| == s.sqDepth
    && s.sqTail < U16 && s.cqHead < U16 && s.sqPhase <= 1 && s.cqPhase <= 1
  }

  /** A well-shaped state of the same ring. */
  ghost predicate Follows(s: Rx, t: Rx) {
    Shape(t) && t.sqDepth == s.sqDepth && t.cqDepth == s.cqDepth
  }

  function Init(sqDepth: nat, cqDepth: nat): (s: Rx)
    requires DepthOk(sqDepth) && DepthOk(cqDepth)
    ensures Shape(s)
  {
    Rx(sqDepth, cqDepth, FullPool(sqDepth), Fill(sqDepth, false),
       Fill(sqDepth, Null), Fill(sqDepth, 0), Fill(sqDepth, NoAddr),
       Fill(sqDepth, RxDesc(0, 0, 0, NoAddr)), 0, 1, 0, 1, true,
       Log([], [], 0))
  }

  // ---- posting buffers ----

  /** `ena_rx_submit_one`. */
  function SubmitOne(s: Rx, nb: Netbuf, len: nat, addr: Addr): (r: (Rx, SubmitResult))
    requires Shape(s)
    ensures Follows(s, r.0)
  {
    if !s.hwValid then (s, Failed(ENODEV))
    else if len == 0 || len > 0xFFFF then (s, Failed(EINVAL))
    else match s.ids.Alloc()
    case (Failed(errno), _) => (s, Failed(errno))
    case (Sent(id), ids) =>
      PopContents(s.ids.free);
      var tail := (s.sqTail + 1) % U16;
      (s.(ids := ids,
          inFlight := s.inFlight[id := true],
          slots := s.slots[id := Buf(nb)], caps := s.caps[id := len], addrs := s.addrs[id := addr],
          sq := s.sq[s.sqTail % s.sqDepth := RxDesc(len, s.sqPhase, id, addr)],
          sqTail := tail,
          sqPhase := if tail % s.sqDepth == 0 then 1 - s.sqPhase else s.sqPhase),
       Sent(id))
  }

  // ---- polling ----

  datatype Verdict = Stop | Skip | Oversize | Deliver

  function Examine(s: Rx, e: RxCdesc): Verdict
    requires Shape(s)
  {
    if e.phase != s.cqPhase then Stop
    else if e.reqId >= s.sqDepth then Stop
    else if !s.inFlight[e.reqId] then Skip
    else if e.body.len > s.caps[e.reqId] then Oversize
    else Deliver
  }

  function AdvanceCq(s: Rx): (t: Rx)
    requires Shape(s)
    ensures Follows(s, t)
  {
    var head := (s.cqHead + 1) % U16;
    s.(cqHead := head, cqPhase := if head % s.cqDepth == 0 then 1 - s.cqPhase else s.cqPhase)
  }

  /** `ena_ring_req_id_free`: the ID returns to the pool and its slot is cleared. */
  function FreeId(s: Rx, id: nat): (t: Rx)
    requires Shape(s)
    ensures Follows(s, t)
  {
    match s.ids.Free(id)
    case (Freed, ids) =>
      s.(ids := ids, slots := s.slots[id := Null], caps := s.caps[id := 0], addrs := s.addrs[id := NoAddr])
    case (AlreadyFree, _) => s
    case (Rejected, _) => s.(log := s.log.(faults := s.log.faults + 1))
  }

  /** A packet longer than its buffer: the buffer and the ID are given back.
      The in-flight flag stays set. */
  function DropReq(s: Rx, id: nat): (t: Rx)
    requires Shape(s) && id < s.sqDepth
    ensures Follows(s, t)
  {
    FreeId(s.(slots := s.slots[id := Null],
              log := s.log.(gone := s.log.gone + Releases(s.slots[id]))), id)
  }

  function Releases(p: Ptr): seq<Fate> {
    if p.Null? then [] else [Released(p.nb)]
  }

  function PktOf(s: Rx, e: RxCdesc): RxPkt
    requires Shape(s) && e.reqId < s.sqDepth
  {
    RxPkt(s.slots[e.reqId], e.body.len, e.body.offset, e.reqId, e.body.first, e.body.last)
  }

  /** The packet leaves the ring. */
  function DeliverReq(s: Rx, id: nat): (t: Rx)
    requires Shape(s) && id < s.sqDepth
    ensures Follows(s, t)
  {
    FreeId(s.(inFlight := s.inFlight[id := false]), id)
  }

  /** One completion, as the poll loop handles it. */
  function Handle(s: Rx, e: RxCdesc): (t: Rx)
    requires Shape(s)
    ensures Follows(s, t)
  {
    match Examine(s, e)
    case Stop => s
    case Skip => AdvanceCq(s)
    case Oversize => AdvanceCq(DropReq(s, e.reqId))
    case Deliver => AdvanceCq(DeliverReq(s, e.reqId))
  }

  /** The poll loop over the entries it reads, one per iteration: the packets
      it hands out and the number of completions it dropped. */
  function PollLoop(s: Rx, max: nat, obs: seq<RxCdesc>): (r: (Rx, seq<RxPkt>, nat))
    requires Shape(s)
    ensures Follows(s, r.0) && |r.1| <= max
    decreases |obs|
  {
    if max == 0 || obs == [] || Examine(s, obs[0]) == Stop then (s, [], 0)
    else
      var e := obs[0];
      var v := Examine(s, e);
      var (t, pkts, dropped) := PollLoop(Handle(s, e), if v == Deliver then max - 1 else max, obs[1..]);
      (t, if v == Deliver then [PktOf(s, e)] + pkts else pkts, if v == Oversize then dropped + 1 else dropped)
  }

  // ---- ena_ring_reset_sw_state ----

  function ResetFates(slots: seq<Ptr>): (r: seq<Fate>)
    ensures |r| == |Held(slots)|
    ensures forall i :: 0 <= i < |r| ==> r[i] == Released(Held(slots)[i])
  {
    seq(|Held(slots)|, i requires 0 <= i < |Held(slots)| => Released(Held(slots)[i]))
  }

  /** A slot without a buffer is not cleared. */
  function Cleared<T>(slots: seq<Ptr>, fields: seq<T>, zero: T): (r: seq<T>)
    requires |slots| == |fields|
    ensures |r| == |fields|
  {
    seq(|fields|, i requires 0 <= i < |fields| => if slots[i].Buf? then zero else fields[i])
  }

  function Reset(s: Rx): (t: Rx)
    requires Shape(s)
    ensures Follows(s, t)
  {
    var blank := Init(s.sqDepth, s.cqDepth);
    blank.(caps := Cleared(s.slots, s.caps, 0), addrs := Cleared(s.slots, s.addrs, NoAddr),
           sq := s.sq, hwValid := false,
           log := s.log.(gone := s.log.gone + ResetFates(s.slots)))
  }
}
