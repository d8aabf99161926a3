/** The TX ring as a value: one function per ring-locked section of the
    transmit path (`ena_tx_submit`, `ena_tx_poll_completions` with deferred
    cross-core release) and of `ena_ring_reset_sw_state`. */
module TxRing {
  import opened Bits
  import opened IdFifo
  import opened RingTypes
  import opened RequestIds

  /** `ENA_CPU_ID_NONE`. */
  const NO_CPU := 0xFFFF_FFFF

  /** A packet to send; `offload` holds the low bits of the second descriptor
      word (protocol indexes and offload flags, all below bit 15). */
  datatype Pkt = Pkt(netbuf: Ptr, len: nat, offload: nat)

  ghost predicate PktOk(pkt: Pkt) {
    0 < pkt.len <= 0xFFFF && pkt.offload < 0x8000
  }

  /** The first two words of a submission descriptor. */
  datatype Desc = Desc(lenCtrl: nat, metaCtrl: nat)

  datatype Deferred = Deferred(reqId: nat, owner: nat)

  /** One buffer handed back to its allocator. */
  datatype Release = OnPoll(nb: Netbuf, cpu: nat) | OnReset(nb: Netbuf)

  /** One completion matched by the driver: the buffer it found in the slot
      and the ring owner at that moment. */
  datatype Completion = Completion(reqId: nat, buf: Ptr, owner: nat)

  /** What an observer outside the driver sees. `faults` counts executions of
      the pool-full error and of the "no room to defer" branch. */
  datatype Log = Log(accepted: seq<Netbuf>, completed: seq<Completion>, released: seq<Release>, faults: nat)

  datatype Tx = Tx(
    sqDepth: nat, cqDepth: nat,
    ids: IdPool, inFlight: seq<bool>, slots: seq<Ptr>,
    foreign: seq<Deferred>, foreignCount: nat,
    sq: seq<Desc>, sqTail: nat, sqHead: nat, sqPhase: nat,
    cqHead: nat, cqPhase: nat,
    owner: nat, hwValid: bool, log: Log)

  type TxCdesc = Cdesc<nat>  // body: sq_head_idx

  ghost predicate Shape(s: Tx) {
    && DepthOk(s.sqDepth) && DepthOk(s.cqDepth)
    && s.ids.Shape() && |s.ids.owned| == s.sqDepth
    && |s.inFlight| == |s.slots| == |s.foreign| == |s.sq| == s.sqDepth
    && s.foreignCount <= s.sqDepth
    && s.sqTail < U16 && s.cqHead < U16 && s.sqPhase <= 1 && s.cqPhase <= 1
    && (forall k :: 0 <= k < s.foreignCount ==> s.foreign[k].reqId < s.sqDepth)
  }

  lemma Lengths(s: Tx)
    requires Shape(s)
    ensures |s.inFlight| == |s.slots| == |s.foreign| == |s.sq| == s.sqDepth && IsPow2(s.sqDepth) && IsPow2(s.cqDepth)
  {
  }

  /** A well-shaped state of the same ring. */
  ghost predicate Follows(s: Tx, t: Tx) {
    Shape(t) && t.sqDepth == s.sqDepth && t.cqDepth == s.cqDepth
  }

  // ---- submission descriptor words ----

  function Encode(reqId: nat, len: nat, phase: nat, offload: nat): Desc {
    Desc(len % 0x1_0000 + reqId / 0x400 % 0x40 * 0x1_0000 + phase * 0x100_0000 + 0x1C00_0000,
         offload + reqId % 0x400 * 0x40_0000)
  }

  /** The request ID a device reads from the two words. */
  function ReqIdOf(d: Desc): nat {
    d.lenCtrl / 0x1_0000 % 0x40 * 0x400 + d.metaCtrl / 0x40_0000 % 0x400
  }

  lemma EncodeRoundTrip(reqId: nat, len: nat, phase: nat, offload: nat)
    requires reqId < U16 && phase <= 1 && offload < 0x8000
    ensures var d := Encode(reqId, len, phase, offload);
            && ReqIdOf(d) == reqId
            && d.lenCtrl % 0x1_0000 == len % 0x1_0000
            && d.lenCtrl / 0x100_0000 % 2 == phase
            && d.metaCtrl < 0x1_0000_0000 && d.lenCtrl < 0x1_0000_0000
  {
  }

  // ---- initial state: ena_ring_alloc ----

  function Init(sqDepth: nat, cqDepth: nat): (s: Tx)
    requires DepthOk(sqDepth) && DepthOk(cqDepth)
    ensures Shape(s)
  {
    Tx(sqDepth, cqDepth, FullPool(sqDepth),
       Fill(sqDepth, false),
       Fill(sqDepth, Null),
       Fill(sqDepth, Deferred(0, 0)), 0,
       Fill(sqDepth, Desc(0, 0)), 0, 0, 1,
       0, 1, NO_CPU, true, Log([], [], [], 0))
  }

  // ---- ena_tx_submit, ring-locked section ----

  function SubmitLocked(s: Tx, cpu: nat, pkt: Pkt): (r: (Tx, SubmitResult))
    requires Shape(s)
    ensures Follows(s, r.0)
  {
    match s.ids.Alloc()
    case (Failed(errno), _) => (s, Failed(errno))
    case (Sent(id), ids) =>
      PopContents(s.ids.free);
      var tail := (s.sqTail + 1) % U16;
      var t := s.(ids := ids,
                  inFlight := s.inFlight[id := true],
                  slots := s.slots[id := pkt.netbuf],
                  sq := s.sq[s.sqTail % s.sqDepth := Encode(id, pkt.len, s.sqPhase, pkt.offload)],
                  sqTail := tail,
                  sqPhase := if tail % s.sqDepth == 0 then 1 - s.sqPhase else s.sqPhase,
                  owner := cpu,
                  log := s.log.(accepted := s.log.accepted + One(pkt.netbuf)));
      (t, Sent(id))
  }

  // ---- completion path ----

  /** `ena_ring_req_id_free`: the ID returns to the pool and its slot is cleared. */
  function FreeId(s: Tx, id: nat): (t: Tx)
    requires Shape(s)
    ensures Follows(s, t)
  {
    match s.ids.Free(id)
    case (Freed, ids) => s.(ids := ids, slots := s.slots[id := Null])
    case (AlreadyFree, _) => s
    case (Rejected, _) => s.(log := s.log.(faults := s.log.faults + 1))
  }

  /** Give the buffer of a request back to its allocator, then the ID. */
  function Reclaim(s: Tx, id: nat, cpu: nat): (t: Tx)
    requires Shape(s) && id < s.sqDepth
    ensures Follows(s, t)
  {
    var released := if s.slots[id].Null? then [] else [OnPoll(s.slots[id].nb, cpu)];
    FreeId(s.(slots := s.slots[id := Null],
              log := s.log.(released := s.log.released + released)), id)
  }

  /** `ena_tx_stage_foreign_free`. */
  function Stage(s: Tx, id: nat, owner: nat): (r: (bool, Tx))
    requires Shape(s) && id < s.sqDepth
    ensures Follows(s, r.1)
  {
    if s.slots[id].Null? then (false, s)
    else if s.foreignCount >= s.sqDepth then
      (false, s.(slots := s.slots[id := Null], log := s.log.(faults := s.log.faults + 1)))
    else
      (true, s.(foreign := s.foreign[s.foreignCount := Deferred(id, owner)],
                foreignCount := s.foreignCount + 1))
  }

  /** `ena_tx_drain_foreign_frees` from entry i on. */
  function Drain(s: Tx, cpu: nat, i: nat): (t: Tx)
    requires Shape(s) && i <= s.foreignCount
    ensures Follows(s, t)
    decreases s.foreignCount - i
  {
    if i == s.foreignCount then s
    else if s.foreign[i].owner != cpu then Drain(s, cpu, i + 1)
    else Drain(DrainEntry(s, cpu, i), cpu, i)
  }

  /** Release entry i; the last entry takes its place. */
  function DrainEntry(s: Tx, cpu: nat, i: nat): (t: Tx)
    requires Shape(s) && i < s.foreignCount
    ensures Follows(s, t) && t.foreignCount == s.foreignCount - 1
  {
    var t := Reclaim(s, s.foreign[i].reqId, cpu);
    t.(foreign := t.foreign[i := t.foreign[t.foreignCount - 1]], foreignCount := t.foreignCount - 1)
  }

  datatype Verdict = Stop | Skip | Complete

  /** What the poll loop does with the entry it reads at the head. */
  function Examine(s: Tx, e: TxCdesc): Verdict
    requires Shape(s)
  {
    if e.phase != s.cqPhase then Stop
    else if e.reqId >= s.sqDepth then Stop
    else if !s.inFlight[e.reqId] then Skip
    else Complete
  }

  function AdvanceCq(s: Tx): (t: Tx)
    requires Shape(s)
    ensures Follows(s, t)
  {
    var head := (s.cqHead + 1) % U16;
    s.(cqHead := head, cqPhase := if head % s.cqDepth == 0 then 1 - s.cqPhase else s.cqPhase)
  }

  /** Take a request out of flight: the completion callback and the SQ head. */
  function Retire(s: Tx, e: TxCdesc): (t: Tx)
    requires Shape(s) && e.reqId < s.sqDepth
    ensures Follows(s, t)
  {
    s.(inFlight := s.inFlight[e.reqId := false],
       sqHead := e.body % s.sqDepth,
       log := s.log.(completed := s.log.completed + [Completion(e.reqId, s.slots[e.reqId], s.owner)]))
  }

  /** Everything done for one matched completion before the head moves. */
  function CompleteReq(s: Tx, cpu: nat, e: TxCdesc): (t: Tx)
    requires Shape(s) && e.reqId < s.sqDepth
    ensures Follows(s, t)
  {
    var r := Retire(s, e);
    if cpu == r.owner then Reclaim(r, e.reqId, cpu)
    else
      var (staged, t) := Stage(r, e.reqId, r.owner);
      if staged then t else Reclaim(t, e.reqId, cpu)
  }

  /** The poll loop over the entries it reads, one per iteration. Each entry
      may be anything: the device can write while the loop runs. */
  function PollLoop(s: Tx, cpu: nat, budget: nat, obs: seq<TxCdesc>): (r: (Tx, nat))
    requires Shape(s)
    ensures Follows(s, r.0)
    decreases |obs|
  {
    if budget == 0 || obs == [] then (s, 0)
    else
      match Examine(s, obs[0])
      case Stop => (s, 0)
      case Skip => PollLoop(AdvanceCq(s), cpu, budget, obs[1..])
      case Complete =>
        var (t, n) := PollLoop(AdvanceCq(CompleteReq(s, cpu, obs[0])), cpu, budget - 1, obs[1..]);
        (t, n + 1)
  }

  /** The ring-locked section of `ena_tx_poll_completions`. */
  function PollLocked(s: Tx, cpu: nat, budget: nat, obs: seq<TxCdesc>): (r: (Tx, nat))
    requires Shape(s)
    ensures Follows(s, r.0)
  {
    PollLoop(Drain(s, cpu, 0), cpu, budget, obs)
  }

  // ---- ena_ring_reset_sw_state ----

  function ResetReleases(slots: seq<Ptr>): (r: seq<Release>)
    ensures |r| == |Held(slots)|
    ensures forall i :: 0 <= i < |r| ==> r[i] == OnReset(Held(slots)[i])
  {
    seq(|Held(slots)|, i requires 0 <= i < |Held(slots)| => OnReset(Held(slots)[i]))
  }

  function Reset(s: Tx): (t: Tx)
    requires Shape(s)
    ensures Follows(s, t)
  {
    var blank := Init(s.sqDepth, s.cqDepth);
    blank.(foreign := s.foreign, sq := s.sq, owner := s.owner, hwValid := false,
           log := s.log.(released := s.log.released + ResetReleases(s.slots)))
  }
}
