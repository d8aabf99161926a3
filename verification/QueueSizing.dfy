/** How queue depths and the RSS indirection table are sized: clamping of the
    device's report and the application's request, rounding down to a power of
    two in two ways, and the round-robin fill of the table. */
module QueueSizing {
  import opened Bits
  import opened RingTypes

  const MIN_DEPTH := 4
  const MAX_RING := 4096
  const DEFAULT_RING := 256
  const MAX_QUEUES := 256
  const U32 := 0x1_0000_0000

  function Clamp(x: int, lo: int, hi: int): (r: int)
    requires lo <= hi
    ensures lo <= r <= hi && (lo <= x <= hi ==> r == x)
  {
    if x > hi then hi else if x < lo then lo else x
  }

  // ---- rounding down ----

  /** `clamp_queue_depth`: clear the lowest set bit until one is left. */
  method ClampQueueDepth(raw: nat) returns (d: nat)
    ensures d == TopBit(Clamp(raw, MIN_DEPTH, MAX_RING))
  {
    hide And, TopBit, IsPow2;
    d := raw;
    if d > MAX_RING { d := MAX_RING; }
    if d < MIN_DEPTH { d := MIN_DEPTH; }
    while And(d, d - 1) != 0
      invariant 1 <= d && TopBit(d) == TopBit(Clamp(raw, MIN_DEPTH, MAX_RING))
      decreases d
    {
      ClearLowestBit(d);
      d := And(d, d - 1);
    }
    PowerOfTwoTest(d);
    TopBitUnique(d, d);
  }

  /** `__builtin_clz`: zero bits above the highest set bit of the low w bits. */
  function LeadingZeros(v: nat, w: nat): (z: nat)
    ensures z <= w
  {
    if w == 0 then 0 else if (v / Pow2(w - 1)) % 2 == 1 then 0 else 1 + LeadingZeros(v, w - 1)
  }

  lemma {:induction false} LeadingZerosTop(v: nat, w: nat)
    requires 1 <= v < Pow2(w)
    ensures LeadingZeros(v, w) < w && Pow2(w - 1 - LeadingZeros(v, w)) == TopBit(v)
    decreases w
  {
    var p := Pow2(w - 1);
    if v < p {
      DivModUnique(v, p, 0, v);
      LeadingZerosTop(v, w - 1);
    } else {
      DivModUnique(v, p, 1, v - p);
      Pow2IsPow2(w - 1);
      TopBitUnique(v, p);
    }
  }

  /** `ena_netdev_round_down_pow2`: a shift by 31 minus the leading zeros. */
  function RoundDown(v: nat): (r: nat)
    requires v < U32
    ensures v == 0 ==> r == 0
    ensures 0 < v ==> IsPow2(r) && r <= v < 2 * r
  {
    if v == 0 then 0
    else
      assert v < Pow2(32) by { Pow32(); }
      LeadingZerosTop(v, 32);
      Pow2(31 - LeadingZeros(v, 32))
  }

  lemma Pow32()
    ensures Pow2(32) == U32
  {
    assert Pow2(8) == 256;
    assert Pow2(16) == 0x1_0000 by { assert Pow2(12) == 4096; }
    assert Pow2(24) == 0x100_0000 by { assert Pow2(20) == 0x10_0000; }
    assert Pow2(28) == 0x1000_0000;
  }

  /** Both forms compute the largest power of two not above their input. */
  lemma SameRounding(v: nat)
    requires 1 <= v < U32
    ensures RoundDown(v) == TopBit(v)
  {
    TopBitUnique(v, RoundDown(v));
  }

  // ---- depths ----

  /** The depth test of `ena_ring_alloc`. */
  predicate Accepted(depth: nat) {
    depth >= 4 && And(depth, depth - 1) == 0
  }

  lemma AcceptedIsDepthOk(depth: nat)
    requires depth < U16
    ensures Accepted(depth) <==> DepthOk(depth)
  {
    if depth >= 4 { PowerOfTwoTest(depth); }
    if IsPow2(depth) && depth > MAX_DEPTH { BelowU16(depth); }
  }

  lemma BelowU16(d: nat)
    requires IsPow2(d) && MAX_DEPTH < d
    ensures U16 <= d
  {
    Pow2IsPow2(15);
    assert Pow2(15) == MAX_DEPTH by { assert Pow2(8) == 256; assert Pow2(12) == 4096; }
    Pow2Divides(MAX_DEPTH, d);
  }

  /** The ring size the driver reports: the smaller of the two clamped depths. */
  function RingLimit(rawSq: nat, rawCq: nat): nat {
    var sq, cq := TopBit(Clamp(rawSq, MIN_DEPTH, MAX_RING)), TopBit(Clamp(rawCq, MIN_DEPTH, MAX_RING));
    if cq < sq then cq else sq
  }

  /** The depth part of `ena_init_get_queue_limits`. */
  method GetRingLimit(rawSq: nat, rawCq: nat) returns (limit: nat)
    ensures limit == RingLimit(rawSq, rawCq)
  {
    limit := ClampQueueDepth(rawSq);
    var cq := ClampQueueDepth(rawCq);
    if cq < limit { limit := cq; }
  }

  /** `ena_netdev_clamp_desc_count`. */
  function ClampDesc(nbDesc: nat, maxRing: nat): nat
    requires nbDesc < U16 && maxRing < U16
  {
    var a := if nbDesc != 0 then nbDesc else if maxRing != 0 then maxRing else DEFAULT_RING;
    var b := if maxRing != 0 && a > maxRing then maxRing else a;
    RoundDown(Clamp(b, MIN_DEPTH, MAX_RING))
  }

  /** Whatever the device reports and the application asks for, the queue gets
      a depth in 4 .. 4096 that `ena_ring_alloc` accepts, never more than the
      reported limit; and a request that is already such a depth is honoured. */
  lemma DepthAlwaysAccepted(nbDesc: nat, rawSq: nat, rawCq: nat)
    requires nbDesc < U16
    ensures var limit := RingLimit(rawSq, rawCq);
            var d := ClampDesc(nbDesc, limit);
            && MIN_DEPTH <= limit <= MAX_RING && Accepted(limit)
            && MIN_DEPTH <= d <= limit && Accepted(d) && DepthOk(d)
            && (nbDesc <= limit && Accepted(nbDesc) ==> d == nbDesc)
  {
    hide And, TopBit, IsPow2, RoundDown;
    var sq, cq := Clamp(rawSq, MIN_DEPTH, MAX_RING), Clamp(rawCq, MIN_DEPTH, MAX_RING);
    LimitBounds(sq);
    LimitBounds(cq);
    var limit := RingLimit(rawSq, rawCq);
    var a := if nbDesc != 0 then nbDesc else limit;
    var b := if a > limit then limit else a;
    var c := Clamp(b, MIN_DEPTH, MAX_RING);
    var d := ClampDesc(nbDesc, limit);
    SameRounding(c);
    LimitBounds(c);
    assert d == TopBit(c) && d <= limit;
    PowerOfTwoTest(d);
    PowerOfTwoTest(limit);
    if nbDesc <= limit && Accepted(nbDesc) {
      PowerOfTwoTest(nbDesc);
      TopBitUnique(nbDesc, nbDesc);
    }
  }

  lemma LimitBounds(c: int)
    requires MIN_DEPTH <= c <= MAX_RING
    ensures MIN_DEPTH <= TopBit(c) <= c
  {
    assert IsPow2(4) by { assert IsPow2(2); }
    var p := TopBit(c);
    if p < 4 { assert p <= 3 && c < 2 * p; SmallPow2(p); }
  }

  lemma SmallPow2(p: nat)
    requires IsPow2(p) && p <= 3
    ensures p <= 2
  {
  }

  /** The number of queues is in 1 .. 256. */
  function ClampQueueNum(raw: nat): (n: nat)
    ensures 1 <= n <= MAX_QUEUES && (n == raw <==> 1 <= raw <= MAX_QUEUES)
    ensures (n == 1 <==> raw <= 1) && (n == MAX_QUEUES <==> raw >= MAX_QUEUES)
  {
    if raw > MAX_QUEUES then MAX_QUEUES else if raw == 0 then 1 else raw
  }

  // ---- RSS indirection table ----

  /** Smallest k >= 1 with 2^k >= n, as the loop computes it. */
  method RequestedLog(n: nat) returns (k: nat)
    ensures 1 <= k && n <= Pow2(k)
    ensures k > 1 ==> Pow2(k - 1) < n
  {
    k := 1;
    while Pow2(k) < n
      invariant 1 <= k && (k > 1 ==> Pow2(k - 1) < n)
      decreases n - Pow2(k)
    {
      k := k + 1;
    }
  }

  const FALLBACK_SIZE := 128

  /** The table size for a requested log and the device's range of logs. */
  function TableSize(requested: nat, minLog: nat, maxLog: nat): (size: nat)
    ensures 1 <= size
  {
    if minLog == 0 || minLog > maxLog then FALLBACK_SIZE
    else
      var c := Clamp(requested, minLog, maxLog);
      Pow2(if c > 14 then 14 else c)
  }

  lemma {:induction false} Pow2Monotone(a: nat, b: nat)
    requires a <= b
    ensures Pow2(a) <= Pow2(b)
    decreases b - a
  {
    if a < b { Pow2Monotone(a, b - 1); }
  }

  /** The size fits its 16-bit field, and a device range that reaches the
      requested log gives every queue an entry, up to 2^14 queues. */
  lemma TableCovers(n: nat, requested: nat, minLog: nat, maxLog: nat)
    requires n <= Pow2(requested) && 1 <= requested
    ensures TableSize(requested, minLog, maxLog) < U16
    ensures 1 <= minLog <= maxLog && requested <= maxLog && requested <= 14 ==> n <= TableSize(requested, minLog, maxLog)
  {
    assert Pow2(14) == 16384 by { assert Pow2(8) == 256; assert Pow2(12) == 4096; }
    var size := TableSize(requested, minLog, maxLog);
    if 1 <= minLog <= maxLog {
      var c := Clamp(requested, minLog, maxLog);
      var e := if c > 14 then 14 else c;
      Pow2Monotone(e, 14);
      if requested <= maxLog && requested <= 14 { Pow2Monotone(requested, e); }
    }
  }

  /** Entries of a table of `size` slots that name queue q. */
  ghost function Entries(table: seq<nat>, q: nat): nat {
    if table == [] then 0 else Entries(table[..|table| - 1], q) + if table[|table| - 1] == q then 1 else 0
  }

  function RoundRobin(size: nat, n: nat): (t: seq<nat>)
    requires 0 < n
    ensures |t| == size
  {
    seq(size, i requires 0 <= i < size => i % n)
  }

  /** Queue q gets the floor of size / n entries, and one more when q is among
      the first size mod n queues. */
  lemma {:induction false} EntriesOf(size: nat, n: nat, q: nat)
    requires 0 < n && q < n
    ensures Entries(RoundRobin(size, n), q) == size / n + if q < size % n then 1 else 0
  {
    if size > 0 {
      EntriesOf(size - 1, n, q);
      EntriesStep(size - 1, n, q);
      QuotientStep(size - 1, n);
    } else {
      DivModUnique(0, n, 0, 0);
    }
  }

  lemma EntriesStep(m: nat, n: nat, q: nat)
    requires 0 < n
    ensures Entries(RoundRobin(m + 1, n), q) == Entries(RoundRobin(m, n), q) + if m % n == q then 1 else 0
  {
    assert RoundRobin(m + 1, n)[..m] == RoundRobin(m, n);
  }

  lemma QuotientStep(m: nat, n: nat)
    requires 0 < n
    ensures m % n + 1 == n ==> (m + 1) / n == m / n + 1 && (m + 1) % n == 0
    ensures m % n + 1 != n ==> (m + 1) / n == m / n && (m + 1) % n == m % n + 1
  {
    var a, b := m / n, m % n;
    assert m == a * n + b;
    assert (a + 1) * n == a * n + n;
    if b + 1 == n {
      DivModUnique(m + 1, n, a + 1, 0);
    } else {
      DivModUnique(m + 1, n, a, b + 1);
    }
  }

  /** Each queue gets the floor or the ceiling of size / n entries, and every
      queue is named exactly when there are at least n entries. */
  lemma FairTable(size: nat, n: nat)
    requires 0 < n
    ensures forall q :: 0 <= q < n ==>
              size / n <= Entries(RoundRobin(size, n), q) <= (size + n - 1) / n
    ensures size >= n <==> forall q :: 0 <= q < n ==> Entries(RoundRobin(size, n), q) > 0
  {
    var a, b := size / n, size % n;
    assert size == a * n + b;
    if b == 0 {
      DivModUnique(size + n - 1, n, a, n - 1);
    } else {
      assert size + n - 1 == (a + 1) * n + (b - 1) by { assert (a + 1) * n == a * n + n; }
      DivModUnique(size + n - 1, n, a + 1, b - 1);
    }
    forall q | 0 <= q < n ensures Entries(RoundRobin(size, n), q) == a + if q < b then 1 else 0 { EntriesOf(size, n, q); }
    if size < n {
      DivModUnique(size, n, 0, size);
      assert Entries(RoundRobin(size, n), n - 1) == 0;
    } else {
      assert a == 0 ==> a * n == 0;
    }
  }

  /** The fill loop of `ena_rss_set_ind_table`: `sqIdx` holds the device index
      of each attached RX queue, -1 for a queue without a ring. */
  method FillTables(size: nat, n: nat, sqIdx: seq<int>) returns (host: array<nat>, device: array<nat>)
    requires 0 < n <= |sqIdx| && forall q :: 0 <= q < |sqIdx| ==> -1 <= sqIdx[q]
    ensures fresh(host) && fresh(device) && host[..] == RoundRobin(size, n) && device.Length == size
    ensures forall i :: 0 <= i < size ==> device[i] == if sqIdx[i % n] >= 0 then sqIdx[i % n] else i % n
  {
    host := NewFilled(size, 0);
    device := NewFilled(size, 0);
    for i := 0 to size
      invariant host.Length == device.Length == size
      invariant forall k :: 0 <= k < i ==> host[k] == k % n
      invariant forall k :: 0 <= k < i ==> device[k] == if sqIdx[k % n] >= 0 then sqIdx[k % n] else k % n
    {
      var q := i % n;
      host[i] := q;
      device[i] := if sqIdx[q] >= 0 then sqIdx[q] else q;
    }
  }
}
