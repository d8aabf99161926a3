/** Unsigned-integer arithmetic of the driver: bitwise and, power-of-two masks,
    and 16-bit counters whose wrap keeps ring index and phase in step. */
module Bits {

  /** Number of values of a `uint16_t` counter. */
  const U16 := 0x1_0000

  function Pow2(k: nat): (p: nat)
    ensures 1 <= p
  {
    if k == 0 then 1 else 2 * Pow2(k - 1)
  }

  predicate IsPow2(n: nat) {
    n == 1 || (2 <= n && n % 2 == 0 && IsPow2(n / 2))
  }

  /** Bitwise and, defined bit by bit. */
  function And(x: nat, y: nat): (r: nat)
    ensures r <= x && r <= y
    decreases x
  {
    if x == 0 || y == 0 then 0 else (x % 2) * (y % 2) + 2 * And(x / 2, y / 2)
  }

  lemma {:induction false} Pow2IsPow2(k: nat)
    ensures IsPow2(Pow2(k))
  {
    if k > 0 {
      Pow2IsPow2(k - 1);
      assert Pow2(k) / 2 == Pow2(k - 1);
    }
  }

  lemma ModOfDouble(x: nat, e: nat)
    requires 0 < e
    ensures x % (2 * e) == x % 2 + 2 * ((x / 2) % e)
  {
    var q, r := (x / 2) / e, (x / 2) % e;
    assert x == x % 2 + 2 * (q * e + r);
    assert 2 * (q * e) == q * (2 * e);
    DivModUnique(x, 2 * e, q, x % 2 + 2 * r);
  }

  lemma MulOrder(a: int, b: int, d: int)
    requires 0 < d
    ensures a < b ==> a * d + d <= b * d
    ensures a * d + (b - a) * d == b * d
  {
    if a < b {
      var k := b - a;
      assert b * d == a * d + k * d;
      assert 0 <= (k - 1) * d == k * d - d;
    }
  }

  lemma DivModUnique(x: int, d: int, q: int, r: int)
    requires 0 < d && 0 <= r < d && x == q * d + r
    ensures x / d == q && x % d == r
  {
    assert x == x / d * d + x % d;
    MulOrder(x / d, q, d);
    MulOrder(q, x / d, d);
  }

  /** `x & (d - 1)` is the remainder for every power of two. */
  lemma {:induction false} AndMask(x: nat, d: nat)
    requires IsPow2(d)
    ensures And(x, d - 1) == x % d
    decreases d
  {
    if d > 1 && x > 0 {
      var e := d / 2;
      AndMask(x / 2, e);
      ModOfDouble(x, e);
      assert (d - 1) / 2 == e - 1 && (d - 1) % 2 == 1;
    }
  }

  /** `x & (depth - 1)` as the driver writes it. */
  function Mask(x: nat, depth: nat): (r: nat)
    requires IsPow2(depth)
    ensures r == x % depth
  {
    AndMask(x, depth);
    And(x, depth - 1)
  }

  lemma {:induction false} AndSelf(x: nat)
    ensures And(x, x) == x
  {
    if x > 0 { AndSelf(x / 2); }
  }

  /** The test `(v & (v - 1)) == 0` accepts exactly the powers of two. */
  lemma {:induction false} PowerOfTwoTest(v: nat)
    requires 1 <= v
    ensures And(v, v - 1) == 0 <==> IsPow2(v)
    decreases v
  {
    if v > 1 {
      if v % 2 == 0 {
        PowerOfTwoTest(v / 2);
        assert (v - 1) / 2 == v / 2 - 1;
      } else {
        AndSelf(v / 2);
        assert (v - 1) / 2 == v / 2;
      }
    }
  }

  /** Largest power of two not above `v`. */
  function TopBit(v: nat): (p: nat)
    requires 1 <= v
    ensures IsPow2(p) && p <= v < 2 * p
  {
    if v == 1 then 1 else 2 * TopBit(v / 2)
  }

  lemma {:induction false} TopBitUnique(v: nat, p: nat)
    requires 1 <= v && IsPow2(p) && p <= v < 2 * p
    ensures p == TopBit(v)
    decreases v
  {
    if v > 1 {
      TopBitUnique(v / 2, p / 2);
    }
  }

  /** Clearing the lowest set bit keeps the highest one. */
  lemma {:induction false} ClearLowestBit(v: nat)
    requires 1 <= v && And(v, v - 1) != 0
    ensures And(v, v - 1) < v && TopBit(And(v, v - 1)) == TopBit(v)
    decreases v
  {
    hide And, TopBit;
    var u := v / 2;
    AndStep(v, v - 1);
    if v % 2 == 0 {
      assert (v - 1) / 2 == u - 1;
      ClearLowestBit(u);
      TopBitDouble(v);
      TopBitDouble(2 * And(u, u - 1));
    } else {
      AndSelf(u);
      assert (v - 1) / 2 == u;
      TopBitDouble(v);
      TopBitDouble(2 * u);
    }
  }

  lemma AndStep(x: nat, y: nat)
    ensures And(x, y) == if x == 0 || y == 0 then 0 else (x % 2) * (y % 2) + 2 * And(x / 2, y / 2)
  {
  }

  lemma TopBitDouble(v: nat)
    requires 2 <= v
    ensures TopBit(v) == 2 * TopBit(v / 2)
  {
  }

  // ---- powers of two dividing each other ----

  lemma {:induction false} Pow2Divides(d: nat, e: nat)
    requires IsPow2(d) && IsPow2(e) && d <= e
    ensures e % d == 0
    decreases e
  {
    if d > 1 {
      Pow2Divides(d / 2, e / 2);
      ModOfDouble(e, d / 2);
    }
  }

  // ---- 16-bit counters ----

  lemma PowU16()
    ensures Pow2(16) == U16
  {
    assert Pow2(4) == 16;
    assert Pow2(8) == 256;
    assert Pow2(12) == 4096;
  }

  lemma U16IsPow2(d: nat)
    requires IsPow2(d) && d <= 0x8000
    ensures IsPow2(2 * d) && U16 % (2 * d) == 0 && U16 % d == 0
  {
    Pow2IsPow2(16);
    PowU16();
    assert 2 * d / 2 == d;
    assert IsPow2(2 * d);
    hide IsPow2, Pow2;
    Pow2Divides(2 * d, U16);
    Pow2Divides(d, U16);
  }

  /** Phase bit of the n-th pass over a ring of `depth` slots; the first pass is 1. */
  function Phase(n: nat, depth: nat): (p: nat)
    requires 0 < depth
    ensures p <= 1
  {
    1 - (n / depth) % 2
  }

  /** Reducing a counter modulo a multiple of m does not change it modulo m. */
  lemma ModOfMultiple(n: nat, m: nat, big: nat)
    requires 0 < m && 0 < big && big % m == 0
    ensures (n % big) % m == n % m
  {
    var q, a, h := big / m, n / big, n % big;
    assert big == q * m;
    assert n == a * big + h;
    assert a * big == (a * q) * m by { assert a * (q * m) == (a * q) * m; }
    DivModUnique(n, m, a * q + h / m, h % m) by {
      assert h == h / m * m + h % m;
      assert (a * q + h / m) * m == (a * q) * m + h / m * m;
    }
  }

  /** The parity of n / d is read off n modulo 2d. */
  lemma ParityOfQuotient(n: nat, d: nat)
    requires 0 < d
    ensures (n / d) % 2 == (n % (2 * d)) / d
  {
    var q, r := n / d, n % d;
    assert n == q * d + r;
    var a, b := q / 2, q % 2;
    assert q * d == a * (2 * d) + b * d by { assert q == 2 * a + b; }
    assert b * d + r < 2 * d;
    DivModUnique(n, 2 * d, a, b * d + r);
    DivModUnique(b * d + r, d, b, r);
  }

  /** A 16-bit counter selects the same slot and the same phase as the
      unbounded count: 65536 / depth is even for every accepted depth. */
  lemma WrapHarmless(n: nat, depth: nat)
    requires IsPow2(depth) && depth <= 0x8000
    ensures (n % U16) % depth == n % depth
    ensures Phase(n % U16, depth) == Phase(n, depth)
  {
    U16IsPow2(depth);
    ModOfMultiple(n, depth, U16);
    ModOfMultiple(n, 2 * depth, U16);
    ParityOfQuotient(n, depth);
    ParityOfQuotient(n % U16, depth);
  }

  /** The flip-on-wrap rule computes the phase of the next index. */
  lemma PhaseStep(n: nat, depth: nat)
    requires 0 < depth
    ensures Phase(n + 1, depth) == if (n + 1) % depth == 0 then 1 - Phase(n, depth) else Phase(n, depth)
  {
    var q, r := n / depth, n % depth;
    if r + 1 == depth {
      assert n + 1 == (q + 1) * depth by { assert (q + 1) * depth == q * depth + depth; }
      DivModUnique(n + 1, depth, q + 1, 0);
    } else {
      DivModUnique(n + 1, depth, q, r + 1);
    }
  }

  /** In the first pass a counter is its own slot. */
  lemma SmallTail(k: nat, d: nat)
    requires k < d <= U16
    ensures (k % U16) % d == k
  {
  }

  lemma PhaseFirst(k: nat, depth: nat)
    requires k < depth
    ensures Phase(k, depth) == 1
  {
    DivModUnique(k, depth, 0, k);
  }

  /** One pass later the same slot carries the opposite phase. */
  lemma PhaseNextPass(n: nat, depth: nat)
    requires 0 < depth
    ensures Phase(n + depth, depth) == 1 - Phase(n, depth)
    ensures (n + depth) % depth == n % depth
  {
    var q, r := n / depth, n % depth;
    assert n + depth == (q + 1) * depth + r by { assert (q + 1) * depth == q * depth + depth; }
    DivModUnique(n + depth, depth, q + 1, r);
  }

  lemma NextIndex(n: nat)
    ensures (n % U16 + 1) % U16 == (n + 1) % U16
  {
  }

  /** A 16-bit head or tail with its phase bit, one step on. */
  lemma CounterStep(n: nat, depth: nat)
    requires IsPow2(depth) && depth <= 0x8000
    ensures var h := (n % U16 + 1) % U16;
            && h == (n + 1) % U16
            && (h % depth == 0 <==> (n + 1) % depth == 0)
            && Phase(n + 1, depth) == if h % depth == 0 then 1 - Phase(n, depth) else Phase(n, depth)
  {
    WrapHarmless(n + 1, depth);
    PhaseStep(n, depth);
    if n % U16 + 1 == U16 {
      DivModUnique(n + 1, U16, n / U16 + 1, 0);
    } else {
      DivModUnique(n + 1, U16, n / U16, n % U16 + 1);
    }
  }

  /** Fewer than depth steps apart means different slots. */
  lemma SlotsDiffer(a: nat, b: nat, depth: nat)
    requires a < b < a + depth
    ensures a % depth != b % depth
  {
    var qa, qb := a / depth, b / depth;
    assert a == qa * depth + a % depth && b == qb * depth + b % depth;
    MulOrder(qa, qb, depth);
    MulOrder(qb, qa, depth);
  }

  /** Counting on from a wrapped counter gives the same phase and slot. */
  lemma WrapThenAdd(n: nat, k: nat, depth: nat)
    requires IsPow2(depth) && depth <= 0x8000
    ensures Phase(n % U16 + k, depth) == Phase(n + k, depth)
    ensures (n % U16 + k) % depth == (n + k) % depth
  {
    var q := n / U16;
    assert n + k == q * U16 + (n % U16 + k);
    var r := (n % U16 + k) % U16;
    assert n + k == (q + (n % U16 + k) / U16) * U16 + r;
    DivModUnique(n + k, U16, q + (n % U16 + k) / U16, r);
    WrapHarmless(n + k, depth);
    WrapHarmless(n % U16 + k, depth);
  }
}
