/** Bounce slots of one queue: a FIFO of free slots and a map from request ID
    to the slot its buffer uses, -1 for none. */
module BounceSlots {
  import opened IdLists
  import opened IdFifo
  import R = RingTypes

  datatype Slots = Slots(free: Fifo, map_: seq<int>)

  ghost predicate Shape(b: Slots) {
    && b.free.Valid() && |b.map_| == |b.free.ids|
    && (forall i :: 0 <= i < |b.free.ids| ==> b.free.ids[i] < |b.free.ids|)
    && (forall i :: 0 <= i < |b.map_| ==> -1 <= b.map_[i] < |b.map_|)
  }

  function Init(n: nat): (b: Slots)
    requires 0 < n
    ensures Shape(b)
  {
    Slots(Full(n), seq(n, i requires 0 <= i < n => -1))
  }

  /** The slots named by the map. */
  ghost function Used(m: seq<int>): multiset<nat> {
    if m == [] then multiset{} else Used(m[..|m| - 1]) + UsedOne(m[|m| - 1])
  }

  ghost function UsedOne(x: int): multiset<nat> {
    if x < 0 then multiset{} else var n: nat := x; multiset{n}
  }

  lemma {:induction false} UsedUpdate(m: seq<int>, i: nat, x: int)
    requires i < |m|
    ensures Used(m[i := x]) + UsedOne(m[i]) == Used(m) + UsedOne(x)
  {
    hide Used, UsedOne;
    var n := |m| - 1;
    var upd, front := m[i := x], m[..n];
    UsedLast(m);
    UsedLast(upd);
    if i == n {
      assert upd[..n] == front;
    } else {
      UsedUpdate(front, i, x);
      assert upd[..n] == front[i := x] && front[i] == m[i] && upd[n] == m[n];
      calc {
        Used(upd) + UsedOne(m[i]);
        (Used(front[i := x]) + UsedOne(m[n])) + UsedOne(m[i]);
        { R.AddBoth(Used(front[i := x]), Used(front), UsedOne(m[i]), UsedOne(x), UsedOne(m[n])); }
        (Used(front) + UsedOne(m[n])) + UsedOne(x);
        Used(m) + UsedOne(x);
      }
    }
  }

  lemma UsedLast(m: seq<int>)
    requires m != []
    ensures Used(m) == Used(m[..|m| - 1]) + UsedOne(m[|m| - 1])
  {
  }

  lemma {:induction false} UsedNone(m: seq<int>)
    requires forall i :: 0 <= i < |m| ==> m[i] < 0
    ensures Used(m) == multiset{}
  {
    if m != [] { UsedNone(m[..|m| - 1]); }
  }

  ghost function Waiting(f: Fifo): multiset<nat>
    requires f.Valid()
  {
    multiset(f.Contents())
  }

  /** Where every slot is: waiting in the pool or named by the map. */
  ghost function Account(b: Slots): multiset<nat>
    requires Shape(b)
  {
    Waiting(b.free) + Used(b.map_)
  }

  /** No slot is in two places. This holds even when slots were lost. */
  ghost predicate Apart(b: Slots) {
    Shape(b) && Account(b) <= Each(|b.map_|)
  }

  /** Every slot is in exactly one place. */
  ghost predicate Whole(b: Slots) {
    Shape(b) && Account(b) == Each(|b.map_|)
  }

  lemma InitWhole(n: nat)
    requires 0 < n
    ensures Whole(Init(n))
  {
    UsedNone(Init(n).map_);
    FullBag(n, Full(n).ids);
  }

  lemma {:induction false} FullBag(n: nat, s: seq<nat>)
    requires |s| == n && forall i :: 0 <= i < n ==> s[i] == i
    ensures multiset(s) == Each(n)
  {
    if n > 0 {
      FullBag(n - 1, s[..n - 1]);
      assert s == s[..n - 1] + [s[n - 1]];
    }
  }

  // ---- the two moves ----

  /** Take the oldest free slot. */
  function Take(b: Slots): (nat, Slots)
    requires Shape(b) && 0 < b.free.count
  {
    (b.free.Front(), b.(free := b.free.Pop()))
  }

  /** Put a slot back. */
  function Give(b: Slots, slot: nat): Slots
    requires Shape(b)
  {
    b.(free := b.free.Push(slot))
  }

  /** Unmap a request and put its slot back, if it has one. */
  function Unmap(b: Slots, req: nat): Slots
    requires Shape(b)
  {
    if req >= |b.map_| || b.map_[req] < 0 then b
    else Give(b.(map_ := b.map_[req := -1]), b.map_[req])
  }

  lemma TakeMoves(b: Slots)
    requires Shape(b) && 0 < b.free.count
    ensures var (x, c) := Take(b);
            Shape(c) && x < |b.map_| && Account(b) == Account(c) + multiset{x}
  {
    PopContents(b.free);
    var (x, c) := Take(b);
    assert b.free.Contents() == [x] + c.free.Contents();
  }

  /** A slot that is nowhere can always be put back. */
  lemma GiveMoves(b: Slots, x: nat)
    requires Shape(b) && Account(b) + multiset{x} <= Each(|b.map_|)
    ensures b.free.count < |b.map_|
    ensures Shape(Give(b, x)) && Account(Give(b, x)) == Account(b) + multiset{x}
  {
    var all := Each(|b.map_|);
    SubBagSize(Account(b) + multiset{x}, all);
    assert x < |b.map_| by { assert (Account(b) + multiset{x})[x] <= all[x]; }
    PushContents(b.free, x);
  }

  lemma UnmapMoves(b: Slots, req: nat)
    requires Apart(b)
    ensures var c := Unmap(b, req);
            && Apart(c) && Account(c) == Account(b) && |c.map_| == |b.map_|
            && c.map_ == (if req < |b.map_| then b.map_[req := -1] else b.map_)
  {
    if req < |b.map_| {
      if b.map_[req] < 0 {
        assert b.map_[req := -1] == b.map_;
      } else {
        var m := b.(map_ := b.map_[req := -1]);
        UsedUpdate(b.map_, req, -1);
        var x: nat := b.map_[req];
        assert Account(m) + multiset{x} == Account(b) by {
          assert Used(m.map_) + UsedOne(b.map_[req]) == Used(b.map_);
        }
        GiveMoves(m, b.map_[req]);
      }
    }
  }

  lemma UnmapRoom(b: Slots, req: nat)
    requires Apart(b) && req < |b.map_| && b.map_[req] >= 0
    ensures b.free.count < |b.map_| && Shape(b.(map_ := b.map_[req := -1]))
  {
    var m := b.(map_ := b.map_[req := -1]);
    UsedUpdate(b.map_, req, -1);
    var x: nat := b.map_[req];
    assert Account(m) + multiset{x} == Account(b) by {
      assert Used(m.map_) + UsedOne(b.map_[req]) == Used(b.map_);
    }
    GiveMoves(m, x);
  }

  /** Naming a slot in an unused map entry moves it there; naming it in a used
      entry loses the slot that was there. */
  lemma NameMoves(b: Slots, req: nat, x: nat)
    requires Shape(b) && req < |b.map_| && x < |b.map_|
    ensures var c := b.(map_ := b.map_[req := x]);
            Shape(c) && Account(c) + UsedOne(b.map_[req]) == Account(b) + multiset{x}
  {
    UsedUpdate(b.map_, req, x);
    var c := b.(map_ := b.map_[req := x]);
    assert UsedOne(x) == multiset{x};
    var lost := UsedOne(b.map_[req]);
    assert (Waiting(b.free) + Used(c.map_)) + lost == Waiting(b.free) + (Used(c.map_) + lost);
  }

  /** Take a slot and name it for a request: nothing is in two places, and the
      pool stays whole exactly when the request had no slot. */
  lemma TakeThenName(b: Slots, req: nat)
    requires Apart(b) && 0 < b.free.count && req < |b.map_|
    ensures var (x, taken) := Take(b);
            var c := taken.(map_ := taken.map_[req := x]);
            && Apart(c) && Account(c) + UsedOne(b.map_[req]) == Account(b)
            && (Whole(b) ==> (Whole(c) <==> b.map_[req] < 0))
  {
    TakeMoves(b);
    var (x, taken) := Take(b);
    NameMoves(taken, req, x);
    var c := taken.(map_ := taken.map_[req := x]);
    assert Account(c) + UsedOne(b.map_[req]) == Account(b);
    if b.map_[req] >= 0 {
      var y: nat := b.map_[req];
      assert Account(c)[y] + 1 == Account(b)[y];
    }
  }

  /** Take a slot and put it back. */
  lemma TakeThenGive(b: Slots)
    requires Apart(b) && 0 < b.free.count
    ensures var (x, taken) := Take(b);
            Shape(taken) && Shape(Give(taken, x)) && Account(Give(taken, x)) == Account(b)
  {
    TakeMoves(b);
    var (x, taken) := Take(b);
    GiveMoves(taken, x);
  }

  lemma {:induction false} UsedHas(m: seq<int>, i: nat)
    requires i < |m| && m[i] >= 0
    ensures var x: nat := m[i]; 0 < Used(m)[x]
  {
    if i < |m| - 1 { UsedHas(m[..|m| - 1], i); }
  }

  lemma {:induction false} UsedTwice(m: seq<int>, i: nat, j: nat)
    requires i < j < |m| && m[i] == m[j] >= 0
    ensures var x: nat := m[i]; 2 <= Used(m)[x]
  {
    var front := m[..|m| - 1];
    if j == |m| - 1 {
      UsedHas(front, i);
    } else {
      UsedTwice(front, i, j);
    }
  }

  /** Two map entries of a pool that is apart never name the same slot. */
  lemma ApartMeans(b: Slots, i: nat, j: nat)
    requires Apart(b) && i < j < |b.map_|
    ensures b.map_[i] >= 0 ==> b.map_[i] != b.map_[j]
  {
    if b.map_[i] >= 0 {
      var x: nat := b.map_[i];
      assert Used(b.map_)[x] <= Account(b)[x] <= Each(|b.map_|)[x] <= 1;
      if b.map_[i] == b.map_[j] { UsedTwice(b.map_, i, j); }
    }
  }

  // ---- lost slots ----

  /** The requests that have a slot. */
  ghost function Mapped(m: seq<int>): set<nat> {
    set id: nat | id < |m| && m[id] >= 0
  }

  lemma {:induction false} MappedCount(m: seq<int>)
    ensures |Used(m)| == |Mapped(m)|
  {
    if m != [] {
      hide Used;
      var n, front := |m| - 1, m[..|m| - 1];
      MappedCount(front);
      UsedLast(m);
      MappedLast(m);
    }
  }

  lemma MappedLast(m: seq<int>)
    requires m != []
    ensures |Mapped(m)| == |Mapped(m[..|m| - 1])| + if m[|m| - 1] >= 0 then 1 else 0
  {
    var n, front := |m| - 1, m[..|m| - 1];
    if m[n] >= 0 {
      assert Mapped(m) == Mapped(front) + {n};
    } else {
      assert Mapped(m) == Mapped(front);
    }
  }

  /** What the number of lost slots says about a pool in which no slot is in
      two places. */
  lemma LostCount(b: Slots, lost: nat)
    requires Apart(b) && |Account(b)| + lost == |b.map_|
    ensures b.free.count + |Mapped(b.map_)| + lost == |b.map_|
    ensures Whole(b) <==> lost == 0
  {
    MappedCount(b.map_);
    assert |b.free.Contents()| == b.free.count;
    if lost == 0 { EqualBySize(Account(b), Each(|b.map_|)); }
  }

  lemma EqualBySize<T>(a: multiset<T>, b: multiset<T>)
    requires a <= b && |a| == |b|
    ensures a == b
  {
    assert b == a + (b - a);
  }

  lemma WholeSize(b: Slots)
    requires Whole(b)
    ensures |Account(b)| == |b.map_|
  {
  }
}
