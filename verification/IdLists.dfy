/** Duplicate-free lists of identifiers below a bound. */
module IdLists {

  ghost predicate NoDup<T>(s: seq<T>) {
    forall i, j :: 0 <= i < j < |s| ==> s[i] != s[j]
  }

  ghost predicate Below(s: seq<nat>, n: nat) {
    forall i :: 0 <= i < |s| ==> s[i] < n
  }

  /** Removal as the driver does it: the last entry takes the freed place. */
  function SwapRemove<T>(s: seq<T>, i: nat): (r: seq<T>)
    requires i < |s|
    ensures |r| == |s| - 1
    ensures multiset(r) + multiset{s[i]} == multiset(s)
  {
    var n := |s| - 1;
    assert s == s[..n] + [s[n]];
    if i == n then s[..n] else
      var t := s[..n];
      assert s[i] == t[i];
      assert multiset(t[i := s[n]]) == multiset(t) - multiset{t[i]} + multiset{s[n]};
      t[i := s[n]]
  }

  lemma SwapRemoveMembers<T>(s: seq<T>, i: nat)
    requires i < |s| && NoDup(s)
    ensures NoDup(SwapRemove(s, i))
    ensures forall x :: x in SwapRemove(s, i) <==> x in s && x != s[i]
  {
    var r := SwapRemove(s, i);
    forall x | x in s && x != s[i] ensures x in r {
      var k :| 0 <= k < |s| && s[k] == x;
      assert if k == |s| - 1 then r[i] == x else r[k] == x;
    }
  }

  ghost function Elems<T>(s: seq<T>): set<T> {
    set x | x in s
  }

  /** The numbers below n. */
  ghost function Range(n: nat): (r: set<nat>)
    ensures |r| == n
    ensures forall x: nat :: x in r <==> x < n
  {
    if n == 0 then {} else Range(n - 1) + {n - 1}
  }

  lemma {:induction false} DistinctCount<T>(s: seq<T>)
    requires NoDup(s)
    ensures |Elems(s)| == |s|
  {
    if s != [] {
      var n := |s| - 1;
      var t := s[..n];
      DistinctCount(t);
      assert s == t + [s[n]];
      assert s[n] !in Elems(t);
      assert Elems(s) == Elems(t) + {s[n]};
    }
  }

  lemma SubsetSize<T>(a: set<T>, b: set<T>)
    requires a <= b
    ensures |a| <= |b|
    ensures |a| == |b| ==> a == b
  {
    assert b == a + (b - a);
  }

  /** Pigeonhole: a duplicate-free list below n has at most n entries, and
      it has exactly n of them only when it names every number below n. */
  lemma Pigeonhole(s: seq<nat>, n: nat)
    requires NoDup(s) && Below(s, n)
    ensures |s| <= n
    ensures |s| == n <==> forall x: nat :: x < n ==> x in s
  {
    DistinctCount(s);
    assert Elems(s) <= Range(n);
    SubsetSize(Elems(s), Range(n));
    if |s| == n {
      forall x: nat | x < n ensures x in s { assert x in Elems(s); }
    }
    if forall x: nat :: x < n ==> x in s {
      assert Elems(s) == Range(n);
    }
  }

  /** The numbers below n, each once. */
  ghost function Each(n: nat): (r: multiset<nat>)
    ensures |r| == n
    ensures forall x: nat :: r[x] == if x < n then 1 else 0
  {
    if n == 0 then multiset{} else Each(n - 1) + multiset{n - 1}
  }

  lemma SubBagSize<T>(a: multiset<T>, b: multiset<T>)
    requires a <= b
    ensures |a| <= |b|
  {
    assert b == a + (b - a);
  }

  lemma NoDupJoin<T>(a: seq<T>, b: seq<T>)
    requires NoDup(a) && NoDup(b) && forall x :: x in a ==> x !in b
    ensures NoDup(a + b)
  {
    var c := a + b;
    forall i, j | 0 <= i < j < |c| ensures c[i] != c[j] {
      if i < |a| <= j { assert a[i] in a && b[j - |a|] in b; }
    }
  }
}

/** The free list of identifiers: an array with pop index, push index and count. */
module IdFifo {
  import opened IdLists

  datatype Fifo = Fifo(ids: seq<nat>, head: nat, tail: nat, count: nat) {

    ghost predicate Valid() {
      && head < |ids| && count <= |ids|
      && tail == Slot(count)
    }

    /** Array index of the k-th entry from the head. */
    function Slot(k: nat): (i: nat)
    {
      if head + k < |ids| then head + k else if head + k < 2 * |ids| then head + k - |ids| else 0
    }

    /** The waiting identifiers, oldest first, unwrapped. */
    ghost function Contents(): (c: seq<nat>)
      requires Valid()
      ensures |c| == count
    {
      seq(count, k requires 0 <= k < count => ids[Slot(k)])
    }

    function Front(): nat
      requires Valid() && 0 < count
    {
      ids[head]
    }

    function Pop(): Fifo
      requires Valid() && 0 < count
    {
      this.(head := Next(head, |ids|), count := count - 1)
    }

    function Push(x: nat): Fifo
      requires Valid()
    {
      this.(ids := ids[tail := x], tail := Next(tail, |ids|), count := count + 1)
    }
  }

  /** The index after i in an array of n entries: `(i + 1) & (n - 1)`. */
  function Next(i: nat, n: nat): (j: nat)
    requires i < n
    ensures j == (i + 1) % n && j < n
  {
    if i + 1 == n then 0 else i + 1
  }

  /** Pool in which every identifier below n waits in increasing order. */
  function Full(n: nat): (f: Fifo)
    requires 0 < n
    ensures f.Valid() && f.Contents() == f.ids && |f.ids| == n
    ensures NoDup(f.Contents()) && Below(f.Contents(), n)
    ensures forall x: nat :: x < n ==> x in f.Contents()
  {
    var f := Fifo(seq(n, i requires 0 <= i < n => i), 0, 0, n);
    assert f.Contents() == f.ids;
    Pigeonhole(f.ids, n);
    f
  }

  lemma PopContents(f: Fifo)
    requires f.Valid() && 0 < f.count
    ensures f.Pop().Valid()
    ensures f.Contents() == [f.Front()] + f.Pop().Contents()
  {
    var c, d := f.Contents(), f.Pop().Contents();
    forall k | 0 < k < |c| ensures c[k] == d[k - 1] {
      assert f.Slot(k) == f.Pop().Slot(k - 1);
    }
  }

  lemma PushContents(f: Fifo, x: nat)
    requires f.Valid() && f.count < |f.ids|
    ensures f.Push(x).Valid()
    ensures f.Push(x).Contents() == f.Contents() + [x]
  {
    var c, d := f.Contents(), f.Push(x).Contents();
    forall k | 0 <= k < |c| ensures c[k] == d[k] {
      assert f.Slot(k) != f.tail;
    }
  }
}
