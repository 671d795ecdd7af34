/**
 * The iterators of `act/lang/iter.cc`.  The namespace, instance and type
 * iterators walk the buckets of a hash table: bucket `i` is the chain that
 * starts at `head[i]`, and the entry pointer `b` is written here as the
 * position of the entry in that chain, `-1` for NULL.  The unique-process
 * iterator walks the same way but stops only on wanted entries.  The alias
 * iterator follows the `next` ring of a connection net from its start.
 */
module Iters {

  import opened Common
  import opened Conn

  /*------------------------------ hash tables -------------------------------*/

  /** The entries of buckets `0 .. i - 1`, bucket by bucket, each in chain
      order. */
  function Prefix<V>(t: seq<seq<V>>, i: nat): seq<V>
    requires i <= |t|
  {
    if i == 0 then [] else Prefix(t, i - 1) + t[i - 1]
  }

  /** Every entry of the table, in the order the bucket iterators visit. */
  function Flat<V>(t: seq<seq<V>>): seq<V> {
    Prefix(t, |t|)
  }

  /** The entries of the first buckets come first. */
  lemma {:induction false} PrefixGrows<V>(t: seq<seq<V>>, i: nat, j: nat)
    requires i <= j <= |t|
    ensures |Prefix(t, i)| <= |Prefix(t, j)| && Prefix(t, j)[..|Prefix(t, i)|] == Prefix(t, i)
    decreases j
  {
    if i == j {
      assert Prefix(t, j)[..|Prefix(t, j)|] == Prefix(t, j);
    } else {
      PrefixGrows(t, i, j - 1);
      var p := Prefix(t, j - 1);
      assert Prefix(t, j)[..|p|] == p;
      assert Prefix(t, j)[..|Prefix(t, i)|] == p[..|Prefix(t, i)|];
    }
  }

  /** A well-formed iterator position: bucket `i` at most the table size,
      and an entry only inside a bucket's chain. */
  predicate At<V>(t: seq<seq<V>>, i: nat, b: int) {
    i <= |t| && -1 <= b && (b != -1 ==> i < |t| && b < |t[i]|)
  }

  /** A position `++` can leave: on an entry, or the end `(size, NULL)`. */
  predicate Settled<V>(t: seq<seq<V>>, i: nat, b: int) {
    b != -1 || i == |t|
  }

  /** The place in `Flat(t)` of the entry at a position, or of the first
      entry at or after bucket `i` when `b` is NULL. */
  function Index<V>(t: seq<seq<V>>, i: nat, b: int): nat
    requires At(t, i, b)
  {
    |Prefix(t, i)| + if b == -1 then 0 else b
  }

  /** An entry position denotes its entry of `Flat(t)`; a NULL one lies at
      most at the end. */
  lemma Entry<V>(t: seq<seq<V>>, i: nat, b: int)
    requires At(t, i, b)
    ensures Index(t, i, b) <= |Flat(t)|
    ensures b != -1 ==> Index(t, i, b) < |Flat(t)| && Flat(t)[Index(t, i, b)] == t[i][b]
  {
    if b == -1 {
      PrefixGrows(t, i, |t|);
    } else {
      PrefixGrows(t, i + 1, |t|);
      assert Prefix(t, i + 1) == Prefix(t, i) + t[i];
      assert Flat(t)[Index(t, i, b)] == Prefix(t, i + 1)[Index(t, i, b)];
    }
  }

  /** Settled positions are told apart by their place: two of them at the
      same place are the same position. */
  lemma SettledUnique<V>(t: seq<seq<V>>, i1: nat, b1: int, i2: nat, b2: int)
    requires At(t, i1, b1) && Settled(t, i1, b1) && At(t, i2, b2) && Settled(t, i2, b2)
    requires Index(t, i1, b1) == Index(t, i2, b2)
    ensures i1 == i2 && b1 == b2
  {
    if i1 < i2 {
      IndexOrder(t, i1, b1, i2, b2);
    } else if i2 < i1 {
      IndexOrder(t, i2, b2, i1, b1);
    }
  }

  /** A settled position in an earlier bucket comes strictly first. */
  lemma IndexOrder<V>(t: seq<seq<V>>, i: nat, b: int, i': nat, b': int)
    requires At(t, i, b) && Settled(t, i, b) && At(t, i', b') && i < i'
    ensures Index(t, i, b) < Index(t, i', b')
  {
    PrefixGrows(t, i + 1, i');
    assert Prefix(t, i + 1) == Prefix(t, i) + t[i];
  }

  /** The body of `operator++` of the bucket iterators: the next entry of
      the chain, or else the head of the next non-empty bucket (the same
      bucket when starting from NULL), or else the end. */
  method Advance<V>(t: seq<seq<V>>, i0: nat, b0: int) returns (i: nat, b: int)
    requires At(t, i0, b0)
    ensures At(t, i, b) && Settled(t, i, b) && i0 <= i
    ensures Index(t, i, b) == Index(t, i0, b0) + (if b0 != -1 then 1 else 0)
  {
    i, b := i0, b0;
    if b != -1 && b + 1 < |t[i]| {
      b := b + 1;
    } else {
      if b != -1 {
        assert Prefix(t, i + 1) == Prefix(t, i) + t[i];
        i := i + 1;
      }
      b := -1;
      while i < |t| && |t[i]| == 0
        invariant i0 <= i <= |t|
        invariant |Prefix(t, i)| == Index(t, i0, b0) + (if b0 != -1 then 1 else 0)
      {
        assert Prefix(t, i + 1) == Prefix(t, i) + t[i];
        i := i + 1;
      }
      if i != |t| {
        b := 0;
      }
    }
  }

  /*--------------------------- the bucket iterator --------------------------*/

  /** `ActNamespaceiter`, `ActInstiter` and `ActTypeiter`: one iterator over
      the buckets of a table (the sub-namespaces, the instances of a scope,
      the types of a namespace). */
  class BucketIter<V(==)> {
    const top: seq<seq<V>>
    var i: nat
    var b: int

    ghost predicate Valid()
      reads this
    {
      At(top, i, b)
    }

    /** The place of the iterator in `Flat(top)`. */
    ghost function Pos(): nat
      reads this
      requires Valid()
    {
      Index(top, i, b)
    }

    /** A fresh iterator, before the first bucket. */
    constructor (t: seq<seq<V>>)
      ensures Valid() && top == t && i == 0 && b == -1
    {
      top, i, b := t, 0, -1;
    }

    /** The copy constructor. */
    method Copy() returns (c: BucketIter<V>)
      ensures fresh(c) && c.top == top && c.i == i && c.b == b
    {
      c := new BucketIter(top);
      c.i, c.b := i, b;
    }

    /** `operator++`: one entry further, landing on an entry or the end. */
    method Inc()
      requires Valid()
      modifies this
      ensures Valid() && Settled(top, i, b) && old(i) <= i
      ensures Pos() == old(Pos()) + (if old(b) != -1 then 1 else 0)
    {
      i, b := Advance(top, i, b);
    }

    /** The postfix `operator++`: a copy of the old state, then `++`. */
    method PostInc() returns (tmp: BucketIter<V>)
      requires Valid()
      modifies this
      ensures fresh(tmp) && tmp.top == top && tmp.i == old(i) && tmp.b == old(b)
      ensures Valid() && Settled(top, i, b) && Pos() == old(Pos()) + (if old(b) != -1 then 1 else 0)
    {
      tmp := Copy();
      Inc();
    }

    /** `begin`: from before the first bucket, one `++`. */
    method Begin() returns (it: BucketIter<V>)
      ensures fresh(it) && it.top == top && it.Valid() && Settled(top, it.i, it.b) && it.Pos() == 0
    {
      it := new BucketIter(top);
      it.Inc();
    }

    /** `end`: the bucket index at the table size, no entry. */
    method End() returns (it: BucketIter<V>)
      ensures fresh(it) && it.top == top && it.i == |top| && it.b == -1 && it.Valid()
    {
      it := new BucketIter(top);
      it.i := |top|;
    }

    /** `operator==`: the same table, bucket and entry. */
    predicate Equals(rhs: BucketIter<V>)
      reads this, rhs
    {
      rhs.top == top && rhs.i == i && rhs.b == b
    }

    /** `operator*`: the entry, NULL (`None`) without one. */
    function Current(): (r: Option<V>)
      reads this
      requires Valid()
      ensures r.Some? <==> b != -1
      ensures r.Some? ==> Pos() < |Flat(top)| && r.value == Flat(top)[Pos()]
    {
      Entry(top, i, b);
      if b != -1 then Some(top[i][b]) else None
    }
  }

  /** Two settled iterators over one table are equal exactly when they are
      at the same place; in particular one is at `end` exactly when it has
      passed every entry, and `*` is NULL exactly there. */
  lemma EqualsIsPlace<V>(a: BucketIter<V>, e: BucketIter<V>)
    requires a.Valid() && e.Valid() && a.top == e.top
    requires Settled(a.top, a.i, a.b) && Settled(e.top, e.i, e.b)
    ensures a.Equals(e) <==> a.Pos() == e.Pos()
    ensures e.i == |e.top| && e.b == -1 ==> (a.Equals(e) <==> a.Pos() == |Flat(a.top)|) && (a.Equals(e) <==> a.b == -1)
  {
    if a.Pos() == e.Pos() {
      SettledUnique(a.top, a.i, a.b, e.i, e.b);
    }
    Entry(a.top, a.i, a.b);
  }

  /** The `begin`/`end`/`++` loop over a bucket iterator: the entries come
      out in the order of `Flat`, each exactly once. */
  method Entries<V(==)>(t: seq<seq<V>>) returns (out: seq<V>)
    ensures out == Flat(t)
  {
    var start := new BucketIter(t);
    var it := start.Begin();
    var e := start.End();
    out := [];
    EqualsIsPlace(it, e);
    while !it.Equals(e)
      invariant it.Valid() && it.top == t && Settled(t, it.i, it.b) && fresh(it)
      invariant it.Pos() <= |Flat(t)| && out == Flat(t)[..it.Pos()]
      invariant e != it && e.top == t && e.i == |t| && e.b == -1
      invariant it.Equals(e) <==> it.b == -1
      decreases |Flat(t)| - it.Pos()
    {
      var x := it.Current();
      assert Flat(t)[..it.Pos() + 1] == Flat(t)[..it.Pos()] + [x.value];
      out := out + [x.value];
      it.Inc();
      EqualsIsPlace(it, e);
    }
    EqualsIsPlace(it, e);
    assert Flat(t)[..|Flat(t)|] == Flat(t);
  }

  /*--------------------------- unique processes -----------------------------*/

  /** The wanted entries of a sequence, in order. */
  function Filter<V>(wanted: V -> bool, s: seq<V>): seq<V> {
    if |s| == 0 then []
    else Filter(wanted, s[..|s| - 1]) + if wanted(s[|s| - 1]) then [s[|s| - 1]] else []
  }

  /** Skipping unwanted entries adds nothing to the filtered prefix. */
  lemma {:induction false} FilterSkip<V>(wanted: V -> bool, s: seq<V>, a: nat, c: nat)
    requires a <= c <= |s|
    requires forall f :: a <= f < c ==> !wanted(s[f])
    ensures Filter(wanted, s[..c]) == Filter(wanted, s[..a])
    decreases c
  {
    if c > a {
      assert s[..c][..c - 1] == s[..c - 1];
      FilterSkip(wanted, s, a, c - 1);
    }
  }

  /** `ActUniqProcInstiter`: a bucket iterator over the instances of a scope
      that stops only on the wanted ones (processes that are primary). */
  class ProcIter<V(==)> {
    const top: seq<seq<V>>
    const wanted: V -> bool
    var i: nat
    var b: int

    ghost predicate Valid()
      reads this
    {
      At(top, i, b)
    }

    ghost function Pos(): nat
      reads this
      requires Valid()
    {
      Index(top, i, b)
    }

    constructor (t: seq<seq<V>>, w: V -> bool)
      ensures Valid() && top == t && wanted == w && i == 0 && b == -1
    {
      top, wanted, i, b := t, w, 0, -1;
    }

    /** `operator++`: bucket steps until a wanted entry or the end; every
        entry passed over is unwanted. */
    method Inc()
      requires Valid()
      modifies this
      ensures Valid() && Settled(top, i, b) && Pos() <= |Flat(top)|
      ensures Pos() >= old(Pos()) + (if old(b) != -1 then 1 else 0)
      ensures forall f :: old(Pos()) + (if old(b) != -1 then 1 else 0) <= f < Pos() ==> !wanted(Flat(top)[f])
      ensures b != -1 ==> wanted(top[i][b])
    {
      ghost var from := Pos() + (if b != -1 then 1 else 0);
      i, b := Advance(top, i, b);
      var found := b != -1 && wanted(top[i][b]);
      Entry(top, i, b);
      while !found && b != -1 && i != |top|
        invariant At(top, i, b) && Settled(top, i, b) && from <= Index(top, i, b) <= |Flat(top)|
        invariant forall f :: from <= f < Index(top, i, b) ==> !wanted(Flat(top)[f])
        invariant found <==> b != -1 && wanted(top[i][b])
        decreases |Flat(top)| - Index(top, i, b)
      {
        Entry(top, i, b);
        i, b := Advance(top, i, b);
        found := b != -1 && wanted(top[i][b]);
        Entry(top, i, b);
      }
    }

    method Begin() returns (it: ProcIter<V>)
      ensures fresh(it) && it.top == top && it.wanted == wanted && it.Valid() && Settled(top, it.i, it.b)
      ensures it.Pos() <= |Flat(top)|
      ensures forall f :: 0 <= f < it.Pos() ==> !wanted(Flat(top)[f])
      ensures it.b != -1 ==> wanted(top[it.i][it.b])
    {
      it := new ProcIter(top, wanted);
      it.Inc();
    }

    method End() returns (it: ProcIter<V>)
      ensures fresh(it) && it.top == top && it.wanted == wanted && it.i == |top| && it.b == -1 && it.Valid()
    {
      it := new ProcIter(top, wanted);
      it.i := |top|;
    }

    predicate Equals(rhs: ProcIter<V>)
      reads this, rhs
    {
      rhs.top == top && rhs.i == i && rhs.b == b
    }

    function Current(): (r: Option<V>)
      reads this
      requires Valid()
      ensures r.Some? <==> b != -1
      ensures r.Some? ==> Pos() < |Flat(top)| && r.value == Flat(top)[Pos()]
    {
      Entry(top, i, b);
      if b != -1 then Some(top[i][b]) else None
    }
  }

  /** The loop of the Verilog emitter over the unique processes of a scope:
      exactly the wanted instances, each once, in table order. */
  method WantedEntries<V(==)>(t: seq<seq<V>>, wanted: V -> bool) returns (out: seq<V>)
    ensures out == Filter(wanted, Flat(t))
  {
    var inst := new ProcIter(t, wanted);
    var it := inst.Begin();
    var e := inst.End();
    out := [];
    FilterSkip(wanted, Flat(t), 0, it.Pos());
    assert Flat(t)[..0] == [];
    Entry(t, it.i, it.b);
    while !it.Equals(e)
      invariant it.Valid() && it.top == t && it.wanted == wanted && Settled(t, it.i, it.b) && fresh(it)
      invariant it.Pos() <= |Flat(t)| && out == Filter(wanted, Flat(t)[..it.Pos()])
      invariant it.b != -1 ==> wanted(t[it.i][it.b])
      invariant e != it && e.top == t && e.i == |t| && e.b == -1
      invariant it.Equals(e) <==> it.b == -1
      decreases |Flat(t)| - it.Pos()
    {
      var x := it.Current();
      ghost var p := it.Pos();
      assert Flat(t)[..p + 1][..p] == Flat(t)[..p];
      out := out + [x.value];
      it.Inc();
      FilterSkip(wanted, Flat(t), p + 1, it.Pos());
      Entry(t, it.i, it.b);
    }
    assert Flat(t)[..|Flat(t)|] == Flat(t);
  }

  /*------------------------------ alias rings -------------------------------*/

  /** The node `k` steps along the `next` links from `s`; a ring that stays
      inside the nets of `root` keeps it in the net of `s`. */
  ghost function Hop(next: seq<int>, root: seq<nat>, s: nat, k: nat): (r: nat)
    requires |next| == |root| && RingOf(next, root) && s < |next|
    ensures r < |next| && root[r] == root[s]
  {
    if k == 0 then s else next[Hop(next, root, s, k - 1)]
  }

  /** `ActConniter`: the nodes of one net, from `start` along `next` until
      the ring comes back to `start`; `cur` is NULL (`-1`) at the end.  The
      ghost count `k` is the number of steps taken. */
  class ConnIter {
    const net: Net
    const start: nat
    var cur: int
    ghost var k: nat

    ghost predicate Valid()
      reads this, net
    {
      |net.next| == |net.root| && RingOf(net.next, net.root) && start < |net.next| && -1 <= cur < |net.next| &&
      (cur != -1 ==> cur == Hop(net.next, net.root, start, k) &&
                     forall j :: 0 < j <= k ==> Hop(net.next, net.root, start, j) != start)
    }

    /** A fresh iterator, at the end. */
    constructor (n: Net, s: nat)
      requires |n.next| == |n.root| && RingOf(n.next, n.root) && s < |n.next|
      ensures Valid() && net == n && start == s && cur == -1 && k == 0
    {
      net, start, cur, k := n, s, -1, 0;
    }

    /** `begin`: at `start`. */
    method Begin() returns (it: ConnIter)
      requires Valid()
      ensures fresh(it) && it.Valid() && it.net == net && it.start == start && it.cur == start && it.k == 0
    {
      it := new ConnIter(net, start);
      it.cur := start;
    }

    /** `operator++`: one step along the ring, to the end when the next node
        is `start`; at the end nothing changes. */
    method Inc()
      requires Valid()
      modifies this
      ensures Valid()
      ensures old(cur) == -1 ==> cur == -1
      ensures old(cur) != -1 ==> (cur == -1 <==> net.next[old(cur)] == start)
      ensures old(cur) != -1 && cur != -1 ==> cur == net.next[old(cur)] && k == old(k) + 1
      ensures old(cur) != -1 && cur == -1 ==> Hop(net.next, net.root, start, old(k) + 1) == start
      ensures cur != -1 ==> net.root[cur] == net.root[start]
    {
      if cur != -1 {
        if net.next[cur] == start {
          cur := -1;
        } else {
          cur, k := net.next[cur], k + 1;
        }
      }
    }

    /** `operator==`: the same start and the same node. */
    predicate Equals(rhs: ConnIter)
      reads this, rhs
    {
      rhs.start == start && rhs.cur == cur
    }
  }

  /** Iterating a net from `s` whose ring first comes back after `m` steps:
      the nodes `Hop(s, 0 .. m - 1)`, all in the net of `s`, none but the
      first equal to `s`. */
  method Aliases(n: Net, s: nat, ghost m: nat) returns (out: seq<nat>)
    requires |n.next| == |n.root| && RingOf(n.next, n.root) && s < |n.next|
    requires 0 < m && Hop(n.next, n.root, s, m) == s
    ensures 1 <= |out| <= m && out[0] == s && Hop(n.next, n.root, s, |out|) == s
    ensures forall j :: 0 <= j < |out| ==> out[j] == Hop(n.next, n.root, s, j) && n.root[out[j]] == n.root[s]
    ensures forall j :: 0 < j < |out| ==> out[j] != s
  {
    var cx := new ConnIter(n, s);
    var it := cx.Begin();
    out := [];
    while it.cur != -1
      invariant fresh(it) && it.Valid() && it.net == n && it.start == s
      invariant |out| <= m && (it.cur != -1 ==> it.k == |out| && it.k < m)
      invariant it.cur == -1 ==> 1 <= |out| && Hop(n.next, n.root, s, |out|) == s
      invariant |out| >= 1 ==> out[0] == s
      invariant forall j :: 0 <= j < |out| ==> out[j] == Hop(n.next, n.root, s, j)
      invariant forall j :: 0 < j < |out| ==> out[j] != s
      decreases m - |out|
    {
      out := out + [it.cur];
      it.Inc();
      if it.cur != -1 {
        RingBound(n.next, n.root, s, it.k, m);
      }
    }
  }

  /** Before the ring closes, fewer steps have been taken than the ring has
      nodes. */
  lemma RingBound(next: seq<int>, root: seq<nat>, s: nat, k: nat, m: nat)
    requires |next| == |root| && RingOf(next, root) && s < |next|
    requires 0 < m && Hop(next, root, s, m) == s
    requires forall j :: 0 < j <= k ==> Hop(next, root, s, j) != s
    ensures k < m
  {
  }

  /** On a ring whose `next` links are one-to-one, the nodes before the first
      return to `s` are all different: each node of the net comes once. */
  lemma AliasesDistinct(next: seq<int>, root: seq<nat>, s: nat, m: nat)
    requires |next| == |root| && RingOf(next, root) && s < |next|
    requires forall a, b :: 0 <= a < b < |next| ==> next[a] != next[b]
    requires forall j :: 0 < j < m ==> Hop(next, root, s, j) != s
    ensures forall a, b :: 0 <= a < b < m ==> Hop(next, root, s, a) != Hop(next, root, s, b)
  {
    forall a, b | 0 <= a < b < m
      ensures Hop(next, root, s, a) != Hop(next, root, s, b)
    {
      if Hop(next, root, s, a) == Hop(next, root, s, b) {
        HopBack(next, root, s, a, b);
      }
    }
  }

  /** One-to-one links run backwards: equal nodes after `a` and `b` steps
      mean `s` comes back after `b - a` steps. */
  lemma {:induction false} HopBack(next: seq<int>, root: seq<nat>, s: nat, a: nat, b: nat)
    requires |next| == |root| && RingOf(next, root) && s < |next| && a <= b
    requires forall x, y :: 0 <= x < y < |next| ==> next[x] != next[y]
    requires Hop(next, root, s, a) == Hop(next, root, s, b)
    ensures Hop(next, root, s, b - a) == s
    decreases a
  {
    if a > 0 {
      var x, y := Hop(next, root, s, a - 1), Hop(next, root, s, b - 1);
      assert next[x] == next[y];
      HopBack(next, root, s, a - 1, b - 1);
    }
  }
}
