/**
 * The connection graph (`act_connection`) and the scopes it hangs off.
 *
 * The compiler allocates connection nodes on the heap and links them by
 * pointers; here they live in one arena, `Net`, and a node is its index.
 * Each attribute of a node is one sequence of the arena:
 *   - `up`: the union-find link (`-1` for a primary node);
 *   - `parent` and `off`: the structural parent (the node whose child array
 *     holds this one, `-1` at the top of an instance) and the position in
 *     that array;
 *   - `vx`: the value slot the node stands for, `-1` when not yet bound;
 *   - `sub`: the lazily allocated child array (`[]` when there is none),
 *     whose entries are node indices or `-1`;
 *   - `next`: the alias ring linking the nodes of one net.
 * Value slots (`ValueIdx`) are indices into the same arena: what a slot
 * is (name, type, global or not) never changes, whether it has been touched
 * (`init`) and its root connection (`conn`) do.  Scopes and expanded
 * user-defined types are fixed tables.
 *
 * The ghost sequences `root` and `dist` say, for every node, the primary
 * node of its net and its distance from it; they are what the union-find
 * operations are proved against.
 */
module Conn {

  import opened Common
  import opened Arrays
  import opened UserTypes

  /** The fixed part of a value slot. */
  datatype SlotInfo = SlotInfo(name: string, t: InstType, global: bool)

  /** A scope: the slots declared in it by name, its parent scope (`-1` for
      none), the user-defined type whose body it is (`-1` for none) and
      whether that type is a function. */
  datatype ScopeRec = ScopeRec(vals: map<string, nat>, parent: int, owner: int, isFunction: bool)

  /** An expanded user-defined type: its meta-parameter and port names, the
      port types, and its scope. */
  datatype UserRec = UserRec(name: string, params: seq<string>, ports: seq<string>, portTypes: seq<InstType>, scope: nat)

  /** `Merge(r, w, l)`: every node of net `l` now belongs to net `w`. */
  function Merge(r: seq<nat>, w: nat, l: nat): (m: seq<nat>)
    ensures |m| == |r|
  {
    seq(|r|, j requires 0 <= j < |r| => if r[j] == l then w else r[j])
  }

  /** Merging two nets joins exactly those two classes and keeps every other. */
  lemma MergeClasses(r: seq<nat>, w: nat, l: nat, a: nat, b: nat)
    requires a < |r| && b < |r| && w != l
    ensures Merge(r, w, l)[a] == Merge(r, w, l)[b] <==>
      r[a] == r[b] || ((r[a] == w || r[a] == l) && (r[b] == w || r[b] == l))
  {
  }

  /** The child arrays that existed keep their length, and an entry once
      filled keeps its node. */
  ghost predicate SubsKept(s0: seq<seq<int>>, s1: seq<seq<int>>) {
    |s0| <= |s1| &&
    (forall j :: 0 <= j < |s0| && |s0[j]| > 0 ==> |s1[j]| == |s0[j]|) &&
    (forall j, i :: 0 <= j < |s0| && 0 <= i < |s0[j]| && s0[j][i] != -1 ==> s1[j][i] == s0[j][i])
  }

  /** Nets are never split: every old node is still in the net of its old
      primary. */
  ghost predicate NetsKept(r0: seq<nat>, r1: seq<nat>) {
    |r0| <= |r1| && forall a {:trigger r0[a]} :: 0 <= a < |r0| ==> r0[a] < |r0| && r1[a] == r1[r0[a]]
  }

  /** The structure of a net that allocation, binding and merging never undo. */
  datatype Snap = Snap(sub: seq<seq<int>>, parent: seq<int>, vx: seq<int>, root: seq<nat>)

  /** From `a` to `b`: old nodes keep their structural parent, filled child
      entries stay, and nodes in one net stay in one net. */
  ghost predicate KeepsOf(a: Snap, b: Snap) {
    SubsKept(a.sub, b.sub) && |a.parent| <= |b.parent| && b.parent[..|a.parent|] == a.parent &&
    NetsKept(a.root, b.root)
  }

  /** As `KeepsOf`, and a bound node keeps its slot. */
  ghost predicate ExtendsOf(a: Snap, b: Snap) {
    KeepsOf(a, b) && |a.vx| <= |b.vx| && forall j :: 0 <= j < |a.vx| && a.vx[j] != -1 ==> b.vx[j] == a.vx[j]
  }

  /** `v` is the slot `VxOf` picks for node `c` when the nodes' slots are
      `x` and their structural parents `parent`: the node's own, else its
      parent's, else its grandparent's. */
  ghost predicate SlotIn(x: seq<int>, parent: seq<int>, c: nat, v: nat) {
    c < |x| <= |parent| &&
    if x[c] != -1 then v == x[c]
    else
      var p := parent[c];
      0 <= p < c &&
      if x[p] != -1 then v == x[p]
      else
        var g := parent[p];
        0 <= g < p && x[g] == v
  }

  /** Extending the structural parents does not change the slot picked. */
  lemma SlotInKept(x: seq<int>, p0: seq<int>, p1: seq<int>, c: nat, v: nat)
    requires SlotIn(x, p0, c, v) && |p0| <= |p1| && p1[..|p0|] == p0
    ensures SlotIn(x, p1, c, v)
  {
    assert p1[c] == p0[c];
    if x[c] == -1 && x[p0[c]] == -1 {
      assert p1[p0[c]] == p0[p0[c]];
    }
  }

  /** Node `c` has the same slot in `a` and in `b`. */
  ghost predicate SameSlot(a: seq<int>, b: seq<int>, c: int) {
    0 <= c < |a| && c < |b| && b[c] == a[c]
  }

  /** From slots `a` to slots `b`: nodes are only added, and every bound node
      but `e` keeps its slot. */
  ghost predicate RebindOnly(a: seq<int>, b: seq<int>, e: nat) {
    |a| <= |b| && forall c {:trigger SameSlot(a, b, c)} :: 0 <= c < |a| && c != e && a[c] != -1 ==> SameSlot(a, b, c)
  }

  lemma RebindTrans(a: seq<int>, b: seq<int>, c: seq<int>, e: nat)
    requires |a| <= |b| && (forall j :: 0 <= j < |a| && a[j] != -1 ==> b[j] == a[j]) && RebindOnly(b, c, e)
    ensures RebindOnly(a, c, e)
  {
    forall x | 0 <= x < |a| && x != e && a[x] != -1
      ensures SameSlot(a, c, x)
    {
      assert SameSlot(b, c, x);
    }
  }

  /** Rebinding node `e` after steps that kept every bound node's slot
      rebinds only `e`. */
  lemma RebindAfter(a: Snap, b: Snap, e: nat, v: int)
    requires ExtendsOf(a, b) && e < |b.vx|
    ensures RebindOnly(a.vx, b.vx[e := v], e)
  {
    forall x | 0 <= x < |a.vx| && x != e && a.vx[x] != -1
      ensures SameSlot(a.vx, b.vx[e := v], x)
    {
    }
  }

  /** Every slot touched in `i0` is still touched in `i1`, with the same
      root connection. */
  ghost predicate TouchedKept(i0: seq<bool>, c0: seq<int>, i1: seq<bool>, c1: seq<int>) {
    |i0| == |c0| == |i1| == |c1| && forall j :: 0 <= j < |i0| && i0[j] ==> i1[j] && c1[j] == c0[j]
  }

  lemma TouchedTrans(i0: seq<bool>, c0: seq<int>, i1: seq<bool>, c1: seq<int>, i2: seq<bool>, c2: seq<int>)
    requires TouchedKept(i0, c0, i1, c1) && TouchedKept(i1, c1, i2, c2)
    ensures TouchedKept(i0, c0, i2, c2)
  {
  }

  /** Merging two nets keeps every net together. */
  lemma MergeKept(r: seq<nat>, w: nat, l: nat)
    requires forall a :: 0 <= a < |r| ==> r[a] < |r| && r[r[a]] == r[a]
    ensures NetsKept(r, Merge(r, w, l))
  {
  }

  lemma KeepsTrans(a: Snap, b: Snap, c: Snap)
    requires KeepsOf(a, b) && KeepsOf(b, c)
    ensures KeepsOf(a, c)
  {
    assert c.parent[..|a.parent|] == c.parent[..|b.parent|][..|a.parent|];
    forall x | 0 <= x < |a.root| ensures c.root[x] == c.root[a.root[x]] {
      assert b.root[a.root[x]] == b.root[x];
    }
  }

  lemma ExtendsTrans(a: Snap, b: Snap, c: Snap)
    requires ExtendsOf(a, b) && ExtendsOf(b, c)
    ensures ExtendsOf(a, c)
  {
    KeepsTrans(a, b, c);
  }

  /** The primary of a node is its own primary. */
  lemma RootsFixed(up: seq<int>, root: seq<nat>, dist: seq<nat>)
    requires |root| == |up| && |dist| == |up| && ForestOf(up, root, dist)
    ensures forall x :: 0 <= x < |root| ==> root[x] < |root| && root[root[x]] == root[x]
  {
    forall x | 0 <= x < |root| ensures root[x] < |root| && root[root[x]] == root[x] {
      assert up[root[x]] == -1;
    }
  }

  /** Filling an empty entry of a child array undoes nothing. */
  lemma FillKept(sub: seq<seq<int>>, c: nat, s: seq<int>, idx: nat)
    requires c < |sub| && idx < |s| && (|sub[c]| == 0 || (|sub[c]| == |s| && sub[c][idx] == -1))
    requires forall i :: 0 <= i < |s| && i != idx ==> s[i] == (if |sub[c]| == 0 then -1 else sub[c][i])
    ensures SubsKept(sub, sub[c := s])
  {
  }

  /** Appending a node that is its own net undoes nothing. */
  lemma AppendExtends(a: Snap, p: int, v: int)
    requires forall x :: 0 <= x < |a.root| ==> a.root[x] < |a.root| && a.root[a.root[x]] == a.root[x]
    ensures ExtendsOf(a, Snap(a.sub + [[]], a.parent + [p], a.vx + [v], a.root + [|a.root|]))
  {
    var b := Snap(a.sub + [[]], a.parent + [p], a.vx + [v], a.root + [|a.root|]);
    assert b.parent[..|a.parent|] == a.parent;
    forall x | 0 <= x < |a.root| ensures b.root[x] == b.root[a.root[x]] {
      assert b.root[x] == a.root[x] && b.root[a.root[x]] == a.root[a.root[x]];
    }
  }

  /** Two nodes of one net stay in one net. */
  lemma SameNetKept(a: Snap, b: Snap, x: nat, y: nat)
    requires KeepsOf(a, b) && x < |a.root| && y < |a.root| && a.root[x] == a.root[y]
    ensures b.root[x] == b.root[y]
  {
  }

  /** Entry `i` of the child array of `c` is node `d`. */
  ghost predicate ChildAt(sub: seq<seq<int>>, c: int, i: int, d: int) {
    0 <= c < |sub| && 0 <= i < |sub[c]| && sub[c][i] == d
  }

  /** The node reached from `c` through the child arrays along the offsets
      `offs`, if every entry on the way is filled. */
  ghost function Descend(sub: seq<seq<int>>, c: nat, offs: seq<int>): Option<nat>
    decreases |offs|
  {
    if |offs| == 0 then Some(c)
    else if c < |sub| && 0 <= offs[0] < |sub[c]| && sub[c][offs[0]] >= 0 then Descend(sub, sub[c][offs[0]], offs[1..])
    else None
  }

  /** One more offset descends one more level. */
  lemma {:induction false} DescendSnoc(sub: seq<seq<int>>, c: nat, offs: seq<int>, d: nat, o: int, e: nat)
    requires Descend(sub, c, offs) == Some(d) && ChildAt(sub, d, o, e)
    ensures Descend(sub, c, offs + [o]) == Some(e)
    decreases |offs|
  {
    if |offs| > 0 {
      assert (offs + [o])[1..] == offs[1..] + [o];
      DescendSnoc(sub, sub[c][offs[0]], offs[1..], d, o, e);
    }
  }

  /** A node reached through filled entries is reached the same way later. */
  lemma {:induction false} DescendKept(s0: seq<seq<int>>, s1: seq<seq<int>>, c: nat, offs: seq<int>)
    requires SubsKept(s0, s1) && Descend(s0, c, offs).Some?
    ensures Descend(s1, c, offs) == Descend(s0, c, offs)
    decreases |offs|
  {
    if |offs| > 0 {
      DescendKept(s0, s1, s0[c][offs[0]], offs[1..]);
    }
  }

  /** The fixed tables refer only to what exists, and parent scopes come
      before their children. */
  ghost predicate StaticsOf(info: seq<SlotInfo>, scopes: seq<ScopeRec>, users: seq<UserRec>) {
    (forall s :: 0 <= s < |scopes| ==> scopes[s].parent < s && scopes[s].owner < |users|) &&
    (forall s, x :: 0 <= s < |scopes| && x in scopes[s].vals ==> scopes[s].vals[x] < |info|) &&
    (forall u :: 0 <= u < |users| ==> users[u].scope < |scopes| && |users[u].portTypes| == |users[u].ports|) &&
    (forall u, m :: 0 <= u < |users| && 0 <= m < |users[u].portTypes| && users[u].portTypes[m].base.User? ==>
       users[u].portTypes[m].base.ud < |users|) &&
    (forall k :: 0 <= k < |info| && info[k].t.base.User? ==> info[k].t.base.ud < |users|)
  }

  ghost predicate ForestOf(up: seq<int>, root: seq<nat>, dist: seq<nat>)
    requires |root| == |up| && |dist| == |up|
  {
    forall j :: 0 <= j < |up| ==>
      root[j] < |up| && up[root[j]] == -1 &&
      (up[j] == -1 ==> root[j] == j && dist[j] == 0) &&
      (up[j] != -1 ==> 0 <= up[j] < |up| && root[up[j]] == root[j] && dist[up[j]] < dist[j])
  }

  ghost predicate RingOf(next: seq<int>, root: seq<nat>)
    requires |next| == |root|
  {
    forall j :: 0 <= j < |next| ==> 0 <= next[j] < |next| && root[next[j]] == root[j]
  }

  ghost predicate TreeOf(parent: seq<int>, vx: seq<int>, slots: nat)
    requires |vx| == |parent|
  {
    forall j :: 0 <= j < |parent| ==>
      -1 <= parent[j] < j && -1 <= vx[j] < slots && (parent[j] == -1 ==> 0 <= vx[j])
  }

  ghost predicate SubsOf(sub: seq<seq<int>>, parent: seq<int>, off: seq<nat>)
    requires |parent| == |sub| && |off| == |sub|
  {
    forall j, i :: 0 <= j < |sub| && 0 <= i < |sub[j]| ==>
      -1 <= sub[j][i] < |sub| && (sub[j][i] != -1 ==> parent[sub[j][i]] == j && off[sub[j][i]] == i)
  }

  ghost predicate SlotsOf(init: seq<bool>, conn: seq<int>, nodes: nat)
    requires |conn| == |init|
  {
    forall k :: 0 <= k < |init| ==> -1 <= conn[k] < nodes && (init[k] ==> 0 <= conn[k])
  }

  /** Exchanging the successors of two nodes of one net keeps the ring in it. */
  lemma RingSwap(next: seq<int>, root: seq<nat>, c1: nat, c2: nat)
    requires |next| == |root| && RingOf(next, root) && c1 < |next| && c2 < |next| && root[c1] == root[c2]
    ensures RingOf(next[c1 := next[c2]][c2 := next[c1]], root)
  {
  }

  /** A new node that is its own net keeps every invariant. */
  lemma AddNodeKeeps(up: seq<int>, root: seq<nat>, dist: seq<nat>, next: seq<int>,
                     parent: seq<int>, vx: seq<int>, slots: nat, sub: seq<seq<int>>, off: seq<nat>,
                     init: seq<bool>, conn: seq<int>, p: int, o: nat, v: int)
    requires |root| == |up| && |dist| == |up| && |next| == |up| && |parent| == |up| && |vx| == |up|
    requires |sub| == |up| && |off| == |up| && |conn| == |init|
    requires ForestOf(up, root, dist) && RingOf(next, root) && TreeOf(parent, vx, slots)
    requires SubsOf(sub, parent, off) && SlotsOf(init, conn, |up|)
    requires -1 <= p < |up| && -1 <= v < slots && (p == -1 ==> 0 <= v)
    ensures ForestOf(up + [-1], root + [|up|], dist + [0])
    ensures RingOf(next + [|up|], root + [|up|])
    ensures TreeOf(parent + [p], vx + [v], slots)
    ensures SubsOf(sub + [[]], parent + [p], off + [o])
    ensures SlotsOf(init, conn, |up| + 1)
  {
    var n := |up|;
    var next', root' := next + [n], root + [n];
    forall j | 0 <= j < |next'|
      ensures 0 <= next'[j] < |next'| && root'[next'[j]] == root'[j]
    {
      if j < n {
        assert next'[j] == next[j] && root'[next[j]] == root[next[j]] && root'[j] == root[j];
      }
    }
    var sub' := sub + [[]];
    forall j, i | 0 <= j < |sub'| && 0 <= i < |sub'[j]|
      ensures -1 <= sub'[j][i] < |sub'|
      ensures sub'[j][i] != -1 ==> (parent + [p])[sub'[j][i]] == j && (off + [o])[sub'[j][i]] == i
    {
      assert j < n && sub'[j][i] == sub[j][i];
    }
  }

  class Net {
    const info: seq<SlotInfo>
    const scopes: seq<ScopeRec>
    const users: seq<UserRec>
    var init: seq<bool>
    var conn: seq<int>
    var up: seq<int>
    var parent: seq<int>
    var off: seq<nat>
    var vx: seq<int>
    var sub: seq<seq<int>>
    var next: seq<int>
    ghost var root: seq<nat>
    ghost var dist: seq<nat>

    ghost predicate Shape()
      reads this
    {
      |parent| == |up| && |off| == |up| && |vx| == |up| && |sub| == |up| &&
      |next| == |up| && |root| == |up| && |dist| == |up| &&
      |init| == |info| && |conn| == |info|
    }

    ghost predicate Statics() {
      StaticsOf(info, scopes, users)
    }

    /** `up` is a forest: following it from any node reaches `root` of that
        node, a primary node, with `dist` going down on every step. */
    ghost predicate Forest()
      reads this
      requires Shape()
    {
      ForestOf(up, root, dist)
    }

    /** The alias ring never leaves a net. */
    ghost predicate Ring()
      reads this
      requires Shape()
    {
      RingOf(next, root)
    }

    /** Structural parents are older than their children, and the top node of
        an instance is bound to its slot. */
    ghost predicate Tree()
      reads this
      requires Shape()
    {
      TreeOf(parent, vx, |info|)
    }

    /** A child array holds its children at their own offsets. */
    ghost predicate Subs()
      reads this
      requires Shape()
    {
      SubsOf(sub, parent, off)
    }

    /** A touched slot has its root connection. */
    ghost predicate Slots()
      reads this
      requires Shape()
    {
      SlotsOf(init, conn, |up|)
    }

    ghost function Snapshot(): Snap
      reads this
    {
      Snap(sub, parent, vx, root)
    }

    /** Nothing of snapshot `a` was undone. */
    ghost predicate Extends(a: Snap)
      reads this
    {
      ExtendsOf(a, Snapshot())
    }

    /** Nothing of snapshot `a` but slot bindings was undone. */
    ghost predicate Keeps(a: Snap)
      reads this
    {
      KeepsOf(a, Snapshot())
    }

    ghost predicate Valid()
      reads this
    {
      Shape() && Statics() && Forest() && Ring() && Tree() && Subs() && Slots()
    }

    constructor (slots: seq<SlotInfo>, ss: seq<ScopeRec>, us: seq<UserRec>)
      requires StaticsOf(slots, ss, us)
      ensures Valid() && info == slots && scopes == ss && users == us
      ensures up == [] && init == seq(|slots|, k => false) && conn == seq(|slots|, k => -1)
    {
      info, scopes, users := slots, ss, us;
      init := seq(|slots|, k => false);
      conn := seq(|slots|, k => -1);
      up, parent, off, vx, sub, next := [], [], [], [], [], [];
      root, dist := [], [];
    }

    /*--------------------------------- queries --------------------------------*/

    /** `primary()`: the union-find find, without path compression. */
    method Primary(c: nat) returns (r: nat)
      requires Valid() && c < |up|
      ensures r == root[c] && r < |up| && up[r] == -1
    {
      r := c;
      while up[r] != -1
        invariant r < |up| && root[r] == root[c]
        decreases dist[r]
      {
        r := up[r];
      }
    }

    /** The top node of the instance a node belongs to. */
    function Top(c: nat): (t: nat)
      reads this
      requires Shape() && Tree() && c < |up|
      ensures t <= c && parent[t] == -1 && 0 <= vx[t] < |info|
      decreases c
    {
      if parent[c] == -1 then c else Top(parent[c])
    }

    /** `isglobal()`: the node belongs to a global value. */
    predicate IsGlobal(c: nat)
      reads this
      requires Shape() && Tree() && c < |up|
    {
      info[vx[Top(c)]].global
    }

    /** The offsets from the top node down to `c`. */
    function Offsets(c: nat): seq<nat>
      reads this
      requires Shape() && Tree() && c < |up|
      decreases c
    {
      if parent[c] == -1 then [] else Offsets(parent[c]) + [off[c]]
    }

    /** The value slot of a node found as `cx->vx`, else its parent's, else its
        grandparent's (an array element of a user-typed array). */
    function VxOf(c: nat): (r: Result<nat>)
      reads this
      requires Shape() && Tree() && c < |up|
      ensures r.Ok? ==> r.value < |info| && SlotIn(vx, parent, c, r.value)
    {
      if vx[c] != -1 then Ok(vx[c])
      else if parent[c] != -1 && vx[parent[c]] != -1 then Ok(vx[parent[c]])
      else if parent[c] != -1 && parent[parent[c]] != -1 && vx[parent[parent[c]]] != -1 then Ok(vx[parent[parent[c]]])
      else Err(Internal("What?"))
    }

    /** `_act_create_connection_stackidx`: climbs to the top node, pushing
        each offset on the way. */
    method StackIdx(c: nat) returns (l: seq<nat>, t: nat)
      requires Valid() && c < |up|
      ensures l == Offsets(c) && t == Top(c)
    {
      l := [];
      t := c;
      while parent[t] != -1
        invariant t < |up| && Offsets(c) == Offsets(t) + l && Top(t) == Top(c)
        decreases t
      {
        l := [off[t]] + l;
        t := parent[t];
      }
    }

    /*------------------------------- primitives -------------------------------*/

    /** Appends a node that is its own net. */
    method Append(p: int, o: nat, v: int) returns (r: nat)
      requires Valid() && -1 <= p < |up| && -1 <= v < |info| && (p == -1 ==> 0 <= v)
      modifies this
      ensures Valid() && r == old(|up|)
      ensures up == old(up) + [-1] && parent == old(parent) + [p] && off == old(off) + [o]
      ensures vx == old(vx) + [v] && sub == old(sub) + [[]] && next == old(next) + [r]
      ensures root == old(root) + [r] && dist == old(dist) + [0]
      ensures init == old(init) && conn == old(conn)
    {
      r := |up|;
      AddNodeKeeps(up, root, dist, next, parent, vx, |info|, sub, off, init, conn, p, o, v);
      up, parent, off, vx, sub, next := up + [-1], parent + [p], off + [o], vx + [v], sub + [[]], next + [r];
      root, dist := root + [r], dist + [0];
      assert Shape();
      assert Forest() && Ring() && Tree() && Subs() && Slots();
    }

    /** `new act_connection (p)`, as `Append`, which undoes nothing. */
    method AddNode(p: int, o: nat, v: int) returns (r: nat)
      requires Valid() && -1 <= p < |up| && -1 <= v < |info| && (p == -1 ==> 0 <= v)
      modifies this
      ensures Valid() && r == old(|up|)
      ensures up == old(up) + [-1] && parent == old(parent) + [p] && off == old(off) + [o]
      ensures vx == old(vx) + [v] && sub == old(sub) + [[]] && next == old(next) + [r]
      ensures root == old(root) + [r] && dist == old(dist) + [0]
      ensures init == old(init) && conn == old(conn) && Extends(old(Snapshot()))
    {
      ghost var a := Snapshot();
      RootsFixed(up, root, dist);
      AppendExtends(a, p, v);
      r := Append(p, o, v);
      assert Snapshot() == Snap(a.sub + [[]], a.parent + [p], a.vx + [v], a.root + [|a.root|]);
    }

    /** Binds a node to a value slot (`cx->vx = ...`). */
    method SetVx(c: nat, v: int)
      requires Valid() && c < |up| && -1 <= v < |info| && (parent[c] == -1 ==> 0 <= v)
      modifies this
      ensures Valid() && vx == old(vx)[c := v]
      ensures up == old(up) && parent == old(parent) && off == old(off) && sub == old(sub) && next == old(next)
      ensures root == old(root) && init == old(init) && conn == old(conn) && Keeps(old(Snapshot()))
    {
      vx := vx[c := v];
    }

    /** Marks a slot touched, with its root connection. */
    method SetSlot(k: nat, c: nat)
      requires Valid() && k < |info| && c < |up|
      modifies this
      ensures Valid() && init == old(init)[k := true] && conn == old(conn)[k := c]
      ensures up == old(up) && parent == old(parent) && off == old(off) && vx == old(vx) && sub == old(sub)
      ensures next == old(next) && root == old(root)
    {
      init, conn := init[k := true], conn[k := c];
    }

    /** `getsubconn (idx, sz)`: the child `idx` of `c`, allocating the child
        array of `sz` empty entries and the child itself when missing. */
    method GetSubconn(c: nat, idx: int, sz: int) returns (r: Result<nat>)
      requires Valid() && c < |up|
      modifies this
      ensures Valid() && Extends(old(Snapshot())) && |up| >= old(|up|)
      ensures r.Err? <==> !(0 <= idx < sz) || (old(|sub[c]|) > 0 && idx >= old(|sub[c]|))
      ensures r.Err? ==> r.error == Internal("getsubconn: index out of range") && up == old(up) && sub == old(sub)
      ensures r.Ok? ==> r.value < |up| && parent[r.value] == c && off[r.value] == idx && 0 <= idx < |sub[c]| && sub[c][idx] == r.value
      ensures r.Ok? && old(|sub[c]| > 0 && sub[c][idx] != -1) ==>
        r.value == old(sub[c][idx]) && up == old(up) && sub == old(sub) && vx == old(vx)
      ensures r.Ok? && !old(|sub[c]| > 0 && sub[c][idx] != -1) ==>
        r.value == old(|up|) && root == old(root) + [r.value] && vx == old(vx) + [-1] && up == old(up) + [-1] &&
        next == old(next) + [r.value]
      ensures root[..old(|up|)] == old(root) && vx[..old(|up|)] == old(vx)
      ensures up[..old(|up|)] == old(up) && off[..old(|up|)] == old(off)
      ensures init == old(init) && conn == old(conn)
    {
      if !(0 <= idx < sz) || (|sub[c]| > 0 && idx >= |sub[c]|) {
        return Err(Internal("getsubconn: index out of range"));
      }
      if |sub[c]| > 0 && sub[c][idx] != -1 {
        return Ok(sub[c][idx]);
      }
      var x := NewChild(c, idx, sz);
      assert root[..x] == old(root) && vx[..x] == old(vx) && up[..x] == old(up) && off[..x] == old(off);
      r := Ok(x);
    }

    /** The missing child `idx` of `c`, allocated with the child array when
        that is missing too. */
    method NewChild(c: nat, idx: nat, sz: nat) returns (x: nat)
      requires Valid() && c < |up| && idx < sz && (|sub[c]| == 0 || (idx < |sub[c]| && sub[c][idx] == -1))
      modifies this
      ensures Valid() && Extends(old(Snapshot())) && x == old(|up|)
      ensures root == old(root) + [x] && vx == old(vx) + [-1] && up == old(up) + [-1] && next == old(next) + [x]
      ensures parent[x] == c && off[x] == idx && idx < |sub[c]| && sub[c][idx] == x
      ensures off == old(off) + [idx] && init == old(init) && conn == old(conn)
    {
      var arr := if |sub[c]| == 0 then seq(sz, k => -1) else sub[c];
      x := AddNode(c, idx, -1);
      ghost var mid := Snapshot();
      SetChild(c, arr[idx := x], idx);
      ExtendsTrans(old(Snapshot()), mid, Snapshot());
    }

    /** Installs a child array in which entry `idx` is the node just added. */
    method SetChild(c: nat, s: seq<int>, idx: nat)
      requires Shape() && Statics() && Forest() && Ring() && Tree() && Slots()
      requires c + 1 < |up| && idx < |s| && s[idx] == |up| - 1
      requires parent[|up| - 1] == c && off[|up| - 1] == idx && sub[|up| - 1] == []
      requires |sub[c]| == 0 || (|sub[c]| == |s| && sub[c][idx] == -1)
      requires forall i :: 0 <= i < |s| && i != idx ==> s[i] == (if |sub[c]| == 0 then -1 else sub[c][i])
      requires forall j, i :: 0 <= j < |up| - 1 && 0 <= i < |sub[j]| ==>
        -1 <= sub[j][i] < |up| - 1 && (sub[j][i] != -1 ==> parent[sub[j][i]] == j && off[sub[j][i]] == i)
      modifies this
      ensures Valid() && sub == old(sub)[c := s]
      ensures up == old(up) && parent == old(parent) && off == old(off) && vx == old(vx) && next == old(next)
      ensures root == old(root) && dist == old(dist) && init == old(init) && conn == old(conn)
      ensures Extends(old(Snapshot()))
    {
      FillKept(sub, c, s, idx);
      sub := sub[c := s];
    }

    /** `_act_mk_raw_connection (c1, c2)`: merges the nets of `c1` and `c2`.
        The primary of `c2`'s net is hung under the primary of `c1`'s, unless
        only `c2`'s net is global, in which case it is the other way round;
        then the two alias rings are spliced by exchanging the `next` links
        of `c1` and `c2`.  Nodes already in one net are left alone. */
    method MkRawConnection(c1: nat, c2: nat)
      requires Valid() && c1 < |up| && c2 < |up|
      modifies this
      ensures |up| == old(|up|) && Valid() && root[c1] == root[c2]
      ensures old(root[c1]) == old(root[c2]) ==> up == old(up) && next == old(next) && root == old(root)
      ensures old(root[c1]) != old(root[c2]) && old(IsGlobal(root[c2]) && !IsGlobal(root[c1])) ==>
        up == old(up)[old(root[c1]) := old(root[c2])] && root == Merge(old(root), old(root[c2]), old(root[c1]))
      ensures old(root[c1]) != old(root[c2]) && !old(IsGlobal(root[c2]) && !IsGlobal(root[c1])) ==>
        up == old(up)[old(root[c2]) := old(root[c1])] && root == Merge(old(root), old(root[c1]), old(root[c2]))
      ensures old(root[c1]) != old(root[c2]) ==> next == old(next)[c1 := old(next[c2])][c2 := old(next[c1])]
      ensures parent == old(parent) && off == old(off) && vx == old(vx) && sub == old(sub)
      ensures init == old(init) && conn == old(conn) && Extends(old(Snapshot()))
    {
      var r1 := Primary(c1);
      var r2 := Primary(c2);
      if r1 == r2 {
        return;
      }
      if IsGlobal(r2) && !IsGlobal(r1) {
        Union(r2, r1);
      } else {
        Union(r1, r2);
      }
      ghost var mid := Snapshot();
      Splice(c1, c2);
      assert Snapshot() == mid;
    }

    /** Exchanges the `next` links of two nodes of one net. */
    method Splice(c1: nat, c2: nat)
      requires Valid() && c1 < |up| && c2 < |up| && root[c1] == root[c2]
      modifies this
      ensures Valid() && next == old(next)[c1 := old(next[c2])][c2 := old(next[c1])]
      ensures up == old(up) && root == old(root) && parent == old(parent) && off == old(off)
      ensures vx == old(vx) && sub == old(sub) && init == old(init) && conn == old(conn)
    {
      RingSwap(next, root, c1, c2);
      var t := next[c1];
      next := next[c1 := next[c2]][c2 := t];
    }

    /** Hangs primary `l` under primary `w`; `dist` grows by one in `l`'s net. */
    method Union(w: nat, l: nat)
      requires Valid() && w < |up| && l < |up| && w != l && up[w] == -1 && up[l] == -1
      modifies this
      ensures Valid() && up == old(up)[l := w] && root == Merge(old(root), w, l) && Extends(old(Snapshot()))
      ensures parent == old(parent) && off == old(off) && vx == old(vx) && sub == old(sub)
      ensures next == old(next) && init == old(init) && conn == old(conn)
    {
      ghost var r0, d0, u0 := root, dist, up;
      up := up[l := w];
      root := Merge(r0, w, l);
      dist := seq(|d0|, j requires 0 <= j < |d0| => if r0[j] == l then d0[j] + 1 else d0[j]);
      assert r0[l] == l && r0[w] == w;
      forall j | 0 <= j < |up|
        ensures root[j] < |up| && up[root[j]] == -1
        ensures up[j] == -1 ==> root[j] == j && dist[j] == 0
        ensures up[j] != -1 ==> 0 <= up[j] < |up| && root[up[j]] == root[j] && dist[up[j]] < dist[j]
      {
        if j != l && u0[j] != -1 {
          assert r0[u0[j]] == r0[j];
        }
      }
      forall j | 0 <= j < |up|
        ensures root[next[j]] == root[j]
      {
        assert r0[next[j]] == r0[j];
      }
      forall a | 0 <= a < |r0| ensures r0[a] < |r0| && r0[r0[a]] == r0[a] {
        assert u0[r0[a]] == -1;
      }
      MergeKept(r0, w, l);
    }
  }

  /** The node reached through the child arrays along `offs` sits below `c`
      at exactly those offsets, in the same instance. */
  lemma {:induction false} DescendOffsets(n: Net, c: nat, offs: seq<int>)
    requires n.Valid() && c < |n.up| && Descend(n.sub, c, offs).Some?
    ensures Descend(n.sub, c, offs).value < |n.up|
    ensures n.Offsets(Descend(n.sub, c, offs).value) == n.Offsets(c) + offs
    ensures n.Top(Descend(n.sub, c, offs).value) == n.Top(c)
    decreases |offs|
  {
    if |offs| > 0 {
      var d := n.sub[c][offs[0]];
      assert n.parent[d] == c && n.off[d] == offs[0];
      DescendOffsets(n, d, offs[1..]);
      assert n.Offsets(c) + offs == n.Offsets(c) + [offs[0]] + offs[1..];
    }
  }

  /** The top node above `x` in the structural parents `parent`. */
  ghost function TopOf(parent: seq<int>, x: nat): nat
    requires x < |parent| && forall j :: 0 <= j < |parent| ==> parent[j] < j
    decreases x
  {
    if parent[x] < 0 then x else TopOf(parent, parent[x])
  }

  /** The offsets from the top node down to `x`. */
  ghost function OffsetsOf(parent: seq<int>, off: seq<nat>, x: nat): seq<nat>
    requires x < |parent| == |off| && forall j :: 0 <= j < |parent| ==> parent[j] < j
    decreases x
  {
    if parent[x] < 0 then [] else OffsetsOf(parent, off, parent[x]) + [off[x]]
  }

  /** `Top` and `Offsets` read only the structural parents and offsets. */
  lemma {:induction false} StructureIn(n: Net, x: nat)
    requires n.Shape() && n.Tree() && x < |n.up|
    ensures forall j :: 0 <= j < |n.parent| ==> n.parent[j] < j
    ensures n.Top(x) == TopOf(n.parent, x) && n.Offsets(x) == OffsetsOf(n.parent, n.off, x)
    decreases x
  {
    if n.parent[x] != -1 {
      StructureIn(n, n.parent[x]);
    }
  }

  /** Nodes appended later do not change the structure above an old node. */
  lemma {:induction false} PrefixStructure(p0: seq<int>, o0: seq<nat>, p1: seq<int>, o1: seq<nat>, x: nat)
    requires |p0| == |o0| <= |p1| == |o1| && p1[..|p0|] == p0 && o1[..|o0|] == o0 && x < |p0|
    requires forall j :: 0 <= j < |p1| ==> p1[j] < j
    ensures forall j :: 0 <= j < |p0| ==> p0[j] < j
    ensures TopOf(p0, x) == TopOf(p1, x) && OffsetsOf(p0, o0, x) == OffsetsOf(p1, o1, x)
    decreases x
  {
    forall j | 0 <= j < |p0| ensures p0[j] < j {
      assert p0[j] == p1[..|p0|][j];
    }
    assert p1[x] == p1[..|p0|][x] && o1[x] == o1[..|o0|][x];
    if p0[x] >= 0 {
      PrefixStructure(p0, o0, p1, o1, p0[x]);
    }
  }
}
