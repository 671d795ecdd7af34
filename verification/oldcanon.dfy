/**
 * The older copy of identifier resolution (`act/id.cc`).  Its
 * `rawValueIdx` and the imports it triggers are those of `Canon` in the
 * `Older` variant.  Its `Canonical` first resolves the rest of the path
 * inside the type of the first name: a result belonging to a global is
 * returned at once; otherwise the rest of the path is rebuilt from the
 * names of that result's structural ancestors, and the walk of `Canon`
 * runs over the first name followed by the rebuilt rest.
 */
module OldCanon {

  import opened Common
  import opened Arrays
  import opened Paths
  import opened UserTypes
  import opened Conn
  import opened Canon

  /*------------------------- the stack of ancestors -------------------------*/

  /** Where the climb of `Canonical` goes from node `c`: a node with a slot
      stands for itself, an unbound node for itself and its parent, or for
      itself, its parent and its grandparent; `-2` when not even the
      grandparent has a slot. */
  function Above(n: Net, c: nat): (r: int)
    reads n
    requires n.Valid() && c < |n.up|
    ensures r == -2 || -1 <= r < c
    ensures r != -2 <==> n.VxOf(c).Ok?
  {
    if n.vx[c] != -1 then n.parent[c]
    else if n.vx[n.parent[c]] != -1 then n.parent[n.parent[c]]
    else if n.vx[n.parent[n.parent[c]]] != -1 then n.parent[n.parent[n.parent[c]]]
    else -2
  }

  /** The nodes `Canonical` pushes while climbing from `c`, top first. */
  function Ancestry(n: Net, c: int): (r: Result<seq<nat>>)
    reads n
    requires n.Valid() && -1 <= c < |n.up|
    ensures r.Ok? ==> forall i :: 0 <= i < |r.value| ==> r.value[i] < |n.up|
    ensures r.Ok? && c != -1 ==> |r.value| >= 1 && r.value[|r.value| - 1] == c
    ensures r.Err? ==> r.error == Internal("What?")
    decreases c + 1
  {
    if c == -1 then Ok([])
    else
      var a := Above(n, c);
      if a == -2 then Err(Internal("What?"))
      else
        var s :- Ancestry(n, a);
        Ok(s + [c])
  }

  /** A result of the climb followed by the nodes already stacked. */
  function Then(a: Result<seq<nat>>, tail: seq<nat>): Result<seq<nat>> {
    if a.Err? then a else Ok(a.value + tail)
  }

  /*--------------------------- the rebuilt names ----------------------------*/

  /** `Append` of one segment after the last one; once a port has been hung
      below the last segment, its `next` field is taken and `Append` fails. */
  function Add(acc: Path, stuck: bool, g: Seg): (r: Result<(Path, bool)>)
    ensures stuck <==> r.Err?
    ensures r.Ok? ==> r.value.0 == acc + [g] && !r.value.1
  {
    if stuck then Err(Internal("ActId::Append() called with non-NULL next field"))
    else Ok((acc + [g], false))
  }

  /** The segments one popped node contributes to the rebuilt rest: the name
      of its own slot; the name of its parent's slot, with the subscript of
      its element when that slot is an array; or, below an array element of
      a user-defined type, the array's name and subscript followed (except
      at the head) by the port's name. */
  function Emit(n: Net, c: nat, acc: Path, stuck: bool): (r: Result<(Path, bool)>)
    reads n
    requires n.Valid() && c < |n.up|
    ensures stuck ==> r.Err?
    ensures r.Ok? ==> |r.value.0| > |acc| && r.value.0[..|acc|] == acc
    ensures n.VxOf(c).Err? ==> r.Err?
  {
    if n.vx[c] != -1 then Add(acc, stuck, Seg(n.info[n.vx[c]].name, None))
    else if n.vx[n.parent[c]] != -1 then
      var w := n.info[n.vx[n.parent[c]]];
      if w.t.arr.Some? then
        if n.off[c] < Size(w.t.arr.value) then
          Add(acc, stuck, Seg(w.name, Some(ConstDims(UnOffset(w.t.arr.value, n.off[c])))))
        else Err(Internal("unOffset: offset out of range"))
      else if w.t.base.User? then Add(acc, stuck, Seg(w.name, None))
      else Err(Internal("???"))
    else if n.vx[n.parent[n.parent[c]]] != -1 then
      var w := n.info[n.vx[n.parent[n.parent[c]]]];
      if w.t.arr.None? then Err(Internal("unOffset: not an array"))
      else if n.off[n.parent[c]] >= Size(w.t.arr.value) then Err(Internal("unOffset: offset out of range"))
      else if !w.t.base.User? then Err(Internal("what?"))
      else
        var g := Seg(w.name, Some(ConstDims(UnOffset(w.t.arr.value, n.off[n.parent[c]]))));
        if |acc| == 0 then Add(acc, stuck, g)
        else
          var e :- Add(acc, stuck, g);
          var u := n.users[w.t.base.ud];
          var port :- PortAt(u.params, u.ports, n.off[c]);
          Ok((e.0 + [Seg(port, None)], true))
    else Err(Internal("???"))
  }

  /** The pop loop of the rebuild over the stacked nodes, top first. */
  function EmitAll(n: Net, xs: seq<nat>): (r: Result<(Path, bool)>)
    reads n
    requires n.Valid() && forall i :: 0 <= i < |xs| ==> xs[i] < |n.up|
    ensures r.Ok? ==> |r.value.0| >= |xs|
  {
    if |xs| == 0 then Ok(([], false))
    else
      var e :- EmitAll(n, xs[..|xs| - 1]);
      Emit(n, xs[|xs| - 1], e.0, e.1)
  }

  /** The rest of the path `Canonical` rebuilds from node `c`. */
  function Rebuilt(n: Net, c: nat): (r: Result<Path>)
    reads n
    requires n.Valid() && c < |n.up|
    ensures r.Ok? ==> |r.value| >= 1
  {
    var a :- Ancestry(n, c);
    var e :- EmitAll(n, a);
    Ok(e.0)
  }

  /** One popped node of the rebuild. */
  method EmitNode(n: Net, c: nat, acc: Path, stuck: bool) returns (r: Result<(Path, bool)>)
    requires n.Valid() && c < |n.up|
    ensures r == Emit(n, c, acc, stuck)
  {
    if n.vx[c] != -1 {
      return Add(acc, stuck, Seg(n.info[n.vx[c]].name, None));
    }
    if n.vx[n.parent[c]] != -1 {
      var w := n.info[n.vx[n.parent[c]]];
      if w.t.arr.Some? {
        if n.off[c] >= Size(w.t.arr.value) {
          return Err(Internal("unOffset: offset out of range"));
        }
        return Add(acc, stuck, Seg(w.name, Some(ConstDims(UnOffset(w.t.arr.value, n.off[c])))));
      }
      if !w.t.base.User? {
        return Err(Internal("???"));
      }
      return Add(acc, stuck, Seg(w.name, None));
    }
    if n.vx[n.parent[n.parent[c]]] == -1 {
      return Err(Internal("???"));
    }
    var w := n.info[n.vx[n.parent[n.parent[c]]]];
    if w.t.arr.None? {
      return Err(Internal("unOffset: not an array"));
    }
    if n.off[n.parent[c]] >= Size(w.t.arr.value) {
      return Err(Internal("unOffset: offset out of range"));
    }
    if !w.t.base.User? {
      return Err(Internal("what?"));
    }
    var g := Seg(w.name, Some(ConstDims(UnOffset(w.t.arr.value, n.off[n.parent[c]]))));
    if |acc| == 0 {
      return Add(acc, stuck, g);
    }
    var e :- Add(acc, stuck, g);
    var u := n.users[w.t.base.ud];
    var port :- PortAt(u.params, u.ports, n.off[c]);
    r := Ok((e.0 + [Seg(port, None)], true));
  }

  /** The push loop of the rebuild: the ancestors of `c`, top first. */
  method PushAncestors(n: Net, c: nat) returns (r: Result<seq<nat>>)
    requires n.Valid() && c < |n.up|
    ensures r == Ancestry(n, c)
  {
    var stk: seq<nat> := [];
    var cur: int := c;
    assert Ancestry(n, c).Ok? ==> Ancestry(n, c).value + [] == Ancestry(n, c).value;
    while cur != -1
      invariant -1 <= cur < |n.up|
      invariant Ancestry(n, c) == Then(Ancestry(n, cur), stk)
      decreases cur + 1
    {
      var next := Climb(n, cur);
      if next == -2 {
        return Err(Internal("What?"));
      }
      var top: nat := cur;
      StackStep(n, c, top, next, stk);
      stk := [top] + stk;
      cur := next;
    }
    assert stk == [] + stk;
    r := Ok(stk);
  }

  /** One step of the climb: the node the push loop moves to from `c`. */
  method Climb(n: Net, c: nat) returns (next: int)
    requires n.Valid() && c < |n.up|
    ensures next == Above(n, c)
  {
    if n.vx[c] != -1 {
      next := n.parent[c];
    } else if n.vx[n.parent[c]] != -1 {
      next := n.parent[n.parent[c]];
    } else if n.vx[n.parent[n.parent[c]]] != -1 {
      next := n.parent[n.parent[n.parent[c]]];
    } else {
      next := -2;
    }
  }

  /** Pushing `cur` keeps the stack a suffix of the ancestry of `c`. */
  lemma StackStep(n: Net, c: nat, cur: nat, next: int, stk: seq<nat>)
    requires n.Valid() && c < |n.up| && cur < |n.up|
    requires next == Above(n, cur) && next != -2
    requires Ancestry(n, c) == Then(Ancestry(n, cur), stk)
    ensures Ancestry(n, c) == Then(Ancestry(n, next), [cur] + stk)
  {
    ThenCons(Ancestry(n, next), cur, stk);
  }

  /** Stacking `x` on top of `tail` after the climb that ends with `x`. */
  lemma ThenCons(a: Result<seq<nat>>, x: nat, tail: seq<nat>)
    ensures Then(Then(a, [x]), tail) == Then(a, [x] + tail)
  {
    if a.Ok? {
      assert a.value + [x] + tail == a.value + ([x] + tail);
    }
  }

  /** The pop loop of the rebuild over the stacked nodes. */
  method PopAll(n: Net, stk: seq<nat>) returns (r: Result<(Path, bool)>)
    requires n.Valid() && forall i :: 0 <= i < |stk| ==> stk[i] < |n.up|
    ensures r == EmitAll(n, stk)
  {
    var acc: Path := [];
    var stuck := false;
    var i := 0;
    while i < |stk|
      invariant i <= |stk|
      invariant EmitAll(n, stk[..i]) == Ok((acc, stuck))
    {
      var e := EmitNode(n, stk[i], acc, stuck);
      EmitAllNext(n, stk, i);
      if e.Err? {
        EmitAllFails(n, stk, i + 1);
        return Err(e.error);
      }
      acc, stuck := e.value.0, e.value.1;
      i := i + 1;
    }
    assert stk[..|stk|] == stk;
    r := Ok((acc, stuck));
  }

  /** Popping one more node. */
  lemma EmitAllNext(n: Net, xs: seq<nat>, m: nat)
    requires n.Valid() && forall i :: 0 <= i < |xs| ==> xs[i] < |n.up|
    requires m < |xs| && EmitAll(n, xs[..m]).Ok?
    ensures EmitAll(n, xs[..m + 1]) == Emit(n, xs[m], EmitAll(n, xs[..m]).value.0, EmitAll(n, xs[..m]).value.1)
  {
    assert xs[..m + 1][..m] == xs[..m];
  }

  /** A pop that fails ends the rebuild with its error. */
  lemma {:induction false} EmitAllFails(n: Net, xs: seq<nat>, m: nat)
    requires n.Valid() && forall i :: 0 <= i < |xs| ==> xs[i] < |n.up|
    requires m <= |xs| && EmitAll(n, xs[..m]).Err?
    ensures EmitAll(n, xs) == EmitAll(n, xs[..m])
    decreases |xs|
  {
    if m == |xs| {
      assert xs[..m] == xs;
    } else {
      var init := xs[..|xs| - 1];
      assert init[..m] == xs[..m];
      EmitAllFails(n, init, m);
    }
  }

  /** The rebuild of `Canonical`: push the ancestors of `c` on a stack, then
      pop them, appending each one's segments. */
  method RebuildRest(n: Net, c: nat) returns (r: Result<Path>)
    requires n.Valid() && c < |n.up|
    ensures r == Rebuilt(n, c)
  {
    var stk := PushAncestors(n, c);
    if stk.Err? {
      return Err(stk.error);
    }
    var e := PopAll(n, stk.value);
    if e.Err? {
      return Err(e.error);
    }
    r := Ok(e.value.0);
  }

  /*--------------------------- what the rebuild is --------------------------*/

  /** The structural ancestors of `c`, top first, ending with `c`. */
  function Lineage(n: Net, c: int): (r: seq<nat>)
    reads n
    requires n.Valid() && -1 <= c < |n.up|
    ensures forall i :: 0 <= i < |r| ==> r[i] < |n.up|
    decreases c + 1
  {
    if c == -1 then [] else Lineage(n, n.parent[c]) + [c]
  }

  /** The plain segments naming the slots of nodes that all have one. */
  function Names(n: Net, xs: seq<nat>): (r: Path)
    reads n
    requires n.Valid() && forall i :: 0 <= i < |xs| ==> xs[i] < |n.up| && n.vx[xs[i]] != -1
  {
    if |xs| == 0 then []
    else Names(n, xs[..|xs| - 1]) + [Seg(n.info[n.vx[xs[|xs| - 1]]].name, None)]
  }

  /** When every structural ancestor of `c` has a slot, the climb stacks
      exactly those ancestors. */
  lemma {:induction false} AncestryOfBound(n: Net, c: int)
    requires n.Valid() && -1 <= c < |n.up|
    requires forall x :: x in Lineage(n, c) ==> n.vx[x] != -1
    ensures Ancestry(n, c) == Ok(Lineage(n, c))
    decreases c + 1
  {
    if c != -1 {
      assert c in Lineage(n, c);
      AncestryOfBound(n, n.parent[c]);
    }
  }

  /** Popping nodes that all have slots appends their names one by one and
      never hangs a port. */
  lemma {:induction false} EmitAllOfBound(n: Net, xs: seq<nat>)
    requires n.Valid() && forall i :: 0 <= i < |xs| ==> xs[i] < |n.up| && n.vx[xs[i]] != -1
    ensures EmitAll(n, xs) == Ok((Names(n, xs), false))
  {
    if |xs| > 0 {
      EmitAllOfBound(n, xs[..|xs| - 1]);
    }
  }

  /** When every structural ancestor of `c` has a slot, the rebuilt rest is
      the names of those slots, top down: the path that denotes `c`. */
  lemma RebuiltOfBound(n: Net, c: nat)
    requires n.Valid() && c < |n.up|
    requires forall x :: x in Lineage(n, c) ==> n.vx[x] != -1
    ensures forall i :: 0 <= i < |Lineage(n, c)| ==> n.vx[Lineage(n, c)[i]] != -1
    ensures Rebuilt(n, c) == Ok(Names(n, Lineage(n, c)))
  {
    var l := Lineage(n, c);
    assert forall i :: 0 <= i < |l| ==> l[i] in l;
    AncestryOfBound(n, c);
    EmitAllOfBound(n, l);
  }

  /** The subscript the rebuild writes for an array element selects that
      same element again when `Canonical` dereferences it. */
  lemma RebuiltElement(n: Net, c: nat)
    requires n.Valid() && c < |n.up| && n.vx[c] == -1 && n.vx[n.parent[c]] != -1
    requires n.info[n.vx[n.parent[c]]].t.arr.Some?
    requires n.off[c] < Size(n.info[n.vx[n.parent[c]]].t.arr.value)
    ensures Emit(n, c, [], false).Ok?
    ensures Emit(n, c, [], false).value.0[0].sub.Some?
    ensures ElementOffset(n.info[n.vx[n.parent[c]]].t.arr.value, Emit(n, c, [], false).value.0[0].sub.value) == n.off[c]
  {
    var decl := n.info[n.vx[n.parent[c]]].t.arr.value;
    ElementOffsetOfUnOffset(decl, n.off[c]);
  }

  /*------------------------------- Canonical --------------------------------*/

  /** What the older `Canonical` does once the first name is resolved: an
      early answer `c`, or the walk over `q` from `cx` for the slot `k`. */
  datatype Plan = Early(c: nat) | Walk(k: nat, cx: nat, q: Path)

  /** `Canonical` of the older copy.  The rest of a path is first resolved
      in the type of the first name; a result belonging to a global is the
      answer (`early`); otherwise the walk of `Canon` runs over `walked`,
      the first name and the rebuilt rest, starting from the primary of the
      first name's connection and the first name's own slot; `cs`, `vs` and
      `ts` are the primaries, their slots and the rounds of that walk. */
  method Canonical(n: Net, p: Path, s: int)
    returns (r: Result<nat>, ghost early: bool, ghost walked: Path, ghost cs: seq<nat>, ghost vs: seq<nat>, ghost ts: seq<Round>)
    requires n.Valid() && |p| >= 1 && s < |n.scopes|
    modifies n
    ensures n.Valid() && |n.up| >= old(|n.up|) && n.Keeps(old(n.Snapshot()))
    ensures forall j :: 0 <= j < |n.info| && old(n.init[j]) ==> n.init[j] && n.conn[j] == old(n.conn[j])
    ensures RawLookup(n, Older, p, s, -1).Err? ==> r == RawLookup(n, Older, p, s, -1)
    ensures r.Ok? ==> RawLookup(n, Older, p, s, -1).Ok? && n.init[RawLookup(n, Older, p, s, -1).value]
    ensures r.Ok? ==> r.value < |n.up| && n.up[r.value] == -1
    ensures early ==> |p| > 1 && r.Ok? && n.VxOf(r.value).Ok? && n.info[n.VxOf(r.value).value].global
    ensures r.Ok? && |p| == 1 && p[0].sub.None? ==>
      r.value == n.root[n.conn[RawLookup(n, Older, p, s, -1).value]]
    ensures r.Ok? && !early ==>
      |walked| >= 1 && walked[0] == p[0] && (|p| == 1 ==> walked == p) &&
      Rounds(n, n.Snapshot(), walked, cs, vs, ts, |walked|) && r.value == cs[|walked|] &&
      vs[0] == RawLookup(n, Older, p, s, -1).value &&
      cs[0] < |n.up| && n.root[cs[0]] == n.root[n.conn[RawLookup(n, Older, p, s, -1).value]]
    decreases |p|, 1
  {
    early, walked, cs, vs, ts := false, [], [], [], [];
    var plan := Prepare(n, p, s);
    if plan.Err? {
      return Err(plan.error), false, walked, cs, vs, ts;
    }
    if plan.value.Early? {
      return Ok(plan.value.c), true, walked, cs, vs, ts;
    }
    var k, cx, q := plan.value.k, plan.value.cx, plan.value.q;
    walked := q;
    ghost var s1 := n.Snapshot();
    ghost var ck := n.conn[k];
    r, cs, vs, ts := Follow(n, Older, q, cx, k, -1);
    SameNetKept(s1, n.Snapshot(), cx, ck);
    if r.Ok? && |p| == 1 && p[0].sub.None? {
      PlainRound(n, q, cs, vs, ts);
    }
  }

  /** The first part of the older `Canonical`: the slot `k` of the first
      name, the primary of its connection and, for a longer path, the rest
      resolved in the first name's type, either an early answer or rebuilt
      as the rest of the path to walk. */
  method Prepare(n: Net, p: Path, s: int) returns (r: Result<Plan>)
    requires n.Valid() && |p| >= 1 && s < |n.scopes|
    modifies n
    ensures n.Valid() && |n.up| >= old(|n.up|) && n.Keeps(old(n.Snapshot()))
    ensures forall j :: 0 <= j < |n.info| && old(n.init[j]) ==> n.init[j] && n.conn[j] == old(n.conn[j])
    ensures RawLookup(n, Older, p, s, -1).Err? ==> r == RawLookup(n, Older, p, s, -1).PropagateFailure()
    ensures r.Ok? ==> RawLookup(n, Older, p, s, -1).Ok? && n.init[RawLookup(n, Older, p, s, -1).value]
    ensures r.Ok? && r.value.Early? ==>
      |p| > 1 && r.value.c < |n.up| && n.up[r.value.c] == -1 && n.VxOf(r.value.c).Ok? && n.info[n.VxOf(r.value.c).value].global
    ensures r.Ok? && r.value.Walk? ==>
      r.value.k == RawLookup(n, Older, p, s, -1).value && r.value.cx < |n.up| && 0 <= n.conn[r.value.k] < |n.up| &&
      n.root[r.value.cx] == n.root[n.conn[r.value.k]] && |r.value.q| >= 1 && (n.up[r.value.cx] == -1 || |r.value.q| > 1) &&
      r.value.q[0] == p[0] && (|p| == 1 ==> r.value.q == p && n.up[r.value.cx] == -1)
    decreases |p|, 0
  {
    var kr := RawValueIdx(n, Older, p, s, -1);
    if kr.Err? {
      return Err(kr.error);
    }
    var k: nat := kr.value;
    var cx: nat := n.Primary(n.conn[k]);
    ghost var s0 := n.Snapshot();
    ghost var ck := n.conn[k];
    var q := [p[0]];
    if |p| == 1 {
      assert q == p;
      return Ok(Walk(k, cx, q));
    }
    var t := n.info[k].t;
    if !t.base.User? {
      return Err(Internal("What?"));
    }
    var c, e, w0, cs0, vs0, ts0 := Canonical(n, p[1..], n.users[t.base.ud].scope);
    KeepsTrans(old(n.Snapshot()), s0, n.Snapshot());
    if c.Err? {
      return Err(c.error);
    }
    var w := n.VxOf(c.value);
    if w.Err? {
      return Err(w.error);
    }
    if n.info[w.value].global {
      return Ok(Early(c.value));
    }
    var rest := RebuildRest(n, c.value);
    if rest.Err? {
      return Err(rest.error);
    }
    assert ck < |s0.root| && s0.root[ck] == cx;
    SameNetKept(s0, n.Snapshot(), cx, ck);
    r := Ok(Walk(k, cx, q + rest.value));
  }
}
