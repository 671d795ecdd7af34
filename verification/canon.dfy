/**
 * Resolving identifiers to connections (`act/lang/id.cc`): `rawValueIdx`
 * finds the value slot of a path's first name and, on first touch, gives
 * it a root connection and imports the aliasing already present among the
 * ports of its user-defined type; `Canonical` walks the rest of the path
 * through array elements and ports, re-rooting at every step;
 * `rootCanonical` climbs to the top of the net.  A path is passed as its
 * value (`Paths.Path`); namespace resolution is not part of this model, so
 * the scope of a namespace-qualified path is a parameter.
 */
module Canon {

  import opened Common
  import opened Arrays
  import opened Paths
  import opened UserTypes
  import opened Ids
  import opened Conn

  /** The two copies of the resolution code: the live one and the older one,
      which has no namespace prefixes and imports nothing below a primary
      port that has children. */
  datatype Variant = Live | Older

  /*-------------------------------- scopes ----------------------------------*/

  /** `Lookup`: the slot of `name` in scope `s` or the nearest enclosing
      scope that declares it. */
  function ChainLookup(n: Net, s: int, name: string): (r: Option<nat>)
    requires n.Statics() && s < |n.scopes|
    ensures r.Some? ==> r.value < |n.info|
    decreases s + 1
  {
    if s < 0 then None
    else if name in n.scopes[s].vals then Some(n.scopes[s].vals[name])
    else ChainLookup(n, n.scopes[s].parent, name)
  }

  /** `LookupVal`: the slot of `name` declared in scope `s` itself. */
  function LookupVal(n: Net, s: nat, name: string): (r: Option<nat>)
    requires n.Statics() && s < |n.scopes|
    ensures r.Some? ==> r.value < |n.info|
  {
    if name in n.scopes[s].vals then Some(n.scopes[s].vals[name]) else None
  }

  /** The search loop of `rawValueIdx`, up the parent chain. */
  method FindInChain(n: Net, s: int, name: string) returns (r: Option<nat>)
    requires n.Statics() && s < |n.scopes|
    ensures r == ChainLookup(n, s, name)
  {
    var cur := s;
    r := None;
    while 0 <= cur && r.None?
      invariant cur < |n.scopes|
      invariant r.None? ==> ChainLookup(n, s, name) == ChainLookup(n, cur, name)
      invariant r.Some? ==> r == ChainLookup(n, s, name)
      decreases cur + 1, if r.None? then 1 else 0
    {
      r := LookupVal(n, cur, name);
      if r.None? {
        cur := n.scopes[cur].parent;
      }
    }
  }

  /** The path below a namespace prefix. */
  function Body(p: Path, ns: bool): (q: Path)
    requires |p| >= 1 && (ns ==> |p| >= 2)
    ensures |q| >= 1
  {
    if ns then p[1..] else p
  }

  /** The slot `rawValueIdx` settles on: the first name of the path (after a
      namespace prefix, which switches to the namespace's scope), looked up
      through the scope chain; a name found nowhere is fatal. */
  function RawLookup(n: Net, ver: Variant, p: Path, s: int, nsScope: int): (r: Result<nat>)
    requires n.Statics() && |p| >= 1 && s < |n.scopes| && nsScope < |n.scopes|
    ensures r.Ok? ==> r.value < |n.info|
  {
    var ns :- if ver.Live? then NamespaceCheck(p) else Ok(false);
    match ChainLookup(n, if ns then nsScope else s, Body(p, ns)[0].name)
    case None => Err(Fatal("Not found in scope!"))
    case Some(k) => Ok(k)
  }

  /*------------------------------ rawValueIdx -------------------------------*/

  /** `rawValueIdx`: the value slot of the first name of `p`.  The first time
      a slot is touched it is marked, gets a fresh root connection bound to
      it and, for a user-defined type, the connections its ports already
      have inside the type are imported. */
  method RawValueIdx(n: Net, ver: Variant, p: Path, s: int, nsScope: int) returns (r: Result<nat>)
    requires n.Valid() && |p| >= 1 && s < |n.scopes| && nsScope < |n.scopes|
    modifies n
    ensures n.Valid() && |n.up| >= old(|n.up|) && n.Extends(old(n.Snapshot()))
    ensures RawLookup(n, ver, p, s, nsScope).Err? ==> r == RawLookup(n, ver, p, s, nsScope)
    ensures r.Ok? ==> r == RawLookup(n, ver, p, s, nsScope)
    ensures r.Err? && RawLookup(n, ver, p, s, nsScope).Ok? ==> r.error.Internal?
    ensures r.Ok? ==> n.init[r.value] && 0 <= n.conn[r.value] < |n.up|
    ensures forall j :: 0 <= j < |n.info| && old(n.init[j]) ==> n.init[j] && n.conn[j] == old(n.conn[j])
    ensures r.Ok? && old(n.init[r.value]) ==>
      n.up == old(n.up) && n.sub == old(n.sub) && n.vx == old(n.vx) && n.root == old(n.root) &&
      n.init == old(n.init) && n.conn == old(n.conn)
    ensures r.Ok? && !old(n.init[r.value]) ==>
      n.conn[r.value] == old(|n.up|) && n.parent[n.conn[r.value]] == -1 && n.vx[n.conn[r.value]] == r.value &&
      n.init == old(n.init)[r.value := true]
  {
    var k :- RawLookup(n, ver, p, s, nsScope);
    if n.init[k] {
      return Ok(k);
    }
    var c := n.AddNode(-1, 0, k);
    n.SetSlot(k, c);
    if n.info[k].t.base.User? {
      ghost var pre := n.Snapshot();
      var imp := ImportConnections(n, ver, c, n.info[k].t.base.ud, n.info[k].t.arr);
      ExtendsTrans(old(n.Snapshot()), pre, n.Snapshot());
      if imp.Err? {
        return Err(imp.error);
      }
    }
    r := Ok(k);
  }

  /*-------------------------- importing connections -------------------------*/

  /** `_import_connections`: for every port of type `ud` that is connected
      inside the type, the connection is replicated below `cx`, the new root
      connection of an instance, once per element when the instance is an
      array. */
  method ImportConnections(n: Net, ver: Variant, cx: nat, ud: nat, arr: Option<seq<Bound>>) returns (r: Result<()>)
    requires n.Valid() && cx < |n.up| && ud < |n.users|
    modifies n
    ensures n.Valid() && |n.up| >= old(|n.up|) && n.Extends(old(n.Snapshot()))
    ensures n.init == old(n.init) && n.conn == old(n.conn)
    ensures r.Err? ==> r.error.Internal?
  {
    var u := n.users[ud];
    var sz := if arr.Some? then Size(arr.value) else 0;
    var i := 0;
    while i < |u.ports|
      invariant n.Valid() && |n.up| >= old(|n.up|) && n.Extends(old(n.Snapshot()))
      invariant n.init == old(n.init) && n.conn == old(n.conn)
    {
      var pv := LookupVal(n, u.scope, u.ports[i]);
      if pv.None? {
        return Err(Internal("Port missing from local scope?!"));
      }
      var pvx := pv.value;
      if n.init[pvx] {
        var pcx := n.conn[pvx];
        if !(n.up[pcx] == -1 && |n.sub[pcx]| == 0) {
          ghost var pre := n.Snapshot();
          var res, c, slot := ImportPort(n, ver, cx, ud, i, pvx, pcx, sz);
          ExtendsTrans(old(n.Snapshot()), pre, n.Snapshot());
          if res.Err? {
            return res;
          }
        }
      }
      i := i + 1;
    }
    r := Ok(());
  }

  /** One port of `_import_connections`: the element loop for an array
      instance, or the port itself for a scalar one. */
  method ImportPort(n: Net, ver: Variant, cx: nat, ud: nat, i: nat, pvx: nat, pcx: nat, sz: nat)
    returns (r: Result<()>, ghost c: nat, ghost slot: nat)
    requires n.Valid() && cx < |n.up| && ud < |n.users| && i < |n.users[ud].ports|
    requires pvx < |n.info| && pcx < |n.up|
    modifies n
    ensures n.Valid() && |n.up| >= old(|n.up|) && n.Extends(old(n.Snapshot()))
    ensures n.init == old(n.init) && n.conn == old(n.conn)
    ensures r.Err? ==> r.error.Internal?
    ensures r.Ok? && sz == 0 ==> ChildAt(n.sub, cx, i, c) && n.vx[c] == pvx && LinkedAs(n, cx, c, slot, old(LinkOf(n, ud, pcx)))
  {
    c, slot := 0, 0;
    var np := |n.users[ud].ports|;
    if sz == 0 {
      r, c, slot := ImportAt(n, ver, cx, cx, i, np, pvx, pcx, ud, "Hmm...");
      return;
    }
    var e := 0;
    while e < sz
      invariant n.Valid() && |n.up| >= old(|n.up|) && n.Extends(old(n.Snapshot()))
      invariant n.init == old(n.init) && n.conn == old(n.conn)
    {
      ghost var pre := n.Snapshot();
      var imp := n.GetSubconn(cx, e, sz);
      if imp.Err? {
        ExtendsTrans(old(n.Snapshot()), pre, n.Snapshot());
        return Err(imp.error), c, slot;
      }
      ghost var mid := n.Snapshot();
      ExtendsTrans(old(n.Snapshot()), pre, mid);
      r, c, slot := ImportAt(n, ver, imp.value, imp.value, i, np, pvx, pcx, ud, "Hmm.");
      ExtendsTrans(old(n.Snapshot()), mid, n.Snapshot());
      if r.Err? {
        return;
      }
      e := e + 1;
    }
    r := Ok(());
  }

  /** The offsets from an instance to the node that corresponds to `p`, a
      node inside type `ud`: the position of the port at the top of `p`'s
      structure, then `p`'s own offsets below that port. */
  ghost function CorrPath(n: Net, ud: nat, p: nat): seq<int>
    reads n
    requires n.Valid() && ud < |n.users| && p < |n.up|
  {
    [PortCode(n.users[ud].params, n.users[ud].ports, n.info[n.vx[n.Top(p)]].name) - 1] + n.Offsets(p)
  }

  /** What `_import_conn_rec` links the counterpart of a port node to. */
  datatype Link =
    | ChildByChild             // a primary node: its children are handled one by one
    | ToGlobal(g: nat)         // the global primary `g` of the node's net
    | ToSlot(path: seq<int>)   // the node at these offsets below the instance

  /** The link `_import_conn_rec` makes for node `p` inside type `ud`. */
  ghost function LinkOf(n: Net, ud: nat, p: nat): Link
    reads n
    requires n.Valid() && ud < |n.users| && p < |n.up|
  {
    if n.up[p] == -1 then ChildByChild
    else if n.IsGlobal(n.root[p]) then ToGlobal(n.root[p])
    else ToSlot(CorrPath(n, ud, n.root[p]))
  }

  /** The counterpart `c` below the instance `cxroot` is linked as `l` says;
      `slot` is the corresponding node a `ToSlot` link reaches. */
  ghost predicate LinkedAs(n: Net, cxroot: nat, c: nat, slot: nat, l: Link)
    reads n
    requires n.Shape()
  {
    c < |n.up| &&
    match l
    case ChildByChild => true
    case ToGlobal(g) => g < |n.up| && n.root[c] == n.root[g]
    case ToSlot(path) => Descend(n.sub, cxroot, path) == Some(slot) && slot < |n.up| && n.root[c] == n.root[slot]
  }

  /** A node linked to a slot is in the net of the node that sits below the
      instance `cxroot` at exactly the offsets the link names: the port's
      number and then the primary's offsets inside the type. */
  lemma LinkedSlotCorresponds(n: Net, ud: nat, cxroot: nat, c: nat, slot: nat, p: nat)
    requires n.Valid() && ud < |n.users| && cxroot < |n.up| && p < |n.up|
    requires LinkedAs(n, cxroot, c, slot, ToSlot(CorrPath(n, ud, p)))
    ensures slot < |n.up| && n.Top(slot) == n.Top(cxroot) && n.root[c] == n.root[slot]
    ensures n.Offsets(slot) == n.Offsets(cxroot) + [PortCode(n.users[ud].params, n.users[ud].ports, n.info[n.vx[n.Top(p)]].name) - 1] + n.Offsets(p)
  {
    var path := CorrPath(n, ud, p);
    var a := PortCode(n.users[ud].params, n.users[ud].ports, n.info[n.vx[n.Top(p)]].name) - 1;
    var o, oc := n.Offsets(p), n.Offsets(cxroot);
    assert path == [a] + o;
    DescendOffsets(n, cxroot, path);
    ConcatAssoc(oc, [a], o);
  }

  lemma ConcatAssoc(x: seq<int>, y: seq<int>, z: seq<int>)
    ensures x + (y + z) == x + y + z
  {
  }

  /** Port `i` of the instance node `at`: the node `c` at position `i` below
      `at`, bound to the port's slot, then given the port's connection `pcx`.
      A non-primary `pcx` links `c` to its global primary, or else to `slot`,
      the node corresponding to that primary below `cxroot`. */
  method ImportAt(n: Net, ver: Variant, cxroot: nat, at: nat, i: nat, np: nat, pvx: nat, pcx: nat, ud: nat, msg: string)
    returns (r: Result<()>, ghost c: nat, ghost slot: nat)
    requires n.Valid() && cxroot < |n.up| && at < |n.up| && pvx < |n.info| && pcx < |n.up| && ud < |n.users|
    modifies n
    ensures n.Valid() && |n.up| >= old(|n.up|) && n.Extends(old(n.Snapshot()))
    ensures n.init == old(n.init) && n.conn == old(n.conn)
    ensures r.Err? ==> r.error.Internal?
    ensures r.Ok? ==> ChildAt(n.sub, at, i, c) && n.vx[c] == pvx && LinkedAs(n, cxroot, c, slot, old(LinkOf(n, ud, pcx)))
  {
    c, slot := 0, 0;
    var placed := PlacePort(n, at, i, np, pvx, pcx, ud, msg);
    if placed.Err? {
      return Err(placed.error), c, slot;
    }
    var node := placed.value;
    c := node;
    ghost var mid := n.Snapshot();
    r, slot := ImportConnRec(n, ver, cxroot, node, pcx, ud, |n.up|);
    ExtendsTrans(old(n.Snapshot()), mid, n.Snapshot());
  }

  /** The node at position `i` below `at`, bound to slot `pvx`; the link
      that `pcx` asks for is what it was. */
  method PlacePort(n: Net, at: nat, i: nat, np: nat, pvx: nat, pcx: nat, ud: nat, msg: string) returns (r: Result<nat>)
    requires n.Valid() && at < |n.up| && pvx < |n.info| && pcx < |n.up| && ud < |n.users|
    modifies n
    ensures n.Valid() && |n.up| >= old(|n.up|) && n.Extends(old(n.Snapshot()))
    ensures n.init == old(n.init) && n.conn == old(n.conn)
    ensures r.Err? ==> r.error.Internal?
    ensures r.Ok? ==> ChildAt(n.sub, at, i, r.value) && n.vx[r.value] == pvx && LinkOf(n, ud, pcx) == old(LinkOf(n, ud, pcx))
  {
    ghost var l0 := LinkOf(n, ud, pcx);
    ghost var x0, u0 := n.root[pcx], n.up[pcx];
    ghost var p0, o0 := n.parent, n.off;
    StructureIn(n, x0);
    ghost var t0 := n.Top(x0);
    ghost var v0 := n.vx[t0];
    LinkOfIs(n, ud, pcx, t0, n.Offsets(x0));
    var placed := BoundChild(n, at, i, np, pvx, msg);
    if placed.Err? {
      return placed;
    }
    var node := placed.value;
    Unmoved(n, p0, o0, x0);
    assert n.root[pcx] == n.root[..|p0|][pcx] && n.up[pcx] == n.up[..|p0|][pcx];
    assert n.vx[t0] == v0;
    LinkOfIs(n, ud, pcx, t0, OffsetsOf(p0, o0, x0));
    assert LinkOf(n, ud, pcx) == l0;
    r := Ok(node);
  }

  /** The node at position `i` below `at` (made when missing), bound to
      slot `pvx` unless it is bound already; an error when it is bound to
      another slot.  Old nodes keep their links and offsets. */
  method BoundChild(n: Net, at: nat, i: nat, np: nat, pvx: nat, msg: string) returns (r: Result<nat>)
    requires n.Valid() && at < |n.up| && pvx < |n.info|
    modifies n
    ensures n.Valid() && |n.up| >= old(|n.up|) && n.Extends(old(n.Snapshot()))
    ensures n.init == old(n.init) && n.conn == old(n.conn)
    ensures r.Err? ==> r.error.Internal?
    ensures r.Ok? ==> ChildAt(n.sub, at, i, r.value) && n.vx[r.value] == pvx
    ensures n.root[..old(|n.up|)] == old(n.root) && n.up[..old(|n.up|)] == old(n.up) && n.off[..old(|n.up|)] == old(n.off)
  {
    var imp2 := n.GetSubconn(at, i, np);
    if imp2.Err? {
      return Err(imp2.error);
    }
    ghost var mid := n.Snapshot();
    var node := imp2.value;
    BindUnbound(n, node, pvx);
    ExtendsTrans(old(n.Snapshot()), mid, n.Snapshot());
    if n.vx[node] != pvx {
      return Err(Internal(msg));
    }
    r := Ok(node);
  }

  /** `LinkOf` spelled out from the top node `t` and offsets `o` of the
      net's primary. */
  lemma LinkOfIs(n: Net, ud: nat, p: nat, t: nat, o: seq<nat>)
    requires n.Valid() && ud < |n.users| && p < |n.up| && n.Top(n.root[p]) == t && n.Offsets(n.root[p]) == o
    ensures LinkOf(n, ud, p) ==
      if n.up[p] == -1 then ChildByChild
      else if n.info[n.vx[t]].global then ToGlobal(n.root[p])
      else ToSlot([PortCode(n.users[ud].params, n.users[ud].ports, n.info[n.vx[t]].name) - 1] + o)
  {
  }

  /** After allocation and binding, the structure above an old node `x` is
      what it was: the same top node with the same slot, and the same
      offsets. */
  lemma Unmoved(n: Net, p0: seq<int>, o0: seq<nat>, x: nat)
    requires n.Valid() && x < |p0| == |o0| <= |n.up| && n.parent[..|p0|] == p0 && n.off[..|o0|] == o0
    requires forall j :: 0 <= j < |p0| ==> p0[j] < j
    ensures n.Top(x) == TopOf(p0, x) && n.Offsets(x) == OffsetsOf(p0, o0, x)
  {
    StructureIn(n, x);
    PrefixStructure(p0, o0, n.parent, n.off, x);
  }

  /** Binds node `c` to slot `v` unless it is bound already. */
  method BindUnbound(n: Net, c: nat, v: int)
    requires n.Valid() && c < |n.up| && -1 <= v < |n.info| && n.parent[c] != -1
    modifies n
    ensures n.Valid() && n.Extends(old(n.Snapshot())) && |n.up| == old(|n.up|)
    ensures n.up == old(n.up) && n.root == old(n.root) && n.parent == old(n.parent) && n.off == old(n.off)
    ensures n.sub == old(n.sub)
    ensures n.vx == if old(n.vx[c]) == -1 then old(n.vx)[c := v] else old(n.vx)
    ensures n.init == old(n.init) && n.conn == old(n.conn)
  {
    if n.vx[c] == -1 {
      n.SetVx(c, v);
    }
  }

  /** `_import_conn_rec`: replicates the connection of `px`, a node inside
      type `ud`, onto `cx`, its counterpart below the instance `cxroot`.  A
      non-primary `px` is connected to its net's primary when that is
      global, and otherwise to the node corresponding to the primary among
      the instance's ports; a primary `px` with children is handled child by
      child.  `fuel` bounds the depth of the descent. */
  method ImportConnRec(n: Net, ver: Variant, cxroot: nat, cx: nat, px: nat, ud: nat, fuel: nat)
    returns (r: Result<()>, ghost slot: nat)
    requires n.Valid() && cxroot < |n.up| && cx < |n.up| && px < |n.up| && ud < |n.users|
    modifies n
    decreases fuel, 1
    ensures n.Valid() && |n.up| >= old(|n.up|) && n.Extends(old(n.Snapshot()))
    ensures n.init == old(n.init) && n.conn == old(n.conn)
    ensures r.Err? ==> r.error.Internal?
    ensures old(n.up[px] != -1 && n.IsGlobal(n.root[px])) ==> r.Ok?
    ensures r.Ok? ==> LinkedAs(n, cxroot, cx, slot, old(LinkOf(n, ud, px)))
    ensures old(n.up[px] == -1 && (|n.sub[px]| == 0 || ver.Older?)) ==> r.Ok? && n.up == old(n.up) && n.sub == old(n.sub)
  {
    slot := 0;
    if n.up[px] != -1 {
      r, slot := LinkUp(n, cxroot, cx, px, ud);
      return;
    }
    var m := |n.sub[px]|;
    if m == 0 || ver.Older? {
      return Ok(()), slot;
    }
    var i := 0;
    while i < m
      invariant n.Valid() && |n.up| >= old(|n.up|) && n.Extends(old(n.Snapshot())) && |n.sub[px]| == m
      invariant n.init == old(n.init) && n.conn == old(n.conn)
    {
      ghost var pre := n.Snapshot();
      r := ImportChild(n, ver, cxroot, cx, px, i, ud, fuel);
      ExtendsTrans(old(n.Snapshot()), pre, n.Snapshot());
      if r.Err? {
        return;
      }
      i := i + 1;
    }
    r := Ok(());
  }

  /** The non-primary case of `_import_conn_rec`. */
  method LinkUp(n: Net, cxroot: nat, cx: nat, px: nat, ud: nat) returns (r: Result<()>, ghost slot: nat)
    requires n.Valid() && cxroot < |n.up| && cx < |n.up| && px < |n.up| && ud < |n.users|
    modifies n
    ensures n.Valid() && |n.up| >= old(|n.up|) && n.Extends(old(n.Snapshot()))
    ensures n.init == old(n.init) && n.conn == old(n.conn)
    ensures r.Err? ==> r.error.Internal?
    ensures old(n.IsGlobal(n.root[px])) ==> r.Ok?
    ensures r.Ok? && old(n.up[px] != -1) ==> LinkedAs(n, cxroot, cx, slot, old(LinkOf(n, ud, px)))
  {
    slot := 0;
    ghost var l0 := if n.up[px] != -1 then LinkOf(n, ud, px) else ChildByChild;
    var ppx := n.Primary(px);
    if n.IsGlobal(ppx) {
      n.MkRawConnection(ppx, cx);
      assert LinkedAs(n, cxroot, cx, slot, l0);
      return Ok(()), slot;
    }
    r, slot := LinkToSlot(n, cxroot, cx, ppx, ud);
  }

  /** A net with a local primary `p`: `cx` joins the node corresponding to
      `p` among the ports of the instance `cxroot`. */
  method LinkToSlot(n: Net, cxroot: nat, cx: nat, p: nat, ud: nat) returns (r: Result<()>, ghost slot: nat)
    requires n.Valid() && cxroot < |n.up| && cx < |n.up| && p < |n.up| && ud < |n.users|
    modifies n
    ensures n.Valid() && |n.up| >= old(|n.up|) && n.Extends(old(n.Snapshot()))
    ensures n.init == old(n.init) && n.conn == old(n.conn)
    ensures r.Err? ==> r.error.Internal?
    ensures r.Ok? ==> Descend(n.sub, cxroot, old(CorrPath(n, ud, p))) == Some(slot) && slot < |n.up| && n.root[cx] == n.root[slot]
  {
    slot := 0;
    var l, top := n.StackIdx(p);
    var name := n.info[n.vx[top]].name;
    ghost var path := CorrPath(n, ud, p);
    assert path == [PortCode(n.users[ud].params, n.users[ud].ports, name) - 1] + l;
    var found := FindCorrespondingSlot(n, ud, cxroot, name, l);
    if found.Err? {
      return Err(found.error), slot;
    }
    slot := found.value;
    ghost var pre := n.Snapshot();
    n.MkRawConnection(found.value, cx);
    ExtendsTrans(old(n.Snapshot()), pre, n.Snapshot());
    r := Ok(());
  }

  /** Child `i` of a primary `px` in `_import_conn_rec`: skipped when it is
      missing or a primary without children, otherwise replicated onto child
      `i` of `cx`, which takes the child's slot when it has none. */
  method ImportChild(n: Net, ver: Variant, cxroot: nat, cx: nat, px: nat, i: nat, ud: nat, fuel: nat) returns (r: Result<()>)
    requires n.Valid() && cxroot < |n.up| && cx < |n.up| && px < |n.up| && i < |n.sub[px]| && ud < |n.users|
    modifies n
    decreases fuel, 0
    ensures n.Valid() && |n.up| >= old(|n.up|) && n.Extends(old(n.Snapshot()))
    ensures n.init == old(n.init) && n.conn == old(n.conn)
    ensures r.Err? ==> r.error.Internal?
  {
    var child := n.sub[px][i];
    if child == -1 || (n.up[child] == -1 && |n.sub[child]| == 0) {
      return Ok(());
    }
    var tmp := n.GetSubconn(cx, i, |n.sub[px]|);
    if tmp.Err? {
      return Err(tmp.error);
    }
    ghost var mid := n.Snapshot();
    BindUnbound(n, tmp.value, n.vx[child]);
    ExtendsTrans(old(n.Snapshot()), mid, n.Snapshot());
    if fuel == 0 {
      return Err(Internal("import depth exhausted"));
    }
    mid := n.Snapshot();
    ghost var slot;
    r, slot := ImportConnRec(n, ver, cxroot, tmp.value, child, ud, fuel - 1);
    ExtendsTrans(old(n.Snapshot()), mid, n.Snapshot());
  }

  /** `_find_corresponding_slot`: the node below the instance `cx` that
      corresponds to port `rootname` of type `ud` followed by the offsets
      `stk` (array elements and ports, top down), binding each port node to
      its slot on the way. */
  method FindCorrespondingSlot(n: Net, ud: nat, cx: nat, rootname: string, stk: seq<nat>) returns (r: Result<nat>)
    requires n.Valid() && ud < |n.users| && cx < |n.up|
    modifies n
    ensures n.Valid() && |n.up| >= old(|n.up|) && n.Extends(old(n.Snapshot()))
    ensures n.init == old(n.init) && n.conn == old(n.conn)
    ensures r.Ok? ==> r.value < |n.up|
    ensures r.Err? ==> r.error.Internal?
    ensures PortCode(n.users[ud].params, n.users[ud].ports, rootname) <= 0 ==> r == Err(Internal("Port not found?"))
    ensures r.Ok? ==> Descend(n.sub, cx, [PortCode(n.users[ud].params, n.users[ud].ports, rootname) - 1] + stk) == Some(r.value)
  {
    var u := n.users[ud];
    var oport := PortCode(u.params, u.ports, rootname);
    if oport <= 0 {
      return Err(Internal("Port not found?"));
    }
    oport := oport - 1;
    var st := PortStep(n, cx, ud, oport, "Hmm");
    if st.Err? {
      return Err(st.error);
    }
    var pcx: nat, optype := st.value.0, st.value.1;
    DescendSnoc(n.sub, cx, [], cx, oport, pcx);
    assert [] + [oport] == [oport];
    ghost var mid := n.Snapshot();
    r := FollowStack(n, cx, oport, pcx, optype, stk);
    ExtendsTrans(old(n.Snapshot()), mid, n.Snapshot());
  }

  /** The loop of `_find_corresponding_slot`, from the node `pcx` of port
      `oport` below `cx` with the port's type `optype`: each offset of `stk`
      in turn is an element or a port step. */
  method FollowStack(n: Net, cx: nat, oport: int, pcx: nat, optype: InstType, stk: seq<nat>) returns (r: Result<nat>)
    requires n.Valid() && cx < |n.up| && pcx < |n.up| && Descend(n.sub, cx, [oport]) == Some(pcx)
    requires optype.base.User? ==> optype.base.ud < |n.users|
    modifies n
    ensures n.Valid() && |n.up| >= old(|n.up|) && n.Extends(old(n.Snapshot()))
    ensures n.init == old(n.init) && n.conn == old(n.conn)
    ensures r.Err? ==> r.error.Internal?
    ensures r.Ok? ==> r.value < |n.up| && Descend(n.sub, cx, [oport] + stk) == Some(r.value)
  {
    var c, ty := pcx, optype;
    var arrayDone := false;
    var j := 0;
    assert [oport] + stk[..0] == [oport];
    while j < |stk|
      invariant n.Valid() && |n.up| >= old(|n.up|) && n.Extends(old(n.Snapshot())) && c < |n.up|
      invariant n.init == old(n.init) && n.conn == old(n.conn)
      invariant ty.base.User? ==> ty.base.ud < |n.users|
      invariant j <= |stk| && Descend(n.sub, cx, [oport] + stk[..j]) == Some(c)
    {
      ghost var pre := n.Snapshot();
      var step := SlotStepBelow(n, cx, [oport] + stk[..j], c, ty, arrayDone, stk[j]);
      ExtendsTrans(old(n.Snapshot()), pre, n.Snapshot());
      if step.Err? {
        return Err(step.error);
      }
      PathSnoc(oport, stk, j);
      c, ty, arrayDone := step.value.0, step.value.1, step.value.2;
      j := j + 1;
    }
    assert stk[..j] == stk;
    r := Ok(c);
  }

  lemma PathSnoc(o: int, stk: seq<nat>, j: nat)
    requires j < |stk|
    ensures [o] + stk[..j] + [stk[j]] == [o] + stk[..j + 1]
  {
    assert stk[..j + 1] == stk[..j] + [stk[j]];
  }

  /** `SlotStep` from the node `pcx` that `path` reaches below `cx`: the
      result is reached by `path` extended with `off`. */
  method SlotStepBelow(n: Net, ghost cx: nat, ghost path: seq<int>, pcx: nat, optype: InstType, arrayDone: bool, off: nat)
    returns (r: Result<(nat, InstType, bool)>)
    requires n.Valid() && pcx < |n.up| && Descend(n.sub, cx, path) == Some(pcx)
    requires optype.base.User? ==> optype.base.ud < |n.users|
    modifies n
    ensures n.Valid() && |n.up| >= old(|n.up|) && n.Extends(old(n.Snapshot()))
    ensures n.init == old(n.init) && n.conn == old(n.conn)
    ensures r.Err? ==> r.error.Internal?
    ensures r.Ok? ==> r.value.0 < |n.up| && (r.value.1.base.User? ==> r.value.1.base.ud < |n.users|)
    ensures r.Ok? ==> Descend(n.sub, cx, path + [off]) == Some(r.value.0)
  {
    ghost var pre := n.Snapshot();
    r := SlotStep(n, pcx, optype, arrayDone, off);
    if r.Ok? {
      DescendKept(pre.sub, n.sub, cx, path);
      DescendSnoc(n.sub, cx, path, pcx, off, r.value.0);
    }
  }

  /** One offset of `_find_corresponding_slot`: the first offset after an
      array-typed port picks the element, any other one picks a port of the
      current user-defined type. */
  method SlotStep(n: Net, pcx: nat, optype: InstType, arrayDone: bool, off: nat) returns (r: Result<(nat, InstType, bool)>)
    requires n.Valid() && pcx < |n.up|
    requires optype.base.User? ==> optype.base.ud < |n.users|
    modifies n
    ensures n.Valid() && |n.up| >= old(|n.up|) && n.Extends(old(n.Snapshot()))
    ensures n.init == old(n.init) && n.conn == old(n.conn)
    ensures r.Err? ==> r.error.Internal?
    ensures r.Ok? ==> r.value.0 < |n.up| && (r.value.1.base.User? ==> r.value.1.base.ud < |n.users|)
    ensures r.Ok? ==> r.value.2 == (!arrayDone && optype.arr.Some?) && ChildAt(n.sub, pcx, off, r.value.0)
  {
    if !arrayDone && optype.arr.Some? {
      var e := n.GetSubconn(pcx, off, Size(optype.arr.value));
      if e.Err? {
        return Err(e.error);
      }
      return Ok((e.value, optype, true));
    }
    if !optype.base.User? {
      return Err(Internal("Hmm."));
    }
    var st := PortStep(n, pcx, optype.base.ud, off, "What?");
    if st.Err? {
      return Err(st.error);
    }
    r := Ok((st.value.0, st.value.1, false));
  }

  /** Port `pos` of type `ud` below node `c`: the child node, bound to the
      port's slot, and the port's type. */
  method PortStep(n: Net, c: nat, ud: nat, pos: int, msg: string) returns (r: Result<(nat, InstType)>)
    requires n.Valid() && c < |n.up| && ud < |n.users|
    modifies n
    ensures n.Valid() && |n.up| >= old(|n.up|) && n.Extends(old(n.Snapshot()))
    ensures n.init == old(n.init) && n.conn == old(n.conn)
    ensures r.Err? ==> r.error.Internal?
    ensures r.Ok? ==> 0 <= pos < |n.users[ud].ports| && r.value.0 < |n.up| && r.value.1 == n.users[ud].portTypes[pos]
    ensures r.Ok? ==> n.parent[r.value.0] == c && n.off[r.value.0] == pos && ChildAt(n.sub, c, pos, r.value.0)
    ensures r.Ok? ==> r.value.1.base.User? ==> r.value.1.base.ud < |n.users|
  {
    var u := n.users[ud];
    var g := n.GetSubconn(c, pos, |u.ports|);
    if g.Err? {
      return Err(g.error);
    }
    ghost var mid := n.Snapshot();
    var ok := BindPort(n, g.value, u.scope, u.ports[pos]);
    ExtendsTrans(old(n.Snapshot()), mid, n.Snapshot());
    if !ok {
      return Err(Internal(msg));
    }
    r := Ok((g.value, u.portTypes[pos]));
  }

  /** Binds an unbound port node to the port's slot in its type's scope, and
      checks that a bound one is bound to that slot. */
  method BindPort(n: Net, c: nat, s: nat, port: string) returns (ok: bool)
    requires n.Valid() && c < |n.up| && s < |n.scopes|
    modifies n
    ensures n.Valid() && n.Extends(old(n.Snapshot())) && n.up == old(n.up) && n.sub == old(n.sub)
    ensures n.root == old(n.root) && n.parent == old(n.parent) && n.off == old(n.off)
    ensures n.init == old(n.init) && n.conn == old(n.conn)
    ensures ok <==> LookupVal(n, s, port).Some? && n.vx[c] == LookupVal(n, s, port).value
  {
    var v := LookupVal(n, s, port);
    if n.vx[c] == -1 && v.Some? {
      n.SetVx(c, v.value);
    }
    ok := v.Some? && n.vx[c] == v.value;
  }

  /*------------------------------- Canonical --------------------------------*/

  /** The path below its namespace prefix, if it has one. */
  function Named(p: Path): (q: Path)
    requires |p| >= 1
    ensures |q| >= 1 && NamespaceCheck(p).Ok? ==> q == Body(p, NamespaceCheck(p).value)
  {
    if NamespaceCheck(p) == Ok(true) then p[1..] else p
  }

  /** Segment `g` dereferences one array element. */
  predicate Derefs(g: Seg) {
    g.sub.Some? && IsDeref(g.sub.value)
  }

  /** The port number (from 1) of port `name` in the user-defined type of
      slot `v`; not positive when there is no such port. */
  function PortIdOf(n: Net, v: nat, name: string): int
    requires n.Statics() && v < |n.info| && n.info[v].t.base.User?
  {
    var u := n.users[n.info[v].t.base.ud];
    PortCode(u.params, u.ports, name)
  }

  /** Where one round of the walk of `Canonical` went: the element node `de`
      the dereference picked, the primary `mid` it was re-rooted to, with
      slot `vm`, and the port node `e` below that primary; `x0`, `xm` and
      `x1` are the nodes' slots when the round started, after the
      dereference and when it ended. */
  datatype Round = Round(de: nat, mid: nat, vm: nat, e: nat, x0: seq<int>, xm: seq<int>, x1: seq<int>)

  /** Round `j` of the walk over `q`, from the primary `cx` with slot `v`,
      went as `t` says in the nets `s`: a dereference picks the element at
      its row-major offset below `cx`, and `mid` is in that element's net
      (without one, `mid` is `cx` itself) and `vm` is the slot `VxOf` picks
      for `mid`; a following name picks the port of that number below `mid`,
      in the user-defined type of `vm`; on the last segment the round ends at
      `mid`. */
  ghost predicate RoundIn(n: Net, s: Snap, q: Path, j: nat, cx: nat, v: nat, t: Round)
    requires n.Statics()
  {
    j < |q| && DerefIn(n, s, q[j], cx, v, t) && PortIn(n, s, q, j, t)
  }

  /** The dereference half of a round: segment `g` from `cx` with slot `v`. */
  ghost predicate DerefIn(n: Net, s: Snap, g: Seg, cx: nat, v: nat, t: Round)
    requires n.Statics()
  {
    cx < |s.root| && v < |n.info| && t.de < |s.root| && t.mid < |s.root| && t.vm < |n.info| &&
    |t.x0| <= |t.xm| && t.xm[..|t.x0|] == t.x0 &&
    (Derefs(g) ==>
       n.info[v].t.arr.Some? &&
       ChildAt(s.sub, cx, ElementOffset(n.info[v].t.arr.value, g.sub.value), t.de) &&
       s.root[t.mid] == s.root[t.de] && SlotIn(t.xm, s.parent, t.mid, t.vm)) &&
    (!Derefs(g) ==> t.de == cx && t.mid == cx && t.vm == v)
  }

  /** The port half of round `j`, from `mid` with slot `vm`. */
  ghost predicate PortIn(n: Net, s: Snap, q: Path, j: nat, t: Round)
    requires n.Statics() && t.vm < |n.info|
  {
    t.e < |s.root| &&
    (j + 1 == |q| ==> t.e == t.mid) &&
    (j + 1 < |q| ==>
       n.info[t.vm].t.base.User? && PortIdOf(n, t.vm, q[j + 1].name) > 0 &&
       ChildAt(s.sub, t.mid, PortIdOf(n, t.vm, q[j + 1].name) - 1, t.e))
  }

  /** The first `m` rounds of the walk over `q` went as `ts` says, from the
      primaries `cs` with slots `vs`; each round starts in the net the
      previous one ended in. */
  ghost predicate Rounds(n: Net, s: Snap, q: Path, cs: seq<nat>, vs: seq<nat>, ts: seq<Round>, m: nat)
    requires n.Statics()
  {
    |cs| == m + 1 && |vs| == m + 1 && |ts| == m && cs[m] < |s.root| &&
    forall j :: 0 <= j < m ==> RoundAt(n, s, q, cs, vs, ts, j)
  }

  /** Round `j` of the walk went as `ts[j]` says, from `cs[j]` with slot
      `vs[j]`, and round `j + 1` starts in the net it ended in.  When a
      round follows, `vs[j + 1]` is the slot `VxOf` picks for `cs[j + 1]` in
      the slots round `j` left, where since the dereference only its port
      node can have been rebound. */
  ghost predicate RoundAt(n: Net, s: Snap, q: Path, cs: seq<nat>, vs: seq<nat>, ts: seq<Round>, j: nat)
    requires n.Statics()
  {
    j < |ts| && j + 1 < |cs| && j + 1 < |vs| &&
    RoundIn(n, s, q, j, cs[j], vs[j], ts[j]) && cs[j + 1] < |s.root| && s.root[cs[j + 1]] == s.root[ts[j].e] &&
    (j + 1 < |q| ==> SlotIn(ts[j].x1, s.parent, cs[j + 1], vs[j + 1]) && RebindOnly(ts[j].xm, ts[j].x1, ts[j].e))
  }

  /** A round stays as it went when the nets only grow and merge. */
  lemma RoundKept(n: Net, s0: Snap, s1: Snap, q: Path, j: nat, cx: nat, v: nat, t: Round)
    requires n.Statics() && KeepsOf(s0, s1) && RoundIn(n, s0, q, j, cx, v, t)
    ensures RoundIn(n, s1, q, j, cx, v, t)
  {
    DerefKept(n, s0, s1, q[j], cx, v, t);
  }

  lemma DerefKept(n: Net, s0: Snap, s1: Snap, g: Seg, cx: nat, v: nat, t: Round)
    requires n.Statics() && KeepsOf(s0, s1) && DerefIn(n, s0, g, cx, v, t)
    ensures DerefIn(n, s1, g, cx, v, t)
  {
    assert s0.root[t.mid] < |s0.root| && s0.root[t.de] < |s0.root|;
    if Derefs(g) {
      SlotInKept(t.xm, s0.parent, s1.parent, t.mid, t.vm);
    }
  }

  /** The rounds stay as they went when the nets only grow and merge. */
  lemma RoundsKept(n: Net, s0: Snap, s1: Snap, q: Path, cs: seq<nat>, vs: seq<nat>, ts: seq<Round>, m: nat)
    requires n.Statics() && KeepsOf(s0, s1) && Rounds(n, s0, q, cs, vs, ts, m)
    ensures Rounds(n, s1, q, cs, vs, ts, m)
  {
    forall j | 0 <= j < m
      ensures RoundAt(n, s1, q, cs, vs, ts, j)
    {
      assert RoundAt(n, s0, q, cs, vs, ts, j);
      RoundKept(n, s0, s1, q, j, cs[j], vs[j], ts[j]);
      assert s0.root[cs[j + 1]] < |s0.root|;
      if j + 1 < |q| {
        SlotInKept(ts[j].x1, s0.parent, s1.parent, cs[j + 1], vs[j + 1]);
      }
    }
  }

  /** One more round, from where the last one ended. */
  lemma RoundsSnoc(n: Net, s: Snap, q: Path, cs: seq<nat>, vs: seq<nat>, ts: seq<Round>, m: nat, t: Round, c: nat, w: nat)
    requires n.Statics() && Rounds(n, s, q, cs, vs, ts, m) && RoundIn(n, s, q, m, cs[m], vs[m], t)
    requires c < |s.root| && s.root[c] == s.root[t.e]
    requires m + 1 < |q| ==> SlotIn(t.x1, s.parent, c, w) && RebindOnly(t.xm, t.x1, t.e)
    ensures Rounds(n, s, q, cs + [c], vs + [w], ts + [t], m + 1)
  {
    var cs', vs', ts' := cs + [c], vs + [w], ts + [t];
    forall j | 0 <= j < m + 1
      ensures RoundAt(n, s, q, cs', vs', ts', j)
    {
      if j < m {
        assert RoundAt(n, s, q, cs, vs, ts, j);
        assert cs'[j] == cs[j] && cs'[j + 1] == cs[j + 1] && vs'[j] == vs[j] && vs'[j + 1] == vs[j + 1] && ts'[j] == ts[j];
      }
    }
  }

  /** `Canonical`: the primary connection a path denotes.  The first name is
      resolved by `rawValueIdx` and replaced by its net's primary; then each
      segment's dereference selects an element and each following name
      selects a port, whose node is bound to the slot `rawValueIdx` finds
      for the rest of the path in the port's type, re-rooting at every step.
      `cs`, `vs` and `ts` are the primaries, their slots and the rounds of
      the walk. */
  method Canonical(n: Net, p: Path, s: int, nsScope: int)
    returns (r: Result<nat>, ghost cs: seq<nat>, ghost vs: seq<nat>, ghost ts: seq<Round>)
    requires n.Valid() && |p| >= 1 && s < |n.scopes| && nsScope < |n.scopes|
    modifies n
    ensures n.Valid() && |n.up| >= old(|n.up|)
    ensures RawLookup(n, Live, p, s, nsScope).Err? ==> r == RawLookup(n, Live, p, s, nsScope)
    ensures r.Ok? ==> RawLookup(n, Live, p, s, nsScope).Ok? && n.init[RawLookup(n, Live, p, s, nsScope).value]
    ensures r.Ok? ==> r.value < |n.up| && n.up[r.value] == -1
    ensures r.Ok? && |Named(p)| == 1 && Named(p)[0].sub.None? ==>
      r.value == n.root[n.conn[RawLookup(n, Live, p, s, nsScope).value]]
    ensures r.Ok? ==>
      Rounds(n, n.Snapshot(), Named(p), cs, vs, ts, |Named(p)|) && r.value == cs[|Named(p)|] &&
      cs[0] < |n.up| && n.root[cs[0]] == n.root[n.conn[RawLookup(n, Live, p, s, nsScope).value]]
    ensures r.Ok? ==> SlotIn(ts[0].x0, n.parent, cs[0], vs[0])
  {
    cs, vs, ts := [], [], [];
    var st := Start(n, p, s, nsScope);
    if st.Err? {
      return Err(st.error), cs, vs, ts;
    }
    var k: nat, cx: nat, v: nat := st.value.0, st.value.1, st.value.2;
    ghost var pre := n.Snapshot();
    ghost var ck := n.conn[k];
    r, cs, vs, ts := Follow(n, Live, Named(p), cx, v, nsScope);
    assert pre.root[ck] == cx && ck < |pre.root|;
    if r.Ok? {
      SlotInKept(pre.vx, pre.parent, n.parent, cx, v);
    }
    if r.Ok? && |Named(p)| == 1 && Named(p)[0].sub.None? {
      PlainRound(n, Named(p), cs, vs, ts);
    }
  }

  /** A walk over one plain name ends on the primary of the net it started in. */
  lemma PlainRound(n: Net, q: Path, cs: seq<nat>, vs: seq<nat>, ts: seq<Round>)
    requires n.Valid() && |q| == 1 && q[0].sub.None? && Rounds(n, n.Snapshot(), q, cs, vs, ts, 1)
    requires cs[1] < |n.up| && n.up[cs[1]] == -1
    ensures cs[0] < |n.up| && cs[1] == n.root[cs[0]]
  {
    assert RoundAt(n, n.Snapshot(), q, cs, vs, ts, 0);
  }

  /** The walk loop of `Canonical`: one `Step` per named segment, from the
      canonical connection `cx0` of the first one, with slot `v0`. */
  method Follow(n: Net, ver: Variant, q: Path, cx0: nat, v0: nat, nsScope: int)
    returns (r: Result<nat>, ghost cs: seq<nat>, ghost vs: seq<nat>, ghost ts: seq<Round>)
    requires n.Valid() && cx0 < |n.up| && (n.up[cx0] == -1 || |q| > 1) && v0 < |n.info| && nsScope < |n.scopes|
    modifies n
    ensures n.Valid() && |n.up| >= old(|n.up|) && n.Keeps(old(n.Snapshot()))
    ensures TouchedKept(old(n.init), old(n.conn), n.init, n.conn)
    ensures r.Ok? ==> r.value < |n.up| && n.up[r.value] == -1
    ensures r.Ok? ==> Rounds(n, n.Snapshot(), q, cs, vs, ts, |q|) && cs[0] == cx0 && vs[0] == v0 && r.value == cs[|q|]
    ensures r.Ok? && |q| > 0 ==> ts[0].x0 == old(n.vx)
  {
    var cx: nat, v: nat := cx0, v0;
    cs, vs, ts := [cx0], [v0], [];
    WalkingStart(n, q, cx0, v0);
    var j := 0;
    while j < |q|
      invariant |n.up| >= old(|n.up|)
      invariant Walking(n, q, j, cx, v, cs, vs, ts, cx0, v0, old(n.Snapshot()), old(n.init), old(n.conn))
    {
      var d;
      d, cs, vs, ts := NextRound(n, ver, q, j, nsScope, cx, v, cs, vs, ts, cx0, v0, old(n.Snapshot()), old(n.init), old(n.conn));
      if d.Err? {
        return Err(d.error), cs, vs, ts;
      }
      cx, v := d.value.0, d.value.1;
      j := j + 1;
    }
    WalkingDone(n, q, cx, v, cs, vs, ts, cx0, v0, old(n.Snapshot()), old(n.init), old(n.conn));
    r := Ok(cx);
  }

  /** Before its first round, `Follow` is in the state `Walking` describes. */
  lemma WalkingStart(n: Net, q: Path, cx0: nat, v0: nat)
    requires n.Valid() && cx0 < |n.up| && (n.up[cx0] == -1 || |q| > 1) && v0 < |n.info|
    ensures Walking(n, q, 0, cx0, v0, [cx0], [v0], [], cx0, v0, n.Snapshot(), n.init, n.conn)
  {
  }

  /** After its last round, what `Walking` says is what `Follow` promises. */
  lemma WalkingDone(n: Net, q: Path, cx: nat, v: nat, cs: seq<nat>, vs: seq<nat>, ts: seq<Round>,
                    cx0: nat, v0: nat, s0: Snap, i0: seq<bool>, c0: seq<int>)
    requires Walking(n, q, |q|, cx, v, cs, vs, ts, cx0, v0, s0, i0, c0)
    ensures n.Valid() && n.Keeps(s0) && TouchedKept(i0, c0, n.init, n.conn)
    ensures cx < |n.up| && n.up[cx] == -1
    ensures Rounds(n, n.Snapshot(), q, cs, vs, ts, |q|) && cs[0] == cx0 && vs[0] == v0 && cx == cs[|q|]
    ensures |q| > 0 ==> ts[0].x0 == s0.vx
  {
  }

  /** After `j` rounds of `Follow` from `cx0` with slot `v0`: the rounds
      went as `Rounds` says, the first starting with the slots `x0`, and
      ended on `cx` with slot `v`. */
  ghost predicate Walked(n: Net, q: Path, j: nat, cx: nat, v: nat, cs: seq<nat>, vs: seq<nat>, ts: seq<Round>,
                         cx0: nat, v0: nat, x0: seq<int>)
    reads n
    requires n.Statics()
  {
    j <= |q| && Rounds(n, n.Snapshot(), q, cs, vs, ts, j) && cs[j] == cx && vs[j] == v &&
    cs[0] == cx0 && vs[0] == v0 && (j > 0 ==> ts[0].x0 == x0)
  }

  /** The state of `Follow` after `j` rounds, from the snapshot `s0` and
      the touched slots `i0`, `c0` it began with: the graph is well formed,
      nothing of it was undone, and the rounds went as `Walked` says. */
  ghost predicate Walking(n: Net, q: Path, j: nat, cx: nat, v: nat, cs: seq<nat>, vs: seq<nat>, ts: seq<Round>,
                          cx0: nat, v0: nat, s0: Snap, i0: seq<bool>, c0: seq<int>)
    reads n
  {
    n.Valid() && cx < |n.up| && v < |n.info| && (n.up[cx] == -1 || (j == 0 && |q| > 1)) &&
    n.Keeps(s0) && TouchedKept(i0, c0, n.init, n.conn) &&
    Walked(n, q, j, cx, v, cs, vs, ts, cx0, v0, s0.vx) && (j == 0 ==> n.vx == s0.vx)
  }

  /** Round `j` of `Follow`, from the primary `cx` with slot `v` that the
      earlier rounds `cs`, `vs`, `ts` ended on. */
  method NextRound(n: Net, ver: Variant, q: Path, j: nat, nsScope: int, cx: nat, v: nat,
                   ghost cs: seq<nat>, ghost vs: seq<nat>, ghost ts: seq<Round>,
                   ghost cx0: nat, ghost v0: nat, ghost s0: Snap, ghost i0: seq<bool>, ghost c0: seq<int>)
    returns (d: Result<(nat, nat)>, ghost cs': seq<nat>, ghost vs': seq<nat>, ghost ts': seq<Round>)
    requires Walking(n, q, j, cx, v, cs, vs, ts, cx0, v0, s0, i0, c0) && j < |q| && nsScope < |n.scopes|
    modifies n
    ensures n.Valid() && |n.up| >= old(|n.up|) && n.Keeps(s0) && TouchedKept(i0, c0, n.init, n.conn)
    ensures d.Ok? ==> Walking(n, q, j + 1, d.value.0, d.value.1, cs', vs', ts', cx0, v0, s0, i0, c0)
    ensures j + 1 == |q| && q[j].sub.None? ==> d == Ok((cx, v)) && n.root == old(n.root)
    ensures d.Ok? ==> cs' == cs + [d.value.0] && vs' == vs + [d.value.1] && ts'[..j] == ts && ts'[j].x0 == old(n.vx)
  {
    ghost var pre, pi, pc := n.Snapshot(), n.init, n.conn;
    ghost var t;
    d, t := Step(n, ver, cx, v, q, j, nsScope);
    t := t.(x1 := n.vx);
    KeepsTrans(s0, pre, n.Snapshot());
    TouchedTrans(i0, c0, pi, pc, n.init, n.conn);
    cs', vs', ts' := cs, vs, ts;
    if d.Ok? {
      RoundsKept(n, pre, n.Snapshot(), q, cs, vs, ts, j);
      RoundsSnoc(n, n.Snapshot(), q, cs, vs, ts, j, t, d.value.0, d.value.1);
      cs', vs', ts' := cs + [d.value.0], vs + [d.value.1], ts + [t];
    }
  }

  /** One round of the walk of `Canonical`: the dereference of segment `j`,
      then the port named by segment `j + 1`, if there is one, whose node is
      bound to the slot the rest of the path names in the port's type. */
  method Step(n: Net, ver: Variant, cx: nat, v: nat, q: Path, j: nat, nsScope: int)
    returns (r: Result<(nat, nat)>, ghost t: Round)
    requires n.Valid() && cx < |n.up| && v < |n.info| && j < |q| && nsScope < |n.scopes|
    requires n.up[cx] == -1 || j + 1 < |q|
    modifies n
    ensures n.Valid() && |n.up| >= old(|n.up|) && n.Keeps(old(n.Snapshot()))
    ensures forall i :: 0 <= i < |n.info| && old(n.init[i]) ==> n.init[i] && n.conn[i] == old(n.conn[i])
    ensures r.Ok? ==> r.value.0 < |n.up| && n.up[r.value.0] == -1 && r.value.1 < |n.info|
    ensures j + 1 == |q| && q[j].sub.None? ==> r == Ok((cx, v)) && n.root == old(n.root)
    ensures r.Ok? ==> RoundIn(n, n.Snapshot(), q, j, cx, v, t) && r.value.0 == n.root[t.e] && t.x0 == old(n.vx)
    ensures r.Ok? && j + 1 < |q| ==>
      RawLookup(n, ver, q[j + 1..], n.users[n.info[t.vm].t.base.ud].scope, nsScope) == Ok(n.vx[t.e])
    ensures r.Ok? && j + 1 < |q| ==> n.VxOf(r.value.0) == Ok(r.value.1) && RebindOnly(t.xm, n.vx, t.e)
  {
    t := Round(0, 0, 0, 0, [], [], []);
    ghost var x0 := n.vx;
    var d, de := DerefStep(n, cx, v, q[j]);
    if d.Err? {
      return d, t;
    }
    t := Round(de, d.value.0, d.value.1, d.value.0, x0, n.vx, []);
    assert Derefs(q[j]) ==> n.root[d.value.0] == d.value.0;
    assert DerefIn(n, n.Snapshot(), q[j], cx, v, t);
    if j + 1 == |q| {
      return d, t;
    }
    ghost var pre := n.Snapshot();
    r, t := PortRound(n, ver, cx, v, q, j, nsScope, d.value.0, d.value.1, t);
    KeepsTrans(old(n.Snapshot()), pre, n.Snapshot());
  }

  /** The port half of round `j`: the port named by segment `j + 1` below
      the primary `t0.mid` the dereference half reached. */
  method PortRound(n: Net, ver: Variant, ghost cx: nat, ghost v: nat, q: Path, j: nat, nsScope: int,
                   mid: nat, vm: nat, ghost t0: Round)
    returns (r: Result<(nat, nat)>, ghost t: Round)
    requires n.Valid() && j + 1 < |q| && nsScope < |n.scopes| && DerefIn(n, n.Snapshot(), q[j], cx, v, t0)
    requires t0.mid == mid < |n.up| && t0.vm == vm && t0.xm == n.vx
    modifies n
    ensures n.Valid() && |n.up| >= old(|n.up|) && n.Keeps(old(n.Snapshot()))
    ensures forall i :: 0 <= i < |n.info| && old(n.init[i]) ==> n.init[i] && n.conn[i] == old(n.conn[i])
    ensures r.Ok? ==> r.value.0 < |n.up| && n.up[r.value.0] == -1 && r.value.1 < |n.info|
    ensures r.Ok? ==> RoundIn(n, n.Snapshot(), q, j, cx, v, t) && r.value.0 == n.root[t.e]
    ensures r.Ok? ==>
      RawLookup(n, ver, q[j + 1..], n.users[n.info[t.vm].t.base.ud].scope, nsScope) == Ok(n.vx[t.e])
    ensures r.Ok? ==> t == t0.(e := t.e) && n.VxOf(r.value.0) == Ok(r.value.1) && RebindOnly(t.xm, n.vx, t.e)
  {
    ghost var pre := n.Snapshot();
    ghost var e;
    r, e := PortStepOf(n, ver, mid, vm, q[j + 1..], nsScope);
    t := t0.(e := e);
    if r.Ok? {
      DerefKept(n, pre, n.Snapshot(), q[j], cx, v, t0);
      assert q[j + 1..][0] == q[j + 1];
    }
  }

  /** The start of `Canonical`: the slot of the first name, the primary of
      its root connection and that primary's slot. */
  method Start(n: Net, p: Path, s: int, nsScope: int) returns (r: Result<(nat, nat, nat)>)
    requires n.Valid() && |p| >= 1 && s < |n.scopes| && nsScope < |n.scopes|
    modifies n
    ensures n.Valid() && |n.up| >= old(|n.up|)
    ensures forall j :: 0 <= j < |n.info| && old(n.init[j]) ==> n.init[j] && n.conn[j] == old(n.conn[j])
    ensures RawLookup(n, Live, p, s, nsScope).Err? ==> r == RawLookup(n, Live, p, s, nsScope).PropagateFailure()
    ensures r.Ok? ==> RawLookup(n, Live, p, s, nsScope) == Ok(r.value.0) && n.init[r.value.0]
    ensures r.Ok? ==> r.value.1 == n.root[n.conn[r.value.0]] && n.up[r.value.1] == -1 && n.VxOf(r.value.1) == Ok(r.value.2)
  {
    var k := RawValueIdx(n, Live, p, s, nsScope);
    if k.Err? {
      return Err(k.error);
    }
    var cx := n.Primary(n.conn[k.value]);
    var v := n.VxOf(cx);
    if v.Err? {
      return Err(v.error);
    }
    r := Ok((k.value, cx, v.value));
  }

  /** The dereference step of `Canonical`: for a segment with a dereference,
      the element `de` it names below `cx`, re-rooted, and the slot of that
      primary. */
  method DerefStep(n: Net, cx: nat, v: nat, seg: Seg) returns (r: Result<(nat, nat)>, ghost de: nat)
    requires n.Valid() && cx < |n.up| && v < |n.info|
    modifies n
    ensures n.Valid() && |n.up| >= old(|n.up|) && n.Extends(old(n.Snapshot()))
    ensures n.init == old(n.init) && n.conn == old(n.conn) && n.vx[..old(|n.vx|)] == old(n.vx)
    ensures r.Ok? ==> r.value.0 < |n.up| && r.value.1 < |n.info|
    ensures r.Ok? && Derefs(seg) ==>
      n.info[v].t.arr.Some? && ChildAt(n.sub, cx, ElementOffset(n.info[v].t.arr.value, seg.sub.value), de) &&
      de < |n.up| && r.value.0 == n.root[de] && n.VxOf(r.value.0) == Ok(r.value.1)
    ensures !Derefs(seg) ==> r == Ok((cx, v)) && de == cx && n.up == old(n.up) && n.root == old(n.root)
    ensures Derefs(seg) && (n.info[v].t.arr.None? || ElementOffset(n.info[v].t.arr.value, seg.sub.value) == -1) ==>
      r == Err(Internal("This should have been caught earlier"))
    ensures r.Err? ==> r.error.Internal?
  {
    de := cx;
    if !Derefs(seg) {
      return Ok((cx, v)), de;
    }
    var t := n.info[v].t;
    if t.arr.None? {
      return Err(Internal("This should have been caught earlier")), de;
    }
    var idx := ElementOffset(t.arr.value, seg.sub.value);
    if idx == -1 {
      return Err(Internal("This should have been caught earlier")), de;
    }
    r, de := ElementPrimary(n, cx, idx, Size(t.arr.value));
  }

  /** The element node at offset `idx` below `cx`, of an array of `sz`
      elements, and its net's primary with the slot `VxOf` picks for it. */
  method ElementPrimary(n: Net, cx: nat, idx: int, sz: int) returns (r: Result<(nat, nat)>, ghost de: nat)
    requires n.Valid() && cx < |n.up|
    modifies n
    ensures n.Valid() && |n.up| >= old(|n.up|) && n.Extends(old(n.Snapshot()))
    ensures n.init == old(n.init) && n.conn == old(n.conn) && n.vx[..old(|n.vx|)] == old(n.vx)
    ensures r.Ok? ==> r.value.0 < |n.up| && r.value.1 < |n.info|
    ensures r.Ok? ==> ChildAt(n.sub, cx, idx, de) && de < |n.up| && r.value.0 == n.root[de] && n.VxOf(r.value.0) == Ok(r.value.1)
    ensures r.Err? ==> r.error.Internal?
  {
    de := cx;
    var e := n.GetSubconn(cx, idx, sz);
    if e.Err? {
      return Err(e.error), de;
    }
    var node := e.value;
    de := node;
    var c := n.Primary(node);
    var w := n.VxOf(c);
    if w.Err? {
      return Err(w.error), de;
    }
    r := Ok((c, w.value));
  }

  /** The port step of `Canonical`: the node `e` of port `rest[0]` of the
      user-defined type of slot `v`, below `cx`, bound to the slot
      `rawValueIdx` finds for `rest` in the type's scope, then re-rooted. */
  method PortStepOf(n: Net, ver: Variant, cx: nat, v: nat, rest: Path, nsScope: int)
    returns (r: Result<(nat, nat)>, ghost e: nat)
    requires n.Valid() && cx < |n.up| && v < |n.info| && |rest| >= 1 && nsScope < |n.scopes|
    modifies n
    ensures n.Valid() && |n.up| >= old(|n.up|) && n.Keeps(old(n.Snapshot()))
    ensures forall j :: 0 <= j < |n.info| && old(n.init[j]) ==> n.init[j] && n.conn[j] == old(n.conn[j])
    ensures r.Ok? ==> r.value.0 < |n.up| && n.up[r.value.0] == -1 && r.value.1 < |n.info|
    ensures !n.info[v].t.base.User? ==> r == Err(Internal("Should have been caught earlier!"))
    ensures n.info[v].t.base.User? && PortIdOf(n, v, rest[0].name) <= 0 ==> r == Err(Internal("What?"))
    ensures r.Ok? ==>
      n.info[v].t.base.User? && PortIdOf(n, v, rest[0].name) > 0 &&
      ChildAt(n.sub, cx, PortIdOf(n, v, rest[0].name) - 1, e) && e < |n.up| &&
      r.value.0 == n.root[e] && n.VxOf(r.value.0) == Ok(r.value.1) &&
      RawLookup(n, ver, rest, n.users[n.info[v].t.base.ud].scope, nsScope) == Ok(n.vx[e])
    ensures r.Ok? ==> RebindOnly(old(n.vx), n.vx, e)
  {
    e := 0;
    var t := n.info[v].t;
    if !t.base.User? {
      return Err(Internal("Should have been caught earlier!")), e;
    }
    var u := n.users[t.base.ud];
    var portid := PortCode(u.params, u.ports, rest[0].name);
    if portid <= 0 {
      return Err(Internal("What?")), e;
    }
    var b := BoundPort(n, ver, cx, portid - 1, |u.ports|, rest, u.scope, nsScope);
    if b.Err? {
      return Err(b.error), e;
    }
    var node := b.value;
    e := node;
    var c := n.Primary(node);
    var w2 := n.VxOf(c);
    if w2.Err? {
      return Err(w2.error), e;
    }
    r := Ok((c, w2.value));
  }

  /** The node at position `i` below `cx` (made when missing), bound to the
      slot `rawValueIdx` finds for `rest` in scope `scope`. */
  method BoundPort(n: Net, ver: Variant, cx: nat, i: nat, np: nat, rest: Path, scope: nat, nsScope: int)
    returns (r: Result<nat>)
    requires n.Valid() && cx < |n.up| && |rest| >= 1 && scope < |n.scopes| && nsScope < |n.scopes|
    modifies n
    ensures n.Valid() && |n.up| >= old(|n.up|) && n.Keeps(old(n.Snapshot()))
    ensures forall j :: 0 <= j < |n.info| && old(n.init[j]) ==> n.init[j] && n.conn[j] == old(n.conn[j])
    ensures r.Ok? ==> ChildAt(n.sub, cx, i, r.value) && r.value < |n.up| && RawLookup(n, ver, rest, scope, nsScope) == Ok(n.vx[r.value])
    ensures r.Ok? ==> RebindOnly(old(n.vx), n.vx, r.value)
  {
    var sc := n.GetSubconn(cx, i, np);
    if sc.Err? {
      return Err(sc.error);
    }
    var node := sc.value;
    ghost var pre := n.Snapshot();
    r := BindNode(n, ver, node, rest, scope, nsScope);
    KeepsTrans(old(n.Snapshot()), pre, n.Snapshot());
    if r.Ok? {
      assert ChildAt(n.sub, cx, i, node);
      RebindTrans(old(n.vx), pre.vx, n.vx, node);
    }
  }

  /** The second half of the binding of a port node: the slot the rest of
      the path names in the port's type, bound to `node`. */
  method BindNode(n: Net, ver: Variant, node: nat, rest: Path, scope: nat, nsScope: int)
    returns (r: Result<nat>)
    requires n.Valid() && node < |n.up| && |rest| >= 1 && scope < |n.scopes| && nsScope < |n.scopes|
    modifies n
    ensures n.Valid() && |n.up| >= old(|n.up|) && n.Keeps(old(n.Snapshot()))
    ensures forall j :: 0 <= j < |n.info| && old(n.init[j]) ==> n.init[j] && n.conn[j] == old(n.conn[j])
    ensures r.Ok? ==> r.value == node && RawLookup(n, ver, rest, scope, nsScope) == Ok(n.vx[node])
    ensures r.Ok? ==> RebindOnly(old(n.vx), n.vx, node)
  {
    var w := RawValueIdx(n, ver, rest, scope, nsScope);
    if w.Err? {
      return Err(w.error);
    }
    ghost var pre := n.Snapshot();
    RebindAfter(old(n.Snapshot()), pre, node, w.value);
    n.SetVx(node, w.value);
    KeepsTrans(old(n.Snapshot()), pre, n.Snapshot());
    r := Ok(node);
  }

  /*----------------------------- rootCanonical ------------------------------*/

  /** The node `rootCanonical` settles on from `c`, in at most `fuel` rounds
      after the first: each round climbs to the top of the structure and
      takes that node's primary, until the primary is itself a top node. */
  ghost function Climb(n: Net, c: nat, fuel: nat): (r: Result<nat>)
    reads n
    requires n.Valid() && c < |n.up|
    ensures r.Ok? ==> r.value < |n.up|
    decreases fuel
  {
    var d := n.root[n.Top(c)];
    if n.parent[d] == -1 then Ok(d)
    else if fuel == 0 then Err(Internal("rootCanonical does not settle"))
    else Climb(n, d, fuel - 1)
  }

  /** What `Climb` makes of the node `d` one round has reached. */
  ghost function Continue(n: Net, d: nat, fuel: nat): Result<nat>
    reads n
    requires n.Valid() && d < |n.up|
  {
    if n.parent[d] == -1 then Ok(d)
    else if fuel == 0 then Err(Internal("rootCanonical does not settle"))
    else Climb(n, d, fuel - 1)
  }

  /** `Climb` ends on a primary node at the top of its structure. */
  lemma {:induction false} ClimbSettles(n: Net, c: nat, fuel: nat)
    requires n.Valid() && c < |n.up| && Climb(n, c, fuel).Ok?
    ensures Climb(n, c, fuel).value < |n.up|
    ensures n.parent[Climb(n, c, fuel).value] == -1 && n.up[Climb(n, c, fuel).value] == -1
    decreases fuel
  {
    var d := n.root[n.Top(c)];
    if n.parent[d] != -1 {
      ClimbSettles(n, d, fuel - 1);
    }
  }

  /** A node that is primary and at the top is where `Climb` stays. */
  lemma ClimbFixed(n: Net, c: nat, fuel: nat)
    requires n.Valid() && c < |n.up| && n.parent[c] == -1 && n.up[c] == -1
    ensures Climb(n, c, fuel) == Ok(c)
  {
    assert n.Top(c) == c;
    assert n.root[c] == c;
  }

  /** Settling twice is settling once. */
  lemma {:induction false} ClimbIdempotent(n: Net, c: nat, fuel: nat, fuel': nat)
    requires n.Valid() && c < |n.up| && Climb(n, c, fuel).Ok?
    ensures Climb(n, Climb(n, c, fuel).value, fuel') == Climb(n, c, fuel)
  {
    ClimbSettles(n, c, fuel);
    ClimbFixed(n, Climb(n, c, fuel).value, fuel');
  }

  /** One round of `rootCanonical`: up the structural parents to the top,
      then to that node's primary. */
  method ClimbOnce(n: Net, c: nat) returns (d: nat)
    requires n.Valid() && c < |n.up|
    ensures d == n.root[n.Top(c)] && d < |n.up| && n.up[d] == -1
  {
    var t: nat := c;
    while n.parent[t] != -1
      invariant t < |n.up| && n.Top(t) == n.Top(c)
      decreases t
    {
      t := n.parent[t];
    }
    d := n.Primary(t);
  }

  /** The rounds of `rootCanonical`, at most `fuel` after the first. */
  method Settle(n: Net, c: nat, fuel: nat) returns (r: Result<nat>)
    requires n.Valid() && c < |n.up|
    ensures r == Climb(n, c, fuel)
  {
    var d: nat := ClimbOnce(n, c);
    var f: nat := fuel;
    while n.parent[d] != -1
      invariant d < |n.up| && Climb(n, c, fuel) == Continue(n, d, f)
      decreases f
    {
      if f == 0 {
        return Err(Internal("rootCanonical does not settle"));
      }
      d := ClimbOnce(n, d);
      f := f - 1;
    }
    r := Ok(d);
  }

  /** `rootCanonical`: the canonical connection of a path, settled on a
      primary node at the top of its structure; the number of rounds is
      bounded by the number of nodes. */
  method RootCanonical(n: Net, p: Path, s: int, nsScope: int) returns (r: Result<nat>)
    requires n.Valid() && |p| >= 1 && s < |n.scopes| && nsScope < |n.scopes|
    modifies n
    ensures n.Valid() && |n.up| >= old(|n.up|)
    ensures RawLookup(n, Live, p, s, nsScope).Err? ==> r == RawLookup(n, Live, p, s, nsScope)
    ensures r.Ok? ==> r.value < |n.up| && n.parent[r.value] == -1 && n.up[r.value] == -1
  {
    var c, cs, vs, ts := Canonical(n, p, s, nsScope);
    if c.Err? {
      return c;
    }
    r := Settle(n, c.value, |n.up|);
    if r.Ok? {
      ClimbSettles(n, c.value, |n.up|);
    }
  }

  /*------------------------------- isNonLocal -------------------------------*/

  /** The rule of `isNonLocal` for a settled node `c` of scope `s`: the net is
      global, or the scope is the body of a user-defined type other than a
      function and the node's slot is one of its ports. */
  predicate NonLocalRoot(n: Net, c: nat, s: nat)
    reads n
    requires n.Valid() && c < |n.up| && n.parent[c] == -1 && s < |n.scopes|
  {
    var sc := n.scopes[s];
    n.IsGlobal(c) ||
    (0 <= sc.owner && !sc.isFunction &&
     PortCode(n.users[sc.owner].params, n.users[sc.owner].ports, n.info[n.vx[c]].name) > 0)
  }

  /** `isNonLocal`: a path whose first segment is a run-time dereference is
      local; otherwise the path's settled root decides.  `at` is that root. */
  method IsNonLocal(n: Net, p: Path, s: nat, nsScope: int) returns (r: Result<bool>, ghost at: nat)
    requires n.Valid() && |p| >= 1 && s < |n.scopes| && nsScope < |n.scopes|
    modifies n
    ensures n.Valid()
    ensures DynamicCheck(p).Err? ==> r.Err? && r.error == DynamicCheck(p).error
    ensures DynamicCheck(p) == Ok(1) ==> r == Ok(false)
    ensures DynamicCheck(p) == Ok(0) && RawLookup(n, Live, p, s, nsScope).Err? ==> r.Err? && r.error == RawLookup(n, Live, p, s, nsScope).error
    ensures r.Ok? && DynamicCheck(p) == Ok(0) ==>
      at < |n.up| && n.parent[at] == -1 && n.up[at] == -1 && r.value == NonLocalRoot(n, at, s)
  {
    at := 0;
    var d := DynamicCheck(p);
    if d.Err? {
      return Err(d.error), at;
    }
    if d.value == 1 {
      return Ok(false), at;
    }
    var c := RootCanonical(n, p, s, nsScope);
    if c.Err? {
      return Err(c.error), at;
    }
    var top := c.value;
    at := top;
    if n.IsGlobal(top) {
      return Ok(true), at;
    }
    var sc := n.scopes[s];
    r := Ok(0 <= sc.owner && !sc.isFunction &&
            PortCode(n.users[sc.owner].params, n.users[sc.owner].ports, n.info[n.vx[top]].name) > 0);
  }

  /*------------------------------ validateDeref -----------------------------*/

  /** A segment suits a slot of type `t`: an array slot needs a dereference
      naming one of its elements, a scalar one no subscript. */
  predicate SegFits(t: InstType, g: Seg) {
    if t.arr.Some? then g.sub.Some? && IsDeref(g.sub.value) && ElementOffset(t.arr.value, g.sub.value) != -1
    else g.sub.None?
  }

  /** The check of `validateDeref` from slot `v` for the path `q` it names:
      every segment suits its slot, and every later name is a slot of the
      user-defined type before it. */
  function DerefFrom(n: Net, v: nat, q: Path): bool
    requires n.Statics() && v < |n.info| && |q| >= 1
    decreases |q|
  {
    var t := n.info[v].t;
    SegFits(t, q[0]) &&
    if !t.base.User? then |q| == 1
    else if |q| == 1 then true
    else match LookupVal(n, n.users[t.base.ud].scope, q[1].name)
      case None => false
      case Some(w) => DerefFrom(n, w, q[1..])
  }

  /** `validateDeref`: whether a path names something that exists, with
      every array dereferenced in range. */
  function ValidateDeref(n: Net, p: Path, s: int, nsScope: int): Result<bool>
    requires n.Statics() && |p| >= 1 && s < |n.scopes| && nsScope < |n.scopes|
  {
    var ns :- NamespaceCheck(p);
    var q := Body(p, ns);
    match ChainLookup(n, if ns then nsScope else s, q[0].name)
    case None => Ok(false)
    case Some(v) => Ok(DerefFrom(n, v, q))
  }

  /** The loop of `validateDeref`. */
  method ValidateDerefLoop(n: Net, p: Path, s: int, nsScope: int) returns (r: Result<bool>)
    requires n.Statics() && |p| >= 1 && s < |n.scopes| && nsScope < |n.scopes|
    ensures r == ValidateDeref(n, p, s, nsScope)
  {
    var ns := NamespaceCheck(p);
    if ns.Err? {
      return Err(ns.error);
    }
    var q := Body(p, ns.value);
    var found := FindInChain(n, if ns.value then nsScope else s, q[0].name);
    if found.None? {
      return Ok(false);
    }
    var u: nat := found.value;
    var i: nat := 0;
    while true
      invariant i < |q| && u < |n.info|
      invariant DerefFrom(n, found.value, q) == DerefFrom(n, u, q[i..])
      decreases |q| - i
    {
      assert q[i..][0] == q[i];
      var t := n.info[u].t;
      var aoff := 0;
      if t.arr.Some? {
        if q[i].sub.None? || !IsDeref(q[i].sub.value) {
          return Ok(false);
        }
        aoff := ElementOffset(t.arr.value, q[i].sub.value);
      } else if q[i].sub.Some? {
        return Ok(false);
      }
      if aoff == -1 {
        return Ok(false);
      }
      if !t.base.User? {
        return Ok(i + 1 == |q|);
      }
      if i + 1 == |q| {
        return Ok(true);
      }
      var w := LookupVal(n, n.users[t.base.ud].scope, q[i + 1].name);
      if w.None? {
        return Ok(false);
      }
      assert q[i..][1..] == q[i + 1..];
      u, i := w.value, i + 1;
    }
  }

  /** A chain of slots `w` for the path `q`: each segment suits its slot, and
      each later slot is the next name's slot in the type before it. */
  ghost predicate ChainFits(n: Net, q: Path, w: seq<nat>)
    requires n.Statics()
  {
    |w| == |q| &&
    (forall i :: 0 <= i < |w| ==> w[i] < |n.info| && SegFits(n.info[w[i]].t, q[i])) &&
    (forall i :: 0 <= i < |w| - 1 ==>
       w[i] < |n.info| && n.info[w[i]].t.base.User? &&
       LookupVal(n, n.users[n.info[w[i]].t.base.ud].scope, q[i + 1].name) == Some(w[i + 1]))
  }

  /** The slots `validateDeref` visits from `v`. */
  ghost function SlotChain(n: Net, v: nat, q: Path): (w: seq<nat>)
    requires n.Statics() && v < |n.info| && |q| >= 1
    decreases |q|
  {
    var t := n.info[v].t;
    if |q| == 1 || !t.base.User? then [v]
    else match LookupVal(n, n.users[t.base.ud].scope, q[1].name)
      case None => [v]
      case Some(u) => [v] + SlotChain(n, u, q[1..])
  }

  /** `validateDeref` accepts exactly the paths that have a fitting chain of
      slots starting at the first name's slot. */
  lemma {:induction false} DerefFromChain(n: Net, v: nat, q: Path)
    requires n.Statics() && v < |n.info| && |q| >= 1
    ensures DerefFrom(n, v, q) ==> ChainFits(n, q, SlotChain(n, v, q))
    ensures forall w :: ChainFits(n, q, w) && w[0] == v ==> DerefFrom(n, v, q)
    decreases |q|
  {
    var t := n.info[v].t;
    if |q| > 1 && t.base.User? && LookupVal(n, n.users[t.base.ud].scope, q[1].name).Some? {
      var u := LookupVal(n, n.users[t.base.ud].scope, q[1].name).value;
      DerefFromChain(n, u, q[1..]);
      if DerefFrom(n, v, q) {
        var tail := SlotChain(n, u, q[1..]);
        assert SlotChain(n, v, q) == [v] + tail;
        assert ChainFits(n, q[1..], tail);
        ChainCons(n, q, v, tail);
      }
      forall w | ChainFits(n, q, w) && w[0] == v ensures DerefFrom(n, v, q) {
        assert w[1] == u;
        ChainTail(n, q, w);
        assert SegFits(n.info[w[0]].t, q[0]);
      }
    } else {
      forall w | ChainFits(n, q, w) && w[0] == v ensures DerefFrom(n, v, q) {
        assert SegFits(n.info[w[0]].t, q[0]);
      }
    }
  }

  /** A fitting chain for the rest of the path, behind a first slot that
      fits the first segment and leads to it, fits the whole path. */
  lemma ChainCons(n: Net, q: Path, v: nat, tail: seq<nat>)
    requires n.Statics() && v < |n.info| && |q| > 1
    requires SegFits(n.info[v].t, q[0]) && n.info[v].t.base.User?
    requires ChainFits(n, q[1..], tail)
    requires LookupVal(n, n.users[n.info[v].t.base.ud].scope, q[1].name) == Some(tail[0])
    ensures ChainFits(n, q, [v] + tail)
  {
    var w := [v] + tail;
    forall i | 0 <= i < |q| ensures w[i] < |n.info| && SegFits(n.info[w[i]].t, q[i]) {
      if i > 0 {
        assert w[i] == tail[i - 1] && q[i] == q[1..][i - 1];
      }
    }
    forall i | 0 <= i < |q| - 1
      ensures w[i] < |n.info| && n.info[w[i]].t.base.User? &&
        LookupVal(n, n.users[n.info[w[i]].t.base.ud].scope, q[i + 1].name) == Some(w[i + 1])
    {
      if i > 0 {
        assert w[i] == tail[i - 1] && w[i + 1] == tail[i] && q[i + 1] == q[1..][i];
      }
    }
  }

  /** Dropping the first slot of a fitting chain fits the rest of the path. */
  lemma ChainTail(n: Net, q: Path, w: seq<nat>)
    requires n.Statics() && |q| > 1 && ChainFits(n, q, w)
    ensures ChainFits(n, q[1..], w[1..])
  {
    forall i | 0 <= i < |w| - 1 ensures w[1..][i] < |n.info| && SegFits(n.info[w[1..][i]].t, q[1..][i]) {
      assert w[1..][i] == w[i + 1] && q[1..][i] == q[i + 1];
    }
    forall i | 0 <= i < |w| - 2
      ensures w[1..][i] < |n.info| && n.info[w[1..][i]].t.base.User? &&
        LookupVal(n, n.users[n.info[w[1..][i]].t.base.ud].scope, q[1..][i + 1].name) == Some(w[1..][i + 1])
    {
      assert w[1..][i] == w[i + 1] && w[1..][i + 1] == w[i + 2] && q[1..][i + 1] == q[i + 2];
    }
  }
}
