/**
 * Hierarchical identifiers (`ActId`): a singly-linked list of segments, each
 * with a name, an optional subscript and the rest of the path.  Every node
 * keeps, as ghost state, the sequence of nodes from itself to the end of the
 * list; the path it denotes is read off that sequence.
 */
module Ids {

  import opened Common
  import opened Arrays
  import opened Paths
  import opened CBuf

  /** The subscript a node carries, as a value. */
  function SubOf(a: Array?): Option<seq<Dim>> {
    if a == null then None else Some(a.dims)
  }

  /** The namespace rule of `isNamespace`: a first name containing `:` is a
      namespace prefix, which must be followed by a name and carry no subscript. */
  function NamespaceCheck(p: Path): Result<bool>
    requires |p| >= 1
  {
    if ':' !in p[0].name then Ok(false)
    else if |p| == 1 then Err(Internal("Namespace prefix in ID must have an actual ID name"))
    else if p[0].sub.Some? then Err(Internal("Namespace prefix should not have an array"))
    else Ok(true)
  }

  /** A segment with a dereference that has a run-time index. */
  predicate DynamicSeg(s: Seg) {
    s.sub.Some? && IsDynamicDeref(s.sub.value)
  }

  /** The rule of `isDynamicDeref`: 1 when the first segment is a dynamic
      dereference, and a fatal error when any later one is. */
  function DynamicCheck(p: Path): Result<int>
    requires |p| >= 1
  {
    if exists j :: 1 <= j < |p| && DynamicSeg(p[j]) then
      Err(Fatal("Only simple (first-level) dynamic derefs are supported"))
    else if DynamicSeg(p[0]) then Ok(1)
    else Ok(0)
  }

  lemma ConsEqual(x: Seg, p: Path, q: Path)
    ensures [x] + p == [x] + q <==> p == q
  {
    if [x] + p == [x] + q {
      assert ([x] + p)[1..] == p && ([x] + q)[1..] == q;
    }
  }

  /** `stripArray`'s result: the path with its last subscript removed. */
  function DropLastSub(p: Path): (r: Path)
    requires |p| >= 1
  {
    p[|p| - 1 := Seg(p[|p| - 1].name, None)]
  }

  lemma DropLastSubCons(x: Seg, q: Path)
    requires |q| >= 1
    ensures DropLastSub([x] + q) == [x] + DropLastSub(q)
  {
    assert ([x] + q)[|q|] == q[|q| - 1];
  }

  /** A copy of an optional subscript object. */
  method CloneSub(a: Array?) returns (c: Array?)
    ensures SubOf(c) == SubOf(a) && fresh(ArraySet(c))
  {
    c := null;
    if a != null {
      c := a.Clone();
    }
  }

  /** The subscript object of a node, as a footprint. */
  function ArraySet(a: Array?): set<object> {
    if a == null then {} else {a}
  }

  /** No segment text holds a NUL, so C strings carry them whole. */
  predicate NoNul(ts: seq<string>) {
    forall j :: 0 <= j < |ts| ==> '\0' !in ts[j]
  }

  /** What `sPrint` leaves in `buf` for the first `n` texts `ts` with `sz`
      bytes of room: nothing when there is nothing to print, otherwise the
      text cut to `sz - 1` characters and a NUL. */
  ghost predicate Printout(buf: array<char>, old0: seq<char>, ts: seq<string>, n: nat, ns: bool, sz: int)
    reads buf
    requires n <= |ts|
  {
    (n == 0 ==> buf[..] == old0) &&
    (n > 0 ==> Printed(buf, old0, Truncate(Layout(ts, n, ns), sz - 1)))
  }

  /** The nodes `ns` carry the segments of `p` and each links to the next. */
  ghost predicate Chain(ns: seq<ActId>, p: Path)
    reads ns
  {
    |ns| == |p| && |ns| >= 1 &&
    (forall i :: 0 <= i < |ns| ==> ns[i].name == p[i].name && SubOf(ns[i].a) == p[i].sub) &&
    (forall i {:trigger ns[i].next} :: 0 <= i < |ns| - 1 ==> ns[i].next == ns[i + 1]) &&
    ns[|ns| - 1].next == null
  }

  /** The state of the `sPrint` loop before the `j`-th node: the first `j`
      texts are in the buffer, `k` characters, with `rem` bytes left. */
  ghost predicate Turns(buf: array<char>, old0: seq<char>, ts: seq<string>, ns: bool, sz: int,
                        j: nat, k: nat, rem: int, nsf: bool)
    reads buf
    requires j <= |ts|
  {
    nsf == (ns && j <= 1) && k == |Layout(ts, j, ns)| && rem == sz - k && rem >= 1 &&
    (j == 0 ==> buf[..] == old0 && k == 0) &&
    (j > 0 ==> rem >= 2 && Printed(buf, old0, Layout(ts, j, ns)))
  }

  lemma TurnsDone(buf: array<char>, old0: seq<char>, ts: seq<string>, ns: bool, sz: int,
                  n: nat, k: nat, rem: int, nsf: bool)
    requires n <= |ts| && Turns(buf, old0, ts, ns, sz, n, k, rem, nsf)
    ensures Printout(buf, old0, ts, n, ns, sz)
  {
    assert Truncate(Layout(ts, n, ns), sz - 1) == Layout(ts, n, ns);
  }

  lemma PrintoutCut(buf: array<char>, old0: seq<char>, ts: seq<string>, n: nat, ns: bool, sz: int)
    requires 0 < n <= |ts| && Printed(buf, old0, Truncate(Layout(ts, n, ns), sz - 1))
    ensures Printout(buf, old0, ts, n, ns, sz)
  {
  }

  /** After the turn for segment `j`: either the buffer is full and holds
      the cut layout, or the loop goes on with segment `j + 1`. */
  lemma TurnEnd(buf: array<char>, old0: seq<char>, ts: seq<string>, ns: bool, sz: int,
                j: nat, n: nat, k: nat, rem: int, nsf: bool, sep: string,
                k2: nat, rem2: int, nsf2: bool, stop: bool)
    requires j < n <= |ts| && nsf == (ns && j <= 1) && k == |Layout(ts, j, ns)| && rem == sz - k
    requires Layout(ts, j, ns) + sep + ts[j] == Layout(ts, j + 1, ns)
    requires nsf2 == (if j == 0 then nsf else false)
    requires stop ==> Printed(buf, old0, Truncate(Layout(ts, n, ns), sz - 1))
    requires !stop ==> k2 == k + |sep| + |ts[j]| && rem2 == rem - |sep| - |ts[j]| && rem2 >= 2
    requires !stop ==> Printed(buf, old0, Layout(ts, j + 1, ns))
    ensures stop ==> Printout(buf, old0, ts, n, ns, sz)
    ensures !stop ==> Turns(buf, old0, ts, ns, sz, j + 1, k2, rem2, nsf2)
  {
    if stop {
      PrintoutCut(buf, old0, ts, n, ns, sz);
    } else {
      assert |Layout(ts, j + 1, ns)| == k + |sep| + |ts[j]|;
    }
  }

  /** A dynamic subscript after the first segment is the error. */
  lemma DynamicLater(p: Path, j: nat)
    requires 1 <= j < |p| && DynamicSeg(p[j])
    ensures DynamicCheck(p) == Err(Fatal("Only simple (first-level) dynamic derefs are supported"))
  {
  }

  /** With none after the first segment, the first one decides. */
  lemma DynamicFirst(p: Path, ret: int)
    requires |p| >= 1 && (ret == 1 <==> DynamicSeg(p[0])) && (ret == 0 || ret == 1)
    requires forall k :: 1 <= k < |p| ==> !DynamicSeg(p[k])
    ensures DynamicCheck(p) == Ok(ret)
  {
  }

  lemma CleanStep(p: Path, j: nat)
    requires 1 <= j < |p| && !DynamicSeg(p[j])
    requires forall k :: 1 <= k < j ==> !DynamicSeg(p[k])
    ensures forall k :: 1 <= k < j + 1 ==> !DynamicSeg(p[k])
  {
  }

  /** Node `j` of a chain carries segment `j` and links to node `j + 1`. */
  lemma ChainAt(ns: seq<ActId>, p: Path, j: nat)
    requires Chain(ns, p) && j < |p|
    ensures p[j] == Seg(ns[j].name, SubOf(ns[j].a))
    ensures ns[j].next == if j + 1 < |p| then ns[j + 1] else null
  {
  }

  /** Where a walk from `first` towards `end` stands at node `j`: at the
      start exactly when `j == 0`, and at `end` exactly when `j == n`. */
  lemma WalkStop(ns: seq<ActId>, first: ActId, end: ActId?, n: nat, j: nat)
    requires j < |ns| && n <= |ns| && ns[0] == first
    requires forall i :: 1 <= i < |ns| ==> ns[i] != first
    requires forall i :: 0 <= i < n ==> ns[i] != end
    requires n < |ns| ==> ns[n] == end
    ensures (ns[j] == first) == (j == 0)
    ensures j <= n ==> ((ns[j] == end) == (j == n))
  {
  }

  /** A segment whose subscript is a range rather than a dereference. */
  predicate RangeSeg(s: Seg) {
    s.sub.Some? && !IsDeref(s.sub.value)
  }

  /** Some segment of `p` carries a range. */
  predicate HasRange(p: Path) {
    exists j :: 0 <= j < |p| && RangeSeg(p[j])
  }

  /** The stack buffer of `ActId::Print`. */
  const PrintBufSize := 10240

  /** Texts without NUL lay out to a text without NUL. */
  lemma {:induction false} LayoutNoNul(ts: seq<string>, n: nat, ns: bool)
    requires n <= |ts| && NoNul(ts)
    ensures '\0' !in Layout(ts, n, ns)
  {
    if n > 0 {
      LayoutNoNul(ts, n - 1, ns);
      assert '\0' !in ts[n - 1];
    }
  }

  /** What `sPrint` leaves in a buffer that started with a NUL reads back,
      as a C string, as the laid-out text cut to `sz - 1` characters. */
  /** The buffer `Print` hands to `sPrint`: `PrintBufSize` characters, the
      first one NUL. */
  method NulBuffer() returns (buf: array<char>)
    ensures fresh(buf) && buf.Length == PrintBufSize && buf[0] == '\0'
  {
    buf := new char[PrintBufSize];
    buf[0] := '\0';
  }

  lemma PrintoutCStr(buf: array<char>, old0: seq<char>, ts: seq<string>, n: nat, ns: bool, sz: int)
    requires n <= |ts| && NoNul(ts) && 1 <= sz && |old0| >= 1 && old0[0] == '\0'
    requires Printout(buf, old0, ts, n, ns, sz)
    ensures '\0' in buf[..] && CStr(buf[..]) == Truncate(Layout(ts, n, ns), sz - 1)
  {
    var t := Truncate(Layout(ts, n, ns), sz - 1);
    if n == 0 {
      assert buf[..][0] == '\0';
      CStrAt(buf[..], 0);
    } else {
      LayoutNoNul(ts, n, ns);
      assert '\0' !in t by {
        assert t == Layout(ts, n, ns)[..|t|];
      }
      PrintedCStr(buf, old0, t);
      assert buf[..][|t|] == '\0';
    }
  }

  class ActId {
    var name: string
    var a: Array?
    var next: ActId?
    /** The nodes and subscript objects of this list. */
    ghost var Repr: set<object>

    ghost predicate Valid()
      reads this, Repr
      decreases Repr
    {
      this in Repr &&
      (next == null ==> Repr == {this}) &&
      (next != null ==>
        next in Repr && next.Repr <= Repr && this !in next.Repr &&
        Repr == {this} + next.Repr && next.Valid())
    }

    /** The path this list denotes. */
    ghost function Path(): (p: Path)
      reads this, Repr
      requires Valid()
      ensures |p| >= 1 && p[0] == Seg(name, SubOf(a))
      ensures next == null ==> p == [Seg(name, SubOf(a))]
      decreases Repr
    {
      [Seg(name, SubOf(a))] + (if next == null then [] else next.Path())
    }

    /** The subscript objects the nodes of this list hold. */
    ghost function SubObjects(): set<object>
      reads this, Repr
      requires Valid()
      decreases Repr
    {
      ArraySet(a) + (if next == null then {} else next.SubObjects())
    }

    constructor (s: string, arr: Array?)
      ensures Valid() && name == s && a == arr && next == null
      ensures Repr == {this} && Path() == [Seg(s, SubOf(arr))]
    {
      name := s;
      a := arr;
      next := null;
      Repr := {this};
    }

    /** `isEqual`: same names, same subscript presence and contents, and the
        same rest, segment by segment. */
    function IsEqual(id: ActId?): (r: bool)
      reads this, Repr, id, if id == null then {} else id.Repr
      requires Valid() && (id != null ==> id.Valid())
      ensures r <==> id != null && Path() == id.Path()
      decreases Repr
    {
      if id == null then false
      else if id.name != name then false
      else if id.a != null && a == null then false
      else if id.a == null && a != null then false
      else if a != null && a.dims != id.a.dims then false
      else if id.next != null && next == null then false
      else if id.next == null && next != null then false
      else if next != null then
        (ConsEqual(Seg(name, SubOf(a)), next.Path(), id.next.Path());
         next.IsEqual(id.next))
      else true
    }

    /** `Clone`: a deep copy, with fresh nodes and fresh subscripts. */
    method Clone() returns (r: ActId)
      requires Valid()
      ensures r.Valid() && fresh(r.Repr)
      ensures fresh(r.SubObjects())
      ensures r.Path() == old(Path())
      decreases Repr
    {
      ghost var p := Path();
      ghost var x := Seg(name, SubOf(a));
      ghost var q: Path := if next == null then [] else next.Path();
      assert p == [x] + q;
      var aclone := CloneSub(a);
      r := new ActId(name, aclone);
      if next != null {
        var nc := next.Clone();
        r.Link(nc);
      }
    }

    /** `Append` on the last node of a list: the appended list becomes its rest.
        Appending to a node that already has a rest is an internal error. */
    method Append(id: ActId) returns (r: Result<()>)
      requires Valid() && id.Valid() && Repr !! id.Repr
      modifies this
      ensures old(next) != null ==> r.Err? && next == old(next) && Repr == old(Repr)
      ensures old(next) == null ==> r.Ok? && next == id && Repr == old(Repr) + id.Repr
      ensures old(next) == null ==> Valid() && Path() == old(Path()) + id.Path()
      ensures name == old(name) && a == old(a)
    {
      if next != null {
        return Err(Internal("ActId::Append() called with non-NULL next field"));
      }
      Link(id);
      r := Ok(());
    }

    /** Makes `id` the rest of this one-node list. */
    method Link(id: ActId)
      requires Valid() && next == null && id.Valid() && Repr !! id.Repr
      modifies this
      ensures Valid() && next == id && Repr == old(Repr) + id.Repr
      ensures Path() == old(Path()) + id.Path()
      ensures SubObjects() == ArraySet(a) + id.SubObjects()
      ensures name == old(name) && a == old(a)
    {
      next := id;
      Repr := Repr + id.Repr;
    }

    /** `Tail`: the last node of the list. */
    method Tail() returns (r: ActId)
      requires Valid()
      ensures r.Valid() && r.next == null && r in Repr
      ensures r.Path() == [Path()[|Path()| - 1]]
    {
      ghost var p := Path();
      r := this;
      ghost var j := 0;
      while r.next != null
        invariant 0 <= j < |p| && r.Valid() && r in r.Repr && r.Repr <= Repr && r.Path() == p[j..]
        decreases |p| - j
      {
        assert r.Path()[1..] == r.next.Path();
        r := r.next;
        j := j + 1;
      }
    }

    /** `isRange`: some segment carries a subscript that is not a plain dereference. */
    method IsRange() returns (r: bool)
      requires Valid()
      ensures r <==> HasRange(Path())
    {
      ghost var p, nodes := Path(), Nodes();
      NodesChain();
      var id: ActId? := this;
      ghost var j := 0;
      while id != null
        invariant 0 <= j <= |p|
        invariant id != null ==> j < |p| && id == nodes[j]
        invariant id == null ==> j == |p|
        invariant forall k :: 0 <= k < j ==> !RangeSeg(p[k])
        decreases |p| - j
      {
        ChainAt(nodes, p, j);
        if id.a != null && !IsDeref(id.a.dims) {
          assert RangeSeg(p[j]) && HasRange(p);
          return true;
        }
        assert !RangeSeg(p[j]);
        id := id.next;
        j := j + 1;
      }
      return false;
    }

    /** `isNamespace`: scans the first name for a `:`. */
    method IsNamespace() returns (r: Result<bool>)
      requires Valid()
      ensures r == NamespaceCheck(Path())
    {
      var i := 0;
      while i < |name| && name[i] != ':'
        invariant 0 <= i <= |name| && ':' !in name[..i]
      {
        i := i + 1;
      }
      if i < |name| {
        if next == null {
          return Err(Internal("Namespace prefix in ID must have an actual ID name"));
        }
        if a != null {
          return Err(Internal("Namespace prefix should not have an array"));
        }
        return Ok(true);
      }
      assert name[..i] == name;
      return Ok(false);
    }

    /** `isDynamicDeref`. */
    method IsDynamicDeref() returns (r: Result<int>)
      requires Valid()
      ensures r == DynamicCheck(Path())
    {
      ghost var p, nodes := Path(), Nodes();
      NodesChain();
      var ret := 0;
      if a != null && Arrays.IsDynamicDeref(a.dims) {
        ret := 1;
      }
      var id := next;
      ghost var j := 1;
      if |p| > 1 {
        assert id == nodes[1];
      }
      while id != null
        invariant Valid() && Path() == p
        invariant 1 <= j <= |p|
        invariant id != null ==> j < |p| && id == nodes[j]
        invariant id == null ==> j == |p|
        invariant forall k :: 1 <= k < j ==> !DynamicSeg(p[k])
        decreases |p| - j
      {
        ChainAt(nodes, p, j);
        if id.a != null && Arrays.IsDynamicDeref(id.a.dims) {
          DynamicLater(p, j);
          return Err(Fatal("Only simple (first-level) dynamic derefs are supported"));
        }
        CleanStep(p, j);
        id := id.next;
        j := j + 1;
      }
      DynamicFirst(p, ret);
      return Ok(ret);
    }

    /** The nodes of the list, in order. */
    ghost function Nodes(): (ns: seq<ActId>)
      reads this, Repr
      requires Valid()
      ensures |ns| == |Path()| && ns[0] == this
      ensures forall i :: 0 <= i < |ns| ==> ns[i] in Repr
      decreases Repr
    {
      [this] + (if next == null then [] else next.Nodes())
    }

    /** The nodes carry the segments of the path and link to each other in
        order, and the first one does not come back. */
    lemma {:induction false} NodesChain()
      requires Valid()
      ensures Chain(Nodes(), Path())
      ensures forall i :: 1 <= i < |Nodes()| ==> Nodes()[i] != this
      decreases Repr
    {
      if next != null {
        next.NodesChain();
        var ns, q := Nodes(), Path();
        assert ns == [this] + next.Nodes() && q == [Seg(name, SubOf(a))] + next.Path();
        forall i | 1 <= i < |ns| ensures ns[i] == next.Nodes()[i - 1] && q[i] == next.Path()[i - 1] {
        }
      }
    }

    /** `end` is not among the first `PrefixLen(end)` nodes, and is the next one
        when there is one. */
    lemma {:induction false} PrefixLenAt(end: ActId?)
      requires Valid()
      ensures forall i :: 0 <= i < PrefixLen(end) ==> Nodes()[i] != end
      ensures PrefixLen(end) < |Path()| ==> Nodes()[PrefixLen(end)] == end
      decreases Repr
    {
      if this != end && next != null {
        next.PrefixLenAt(end);
        var ns := Nodes();
        assert ns == [this] + next.Nodes();
        forall i | 1 <= i < |ns| ensures ns[i] == next.Nodes()[i - 1] {
        }
      }
    }

    /** The number of nodes from this one up to, not including, `end`
        (all of them when `end` is not on the list). */
    ghost function PrefixLen(end: ActId?): (n: nat)
      reads this, Repr
      requires Valid()
      ensures n <= |Path()|
      decreases Repr
    {
      if this == end then 0 else if next == null then 1 else 1 + next.PrefixLen(end)
    }

    lemma {:induction false} PrefixLenNull()
      requires Valid()
      ensures PrefixLen(null) == |Path()|
      decreases Repr
    {
      if next != null {
        next.PrefixLenNull();
      }
    }

    /** `sPrint`: the namespace check first, then the loop.  A namespace
        prefix is glued to the name after it; a malformed prefix is an error
        and the buffer is left alone. */
    method SPrint(buf: array<char>, sz: int, end: ActId?) returns (r: Result<()>)
      requires Valid() && buf !in Repr && 1 <= sz <= buf.Length
      requires NoNul(SegTexts(Path()))
      modifies buf
      ensures old(NamespaceCheck(Path())).Err? ==>
        r == Err(old(NamespaceCheck(Path())).error) && buf[..] == old(buf[..])
      ensures old(NamespaceCheck(Path())).Ok? ==> r.Ok?
      ensures old(NamespaceCheck(Path())).Ok? ==>
        Printout(buf, old(buf[..]), old(SegTexts(Path())), old(PrefixLen(end)), old(NamespaceCheck(Path())).value, sz)
    {
      var ns := IsNamespace();
      if ns.Err? {
        return Err(ns.error);
      }
      PrintSegs(buf, sz, end, ns.value);
      r := Ok(());
    }

    /** `Print`: `sPrint` into a fresh buffer of `PrintBufSize` characters
        whose first character is NUL, then the C string it holds. */
    method Print(end: ActId?) returns (r: Result<string>)
      requires Valid() && NoNul(SegTexts(Path()))
      ensures old(NamespaceCheck(Path())).Err? ==> r == Err(old(NamespaceCheck(Path())).error)
      ensures old(NamespaceCheck(Path())).Ok? ==>
        r == Ok(Truncate(Layout(old(SegTexts(Path())), old(PrefixLen(end)), old(NamespaceCheck(Path())).value), PrintBufSize - 1))
    {
      ghost var p, n := Path(), PrefixLen(end);
      ghost var ts, nc := SegTexts(p), NamespaceCheck(p);
      var buf := NulBuffer();
      ghost var b0 := buf[..];
      assert Valid() && Path() == p && PrefixLen(end) == n;
      var res := SPrint(buf, PrintBufSize, end);
      if res.Err? {
        return Err(res.error);
      }
      PrintoutCStr(buf, b0, ts, n, nc.value, PrintBufSize);
      var s := CString(buf);
      r := Ok(s);
    }

    /** The older `Print` (`act/id.cc`), whose `sPrint` has no namespace rule:
        the segments up to `end` laid out with no namespace rule, which
        `LayoutIsJoin` shows is joining them with `.`, as far as the buffer of
        `PrintBufSize` characters allows. */
    method OldPrint(end: ActId?) returns (s: string)
      requires Valid() && NoNul(SegTexts(Path()))
      ensures s == Truncate(Layout(old(SegTexts(Path())), old(PrefixLen(end)), false), PrintBufSize - 1)
    {
      ghost var p, n := Path(), PrefixLen(end);
      ghost var ts := SegTexts(p);
      var buf := NulBuffer();
      ghost var b0 := buf[..];
      assert Valid() && Path() == p && PrefixLen(end) == n;
      PrintSegs(buf, PrintBufSize, end, false);
      PrintoutCStr(buf, b0, ts, n, false, PrintBufSize);
      s := CString(buf);
    }

    /** The loop of `sPrint`: the segments up to `end`, with separators, as
        far as `sz` bytes allow. */
    method PrintSegs(buf: array<char>, sz: int, end: ActId?, ns: bool)
      requires Valid() && buf !in Repr && 1 <= sz <= buf.Length
      requires NoNul(SegTexts(Path()))
      modifies buf
      ensures Printout(buf, old(buf[..]), old(SegTexts(Path())), old(PrefixLen(end)), ns, sz)
    {
      NodesChain();
      PrefixLenAt(end);
      PrintLoop(buf, sz, end, ns, Nodes(), Path(), PrefixLen(end));
    }

    /** The nodes `nodes` of this list carry `p`, only the first is this
      one, and `end` is node `n` (or beyond the list when `n == |p|`). */
    ghost predicate PrintFrame(nodes: seq<ActId>, p: Path, n: nat, end: ActId?)
      reads nodes
    {
      n <= |p| && Chain(nodes, p) && nodes[0] == this &&
      (forall i :: 1 <= i < |nodes| ==> nodes[i] != this) &&
      (forall i :: 0 <= i < n ==> nodes[i] != end) &&
      (n < |p| ==> nodes[n] == end)
    }

    /** The `sPrint` loop stops at node `n`. */
    lemma PrintExit(nodes: seq<ActId>, p: Path, n: nat, end: ActId?, j: nat, start: ActId?)
      requires PrintFrame(nodes, p, n, end) && j <= n
      requires start == if j < |p| then nodes[j] else null
      requires start == null || start == end
      ensures j == n
    {
      if j < |p| {
        WalkStop(nodes, this, end, n, j);
      }
    }

    /** The `while` loop of `sPrint`, over the nodes `nodes` of the list, which
        carry the segments of `p`; `end` is the `n`-th node, or absent. */
    method PrintLoop(buf: array<char>, sz: int, end: ActId?, ns: bool,
                     ghost nodes: seq<ActId>, ghost p: Path, ghost n: nat)
      requires 1 <= sz <= buf.Length && NoNul(SegTexts(p)) && PrintFrame(nodes, p, n, end)
      modifies buf
      ensures Printout(buf, old(buf[..]), SegTexts(p), n, ns, sz)
    {
      ghost var old0 := buf[..];
      var start: ActId? := this;
      var k: nat := 0;
      var rem := sz;
      var nsf := ns;
      ghost var j: nat := 0;
      while start != null && start != end
        invariant 0 <= j <= n && j <= |p|
        invariant start == if j < |p| then nodes[j] else null
        invariant Turns(buf, old0, SegTexts(p), ns, sz, j, k, rem, nsf)
        decreases |p| - j
      {
        var stop;
        k, rem, nsf, stop, start := PrintAt(buf, sz, start, end, ns, nodes, p, n, j, k, rem, nsf, old0);
        if stop {
          return;
        }
        j := j + 1;
      }
      PrintExit(nodes, p, n, end, j, start);
      TurnsDone(buf, old0, SegTexts(p), ns, sz, n, k, rem, nsf);
    }

    /** One turn of the `sPrint` loop, at node `j`: print it and move on. */
    method PrintAt(buf: array<char>, sz: int, start: ActId, end: ActId?, ns: bool,
                     ghost nodes: seq<ActId>, ghost p: Path, ghost n: nat, ghost j: nat,
                     k: nat, rem: int, nsf: bool, ghost old0: seq<char>)
      returns (k2: nat, rem2: int, nsf2: bool, stop: bool, start2: ActId?)
      requires 1 <= sz <= buf.Length && NoNul(SegTexts(p)) && PrintFrame(nodes, p, n, end)
      requires j <= n && j < |p| && start == nodes[j] && start != end
      requires Turns(buf, old0, SegTexts(p), ns, sz, j, k, rem, nsf)
      modifies buf
      ensures stop ==> Printout(buf, old0, SegTexts(p), n, ns, sz)
      ensures !stop ==> j + 1 <= n && Turns(buf, old0, SegTexts(p), ns, sz, j + 1, k2, rem2, nsf2)
      ensures !stop ==> start2 == if j + 1 < |p| then nodes[j + 1] else null
    {
      ChainAt(nodes, p, j);
      WalkStop(nodes, this, end, n, j);
      assert n <= |p|;
      k2, rem2, nsf2, stop := start.PrintTurn(buf, sz, start == this, nsf, k, rem, p, j, n, ns, old0);
      start2 := start.next;
    }

    /** The body of the `sPrint` loop for this node, the `j`-th of `n`: its
        separator (none for the first node and none right after a namespace
        prefix), then its name and subscript. */
    method PrintTurn(buf: array<char>, sz: int, first: bool, nsf: bool, k: nat, rem: int,
                     ghost p: Path, ghost j: nat, ghost n: nat, ghost ns: bool, ghost old0: seq<char>)
      returns (k2: nat, rem2: int, nsf2: bool, stop: bool)
      requires j < n <= |p| && 1 <= sz <= buf.Length && first == (j == 0)
      requires Turns(buf, old0, SegTexts(p), ns, sz, j, k, rem, nsf)
      requires p[j] == Seg(name, SubOf(a)) && NoNul(SegTexts(p))
      modifies buf
      ensures stop ==> Printout(buf, old0, SegTexts(p), n, ns, sz)
      ensures !stop ==> Turns(buf, old0, SegTexts(p), ns, sz, j + 1, k2, rem2, nsf2)
    {
      ghost var ts := SegTexts(p);
      assert ts[j] == SegText(p[j]) by {
        SegTextsAt(p);
      }
      var sep := if !first && !nsf then "." else "";
      ghost var acc := Layout(ts, j, ns);
      ghost var R := Layout(ts, n, ns);
      assert acc + sep + ts[j] == Layout(ts, j + 1, ns);
      LayoutPrefix(ts, j + 1, n, ns);
      assert ts[j] == SegText(Seg(name, SubOf(a)));
      assert '\0' !in ts[j];
      assert '\0' !in sep;
      assert (k == 0 && buf[..] == old0 && |old0| == buf.Length) || Printed(buf, old0, acc);
      assert acc + sep + ts[j] <= R;
      assert 1 <= rem && k + rem <= buf.Length && |acc| == k && k + rem == sz - 1 + 1;
      k2, rem2, stop := PrintNode(buf, k, rem, sep, ts[j], acc, old0, R, sz - 1);
      nsf2 := if first then nsf else false;
      TurnEnd(buf, old0, ts, ns, sz, j, n, k, rem, nsf, sep, k2, rem2, nsf2, stop);
    }

    /** One turn of the `sPrint` loop: the separator `sep`, then the name,
        then the subscript, each followed by `PRINT_STEP`. */
    method PrintNode(buf: array<char>, k: nat, rem: int, sep: string, ghost t: string,
                     ghost acc: string, ghost old0: seq<char>, ghost R: string, ghost m: nat)
      returns (k2: nat, rem2: int, stop: bool)
      requires 1 <= rem && k + rem <= buf.Length && |acc| == k && k + rem == m + 1
      requires t == SegText(Seg(name, SubOf(a))) && '\0' !in sep && '\0' !in t
      requires (k == 0 && buf[..] == old0 && |old0| == buf.Length) || Printed(buf, old0, acc)
      requires acc + sep + t <= R
      modifies buf
      ensures stop ==> Printed(buf, old0, Truncate(R, m))
      ensures !stop ==> k2 == k + |sep| + |t| && rem2 == rem - |sep| - |t| && rem2 >= 2
      ensures !stop ==> Printed(buf, old0, acc + sep + t)
    {
      ghost var all := acc + sep + t;
      var sub := OptSubText(SubOf(a));
      assert all == acc + sep + name + sub;
      k2, rem2, stop := k, rem, false;
      ghost var done := acc;
      if sep != "" {
        PrefixTrans(acc + sep, all, R);
        k2, rem2, stop := PrintStep(buf, k2, rem2, sep, done, old0, R, m);
        if stop {
          return;
        }
        done := done + sep;
      }
      assert done == acc + sep;
      PrefixTrans(done + name, all, R);
      k2, rem2, stop := PrintStep(buf, k2, rem2, name, done, old0, R, m);
      if stop {
        return;
      }
      done := done + name;
      if a != null {
        k2, rem2, stop := PrintStep(buf, k2, rem2, sub, done, old0, R, m);
        if stop {
          return;
        }
        done := done + sub;
      }
      assert done == all;
    }

    /** Drops the subscript of the last node. */
    method ClearLastArray()
      requires Valid()
      modifies Repr
      ensures Valid() && Repr <= old(Repr)
      ensures Path() == DropLastSub(old(Path()))
      decreases Repr
    {
      if next == null {
        a := null;
        Repr := {this};
      } else {
        ghost var p := Path();
        ghost var q := next.Path();
        assert p == [Seg(name, SubOf(a))] + q;
        next.ClearLastArray();
        Repr := {this} + next.Repr;
        DropLastSubCons(Seg(name, SubOf(a)), q);
      }
    }

    /** `stripArray`: a fresh copy without the last segment's subscript. */
    method StripArray() returns (r: ActId)
      requires Valid()
      ensures r.Valid() && fresh(r.Repr) && r.Path() == DropLastSub(Path())
    {
      r := Clone();
      r.ClearLastArray();
    }
  }
}
