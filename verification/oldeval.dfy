/**
 * `ActId::Eval` of the older identifier module: evaluating an identifier
 * during expansion.  The identifier is looked up through the enclosing
 * scopes, walked segment by segment into the scopes of its user-defined
 * types (checking every subscript), and, when it names a parameter, its
 * value is read from the scope's value tables.  A parameter read as an
 * rvalue must be initialised, element by element.
 */
module OldEval {

  import opened Common
  import opened Arrays
  import opened UserTypes
  import opened Paths

  /*-------------------------------- scopes ----------------------------------*/

  /** A parameter's value slot (`ValueIdx`): whether it was bound, and the
      position of its first element in the scope's value tables. */
  datatype ValSlot = ValSlot(init: bool, idx: nat)

  /** The value tables of a scope, one per parameter kind; a position is set
      when the table holds it. */
  datatype Tables = Tables(
    pint: map<int, int>,
    pints: map<int, int>,
    pbool: map<int, bool>,
    preal: map<int, string>,
    ptype: map<int, InstType>)

  /** `issetPInt` and its siblings, chosen by the parameter kind. */
  predicate IsSet(tb: Tables, k: Kind, q: int) {
    match k
    case PInt => q in tb.pint
    case PInts => q in tb.pints
    case PBool => q in tb.pbool
    case PReal => q in tb.preal
    case PType => q in tb.ptype
    case _ => true
  }

  /** A scope: its instances and their types, the value slots of its
      parameters, its parent (-1 at the top) and its value tables. */
  datatype EScope = EScope(
    types: map<string, InstType>,
    vals: map<string, ValSlot>,
    parent: int,
    tables: Tables)

  /** All scopes, and the scope (`CurScope`) of each user-defined type. */
  datatype Env = Env(scopes: seq<EScope>, userScope: seq<nat>)

  /** Parents come before their children, and every type's scope exists. */
  predicate EnvOk(e: Env) {
    (forall s :: 0 <= s < |e.scopes| ==> -1 <= e.scopes[s].parent < s) &&
    (forall u :: 0 <= u < |e.userScope| ==> e.userScope[u] < |e.scopes|)
  }

  /** What `Eval` returns: the identifier itself with its type (`E_VAR`), a
      parameter value, or a whole array or subrange of a parameter array
      (`E_ARRAY`, `E_SUBRANGE`) by its value slot and scope. */
  datatype EvalExpr =
    | EVar(path: Path, t: InstType)
    | EInt(n: int)
    | ETrue
    | EFalse
    | EReal(text: string)
    | EType(ty: InstType)
    | EArray(slot: ValSlot, scope: nat)
    | ESubrange(slot: ValSlot, scope: nat, sub: seq<Dim>)

  /*----------------------------- specification ------------------------------*/

  /** The nearest scope from `s` outwards that declares `name`. */
  function Find(e: Env, s: int, name: string): (r: Option<nat>)
    requires EnvOk(e) && -1 <= s < |e.scopes|
    decreases s + 1
    ensures r.Some? ==> r.value <= s && name in e.scopes[r.value].types
  {
    if s == -1 then None
    else if name in e.scopes[s].types then Some(s)
    else Find(e, e.scopes[s].parent, name)
  }

  /** The conditions a segment of type `t` must meet: a subscript needs an
      array type and must lie inside it, and a segment followed by `.` must
      be a single element (an array dereferenced, or not an array). */
  predicate Checked(seg: Seg, t: InstType, last: bool) {
    (seg.sub.Some? ==>
       t.arr.Some? && ValidSub(t.arr.value, seg.sub.value) && (last || IsDeref(seg.sub.value))) &&
    (!last && t.arr.Some? ==> seg.sub.Some?)
  }

  /** The type `name` has in scope `s`, if any (`Scope::Lookup`). */
  function TypeIn(e: Env, s: nat, name: string): Option<InstType>
    requires s < |e.scopes|
  {
    if name in e.scopes[s].types then Some(e.scopes[s].types[name]) else None
  }

  /** The message for an array followed by `.` without a subscript. */
  function MissingDeref(name: string): string {
    "Missing array dereference for ``" + name + "''."
  }

  /** The walk from segment `j`, in scope `s`, with `t` the type looked up
      for that segment: the scope and type of the last segment.  The checks
      fail in the order the compiler makes them. */
  function Walk(e: Env, p: Path, j: nat, s: nat, t: Option<InstType>): (r: Result<(nat, InstType)>)
    requires EnvOk(e) && j < |p| && s < |e.scopes|
    requires t == TypeIn(e, s, p[j].name)
    decreases |p| - j
    ensures r.Ok? ==> r.value.0 < |e.scopes| && TypeIn(e, r.value.0, p[|p| - 1].name) == Some(r.value.1)
    ensures r.Ok? ==> Checked(p[|p| - 1], r.value.1, true)
    ensures r.Ok? ==> t.Some? && Checked(p[j], t.value, j + 1 == |p|)
    ensures t.Some? && !Checked(p[j], t.value, j + 1 == |p|) ==> r.Err? && r.error.Fatal?
  {
    if t.None? then Err(Internal("instance not found in the type's scope"))
    else
      var it := t.value;
      var id := p[j];
      var rest := j + 1 < |p|;
      if id.sub.Some? && it.arr.None? then
        Err(Fatal("Array de-reference without array type."))
      else if it.arr.Some? && id.sub.None? && rest then
        Err(Fatal(MissingDeref(id.name)))
      else if id.sub.Some? && !IsDeref(id.sub.value) && rest then
        Err(Fatal("Using `.' for an array, not an array de-reference"))
      else if id.sub.Some? && !ValidSub(it.arr.value, id.sub.value) then
        Err(Fatal("Dereference out of range"))
      else if !rest then
        Ok((s, it))
      else if !it.base.User? || it.base.ud >= |e.userScope| then
        Err(Internal("not a user-defined type"))
      else
        var s' := e.userScope[it.base.ud];
        Walk(e, p, j + 1, s', TypeIn(e, s', p[j + 1].name))
  }

  /** Every position in `[base, base + n)` is set. */
  predicate AllSet(tb: Tables, k: Kind, base: int, n: nat) {
    forall q :: base <= q < base + n ==> IsSet(tb, k, q)
  }

  /** Every element of the subrange `dims` of an array declared `decl`,
      whose first element is at `base`, is set. */
  predicate SubAllSet(tb: Tables, k: Kind, base: int, decl: seq<Bound>, dims: seq<Dim>)
    requires |dims| == |decl| && AllFixed(dims)
  {
    forall i :: 0 <= i < SubSize(dims) ==>
      IsSet(tb, k, base + Offset(decl, UnOffset(SubBox(dims), i)))
  }

  /** The value at position `q` of the table for kind `k`. */
  function ValueAt(tb: Tables, k: Kind, q: int): EvalExpr
    requires IsParamKind(k) && IsSet(tb, k, q)
  {
    if k.PInt? then EInt(tb.pint[q])
    else if k.PInts? then EInt(tb.pints[q])
    else if k.PBool? then (if tb.pbool[q] then ETrue else EFalse)
    else if k.PReal? then EReal(tb.preal[q])
    else EType(tb.ptype[q])
  }

  /** The element offset of the last segment: 0 unless it subscripts an array. */
  function OffsetOf(it: InstType, seg: Seg): int {
    if it.arr.Some? && seg.sub.Some? then SubOffset(it.arr.value, seg.sub.value) else 0
  }

  /** The part of `Eval` after the walk: the last segment is in scope `s`
      with type `it`. */
  function Finish(e: Env, p: Path, s: nat, it: InstType, lval: bool): Result<EvalExpr>
    requires |p| > 0 && s < |e.scopes|
  {
    var id := p[|p| - 1];
    var sc := e.scopes[s];
    if !IsParamKind(it.base) then Ok(EVar(p, it))
    else if id.name !in sc.vals then Err(Internal("parameter without a value slot"))
    else
      var vx := sc.vals[id.name];
      var offset := OffsetOf(it, id);
      if !vx.init && !lval then Err(Fatal("Uninitialized identifier"))
      else if offset == -1 then Err(Fatal("Index is out of range"))
      else if lval then Ok(EVar(p, it))
      else if it.arr.Some? && id.sub.None? then
        if AllSet(sc.tables, it.base, vx.idx, Size(it.arr.value)) then Ok(EArray(vx, s))
        else Err(Fatal("Array has an uninitialized element"))
      else if it.arr.Some? && !IsDeref(id.sub.value) then
        if SubAllSet(sc.tables, it.base, vx.idx, it.arr.value, id.sub.value) then Ok(ESubrange(vx, s, id.sub.value))
        else Err(Fatal("Array has an uninitialized element"))
      else if !IsSet(sc.tables, it.base, vx.idx + offset) then Err(Fatal("Uninitialized value"))
      else Ok(ValueAt(sc.tables, it.base, vx.idx + offset))
  }

  /** `ActId::Eval` of identifier `p` in scope `s`. */
  function EvalOf(e: Env, p: Path, s: nat, lval: bool): Result<EvalExpr>
    requires EnvOk(e) && |p| > 0 && s < |e.scopes|
  {
    match Find(e, s, p[0].name)
    case None => Err(Fatal("Not found. Should have been caught earlier..."))
    case Some(s0) =>
      match Walk(e, p, 0, s0, TypeIn(e, s0, p[0].name))
      case Err(err) => Err(err)
      case Ok(w) => Finish(e, p, w.0, w.1, lval)
  }

  /*------------------------------ what it means -----------------------------*/

  /** Position `q` (relative to the slot) holds an element the last segment
      denotes: the scalar itself, any element of a whole array, or an
      element inside the subscript's box. */
  predicate Member(it: InstType, seg: Seg, q: int)
    requires Checked(seg, it, true)
  {
    if it.arr.None? then q == 0
    else
      0 <= q < Size(it.arr.value) &&
      (seg.sub.None? || InBox(SubBox(seg.sub.value), UnOffset(it.arr.value, q)))
  }

  /** An rvalue can be read: the slot is initialised and every element the
      identifier denotes is set. */
  ghost predicate Readable(sc: EScope, it: InstType, seg: Seg)
    requires Checked(seg, it, true) && seg.name in sc.vals
  {
    sc.vals[seg.name].init &&
    forall q :: Member(it, seg, q) ==> IsSet(sc.tables, it.base, sc.vals[seg.name].idx + q)
  }

  /*-------------------------------- lemmas ----------------------------------*/

  /** Every index in a validated subscript's box is set, where the
      declaration places it. */
  ghost predicate BoxSet(tb: Tables, k: Kind, base: int, decl: seq<Bound>, dims: seq<Dim>)
    requires ValidSub(decl, dims)
  {
    forall idx :: |idx| == |dims| && InBox(SubBox(dims), idx) ==> IsSet(tb, k, base + Offset(decl, idx))
  }

  /** A subrange check over the box's own positions visits exactly the
      elements of the subrange. */
  lemma SubAllSetMeansEveryElement(tb: Tables, k: Kind, base: int, decl: seq<Bound>, dims: seq<Dim>)
    requires ValidSub(decl, dims)
    ensures SubAllSet(tb, k, base, decl, dims) <==> BoxSet(tb, k, base, decl, dims)
  {
    if SubAllSet(tb, k, base, decl, dims) {
      BoxSetOfSubAllSet(tb, k, base, decl, dims);
    } else {
      NotBoxSet(tb, k, base, decl, dims);
    }
  }

  lemma BoxSetOfSubAllSet(tb: Tables, k: Kind, base: int, decl: seq<Bound>, dims: seq<Dim>)
    requires ValidSub(decl, dims) && SubAllSet(tb, k, base, decl, dims)
    ensures BoxSet(tb, k, base, decl, dims)
  {
    forall idx | |idx| == |dims| && InBox(SubBox(dims), idx)
      ensures IsSet(tb, k, base + Offset(decl, idx))
    {
      BoxElementSet(tb, k, base, decl, dims, idx);
    }
  }

  lemma BoxElementSet(tb: Tables, k: Kind, base: int, decl: seq<Bound>, dims: seq<Dim>, idx: seq<int>)
    requires ValidSub(decl, dims) && SubAllSet(tb, k, base, decl, dims)
    requires |idx| == |dims| && InBox(SubBox(dims), idx)
    ensures IsSet(tb, k, base + Offset(decl, idx))
  {
    var box := SubBox(dims);
    UnOffsetOfOffset(box, idx);
    var i := Offset(box, idx);
    assert UnOffset(box, i) == idx;
  }

  lemma NotBoxSet(tb: Tables, k: Kind, base: int, decl: seq<Bound>, dims: seq<Dim>)
    requires ValidSub(decl, dims) && !SubAllSet(tb, k, base, decl, dims)
    ensures !BoxSet(tb, k, base, decl, dims)
  {
    var box := SubBox(dims);
    var i :| 0 <= i < SubSize(dims) && !IsSet(tb, k, base + Offset(decl, UnOffset(box, i)));
    OffsetOfUnOffset(box, i);
  }

  /** Read through a declaration, the elements of a subscript's box are the
      positions whose index falls in the box. */
  lemma MemberOfSub(tb: Tables, base: int, it: InstType, seg: Seg)
    requires Checked(seg, it, true) && it.arr.Some? && seg.sub.Some?
    ensures BoxSet(tb, it.base, base, it.arr.value, seg.sub.value) <==>
      (forall q :: Member(it, seg, q) ==> IsSet(tb, it.base, base + q))
  {
    var decl := it.arr.value;
    var dims := seg.sub.value;
    var box := SubBox(dims);
    var k := it.base;
    if BoxSet(tb, k, base, decl, dims) {
      forall q | Member(it, seg, q)
        ensures IsSet(tb, k, base + q)
      {
        OffsetOfUnOffset(decl, q);
        assert IsSet(tb, k, base + Offset(decl, UnOffset(decl, q)));
      }
    } else {
      var idx :| |idx| == |dims| && InBox(box, idx) && !IsSet(tb, k, base + Offset(decl, idx));
      SubBoxInside(decl, dims, idx);
      UnOffsetOfOffset(decl, idx);
      var q := Offset(decl, idx);
      assert Member(it, seg, q);
    }
  }

  /** A dereference's box holds exactly one index: its own. */
  lemma DerefBox(decl: seq<Bound>, dims: seq<Dim>, q: int)
    requires ValidSub(decl, dims) && IsDeref(dims) && 0 <= q < Size(decl)
    ensures InBox(SubBox(dims), UnOffset(decl, q)) <==> q == SubOffset(decl, dims)
  {
    var box := SubBox(dims);
    var c := Corner(dims);
    assert InBox(decl, c);
    UnOffsetOfOffset(decl, c);
    if InBox(box, UnOffset(decl, q)) {
      var u := UnOffset(decl, q);
      assert u == c by {
        forall k | 0 <= k < |c| ensures u[k] == c[k] {
          assert box[k] == Bound(Low(dims[k]), High(dims[k]));
        }
      }
      OffsetOfUnOffset(decl, q);
    } else {
      assert q != Offset(decl, c) by {
        assert InBox(box, c) by {
          forall k | 0 <= k < |c| ensures box[k].lo <= c[k] <= box[k].hi {
            assert box[k] == Bound(Low(dims[k]), High(dims[k]));
          }
        }
      }
    }
  }

  /** Reading a scalar parameter: its slot initialised and set. */
  lemma ReadScalar(sc: EScope, it: InstType, seg: Seg)
    requires Checked(seg, it, true) && seg.name in sc.vals && it.arr.None?
    ensures Readable(sc, it, seg) <==>
      sc.vals[seg.name].init && IsSet(sc.tables, it.base, sc.vals[seg.name].idx + 0)
  {
    assert Member(it, seg, 0);
  }

  /** Reading a whole parameter array: every one of its positions set. */
  lemma ReadWhole(sc: EScope, it: InstType, seg: Seg)
    requires Checked(seg, it, true) && seg.name in sc.vals && it.arr.Some? && seg.sub.None?
    ensures Readable(sc, it, seg) <==>
      sc.vals[seg.name].init && AllSet(sc.tables, it.base, sc.vals[seg.name].idx, Size(it.arr.value))
  {
    var vx := sc.vals[seg.name];
    var n := Size(it.arr.value);
    if AllSet(sc.tables, it.base, vx.idx, n) {
      forall q | Member(it, seg, q) ensures IsSet(sc.tables, it.base, vx.idx + q) {
        assert vx.idx <= vx.idx + q < vx.idx + n;
      }
    } else {
      var q :| vx.idx <= q < vx.idx + n && !IsSet(sc.tables, it.base, q);
      assert Member(it, seg, q - vx.idx);
    }
  }

  /** Reading a subrange: every element of its box set, where the
      declaration places it. */
  lemma ReadSub(sc: EScope, it: InstType, seg: Seg)
    requires Checked(seg, it, true) && seg.name in sc.vals && it.arr.Some? && seg.sub.Some?
    ensures Readable(sc, it, seg) <==>
      sc.vals[seg.name].init && SubAllSet(sc.tables, it.base, sc.vals[seg.name].idx, it.arr.value, seg.sub.value)
  {
    var vx := sc.vals[seg.name];
    SubAllSetMeansEveryElement(sc.tables, it.base, vx.idx, it.arr.value, seg.sub.value);
    MemberOfSub(sc.tables, vx.idx, it, seg);
  }

  /** Reading one element of a parameter array: that element set. */
  lemma ReadDeref(sc: EScope, it: InstType, seg: Seg)
    requires Checked(seg, it, true) && seg.name in sc.vals && it.arr.Some? && seg.sub.Some?
    requires IsDeref(seg.sub.value)
    ensures Readable(sc, it, seg) <==>
      sc.vals[seg.name].init &&
      IsSet(sc.tables, it.base, sc.vals[seg.name].idx + SubOffset(it.arr.value, seg.sub.value))
  {
    var decl, dims, vx := it.arr.value, seg.sub.value, sc.vals[seg.name];
    var off := SubOffset(decl, dims);
    DerefBox(decl, dims, off);
    assert Member(it, seg, off);
    if vx.init && IsSet(sc.tables, it.base, vx.idx + off) {
      forall q | Member(it, seg, q) ensures IsSet(sc.tables, it.base, vx.idx + q) {
        DerefBox(decl, dims, q);
      }
    }
  }

  /** After a successful walk, a parameter is read as an rvalue exactly when
      it is readable. */
  lemma FinishReadable(e: Env, p: Path, s: nat, it: InstType)
    requires |p| > 0 && s < |e.scopes| && Checked(p[|p| - 1], it, true)
    requires IsParamKind(it.base) && p[|p| - 1].name in e.scopes[s].vals
    ensures Finish(e, p, s, it, false).Ok? <==> Readable(e.scopes[s], it, p[|p| - 1])
  {
    var sc := e.scopes[s];
    var seg := p[|p| - 1];
    if it.arr.None? {
      ReadScalar(sc, it, seg);
    } else if seg.sub.None? {
      ReadWhole(sc, it, seg);
    } else if !IsDeref(seg.sub.value) {
      ReadSub(sc, it, seg);
    } else {
      ReadDeref(sc, it, seg);
    }
  }

  /** An rvalue is read exactly when it is readable: the slot initialised,
      and every element the identifier denotes set. */
  lemma EvalRvalReadable(e: Env, p: Path, s: nat)
    requires EnvOk(e) && |p| > 0 && s < |e.scopes|
    requires Find(e, s, p[0].name).Some?
    requires var s0 := Find(e, s, p[0].name).value;
      Walk(e, p, 0, s0, TypeIn(e, s0, p[0].name)).Ok?
    ensures var s0 := Find(e, s, p[0].name).value;
      var w := Walk(e, p, 0, s0, TypeIn(e, s0, p[0].name)).value;
      var seg := p[|p| - 1];
      IsParamKind(w.1.base) && seg.name in e.scopes[w.0].vals ==>
        (EvalOf(e, p, s, false).Ok? <==> Readable(e.scopes[w.0], w.1, seg))
  {
    var s0 := Find(e, s, p[0].name).value;
    var w := Walk(e, p, 0, s0, TypeIn(e, s0, p[0].name)).value;
    if IsParamKind(w.1.base) && p[|p| - 1].name in e.scopes[w.0].vals {
      FinishReadable(e, p, w.0, w.1);
    }
  }

  /** Evaluated as an lvalue, an identifier that is found is itself, with the
      type of its last segment; the initialisation of a parameter does not
      matter. */
  lemma {:induction false} EvalLvalIsVar(e: Env, p: Path, s: nat)
    requires EnvOk(e) && |p| > 0 && s < |e.scopes|
    ensures EvalOf(e, p, s, true).Ok? ==> EvalOf(e, p, s, true).value.EVar? && EvalOf(e, p, s, true).value.path == p
    ensures EvalOf(e, p, s, false).Ok? ==> EvalOf(e, p, s, true).Ok?
  {
    match Find(e, s, p[0].name)
    case None =>
    case Some(s0) =>
      match Walk(e, p, 0, s0, TypeIn(e, s0, p[0].name))
      case Err(_) =>
      case Ok(w) =>
        var seg := p[|p| - 1];
        if IsParamKind(w.1.base) && seg.name in e.scopes[w.0].vals {
          assert OffsetOf(w.1, seg) != -1;
        }
  }

  /** The compiler's "Index is out of range" is never reached: the walk has
      already validated the subscript, and a validated subscript has an
      offset. */
  lemma {:induction false} EvalIndexInRange(e: Env, p: Path, s: nat, lval: bool)
    requires EnvOk(e) && |p| > 0 && s < |e.scopes|
    ensures EvalOf(e, p, s, lval) != Err(Fatal("Index is out of range"))
  {
    match Find(e, s, p[0].name)
    case None =>
    case Some(s0) =>
      match Walk(e, p, 0, s0, TypeIn(e, s0, p[0].name))
      case Err(err) =>
        assert err != Fatal("Index is out of range") by {
          WalkErrors(e, p, 0, s0, TypeIn(e, s0, p[0].name));
        }
      case Ok(w) =>
        assert OffsetOf(w.1, p[|p| - 1]) != -1;
  }

  /** The walk fails only with its own four messages, or internally. */
  lemma {:induction false} WalkErrors(e: Env, p: Path, j: nat, s: nat, t: Option<InstType>)
    requires EnvOk(e) && j < |p| && s < |e.scopes|
    requires t == TypeIn(e, s, p[j].name)
    decreases |p| - j
    ensures var r := Walk(e, p, j, s, t);
      r.Err? && r.error.Fatal? ==>
        r.error.msg == "Array de-reference without array type." ||
        r.error.msg == "Using `.' for an array, not an array de-reference" ||
        r.error.msg == "Dereference out of range" ||
        exists k :: j <= k < |p| && r.error.msg == MissingDeref(p[k].name)
  {
    var r := Walk(e, p, j, s, t);
    if t.Some? {
      var it := t.value;
      var id := p[j];
      var rest := j + 1 < |p|;
      if id.sub.Some? && it.arr.None? {
      } else if it.arr.Some? && id.sub.None? && rest {
        assert r.error.msg == MissingDeref(id.name);
      } else if id.sub.Some? && ((!IsDeref(id.sub.value) && rest) || !ValidSub(it.arr.value, id.sub.value)) {
      } else if rest && it.base.User? && it.base.ud < |e.userScope| {
        var s' := e.userScope[it.base.ud];
        assert r == Walk(e, p, j + 1, s', TypeIn(e, s', p[j + 1].name));
        WalkErrors(e, p, j + 1, s', TypeIn(e, s', p[j + 1].name));
      }
    }
  }

  /** A subscript on a non-array, an array followed by `.` without a
      dereference, or a subscript outside the array, is fatal whether the
      identifier is read or written. */
  lemma {:induction false} EvalFatalOnBadSegment(e: Env, p: Path, s: nat, lval: bool)
    requires EnvOk(e) && |p| > 0 && s < |e.scopes|
    requires Find(e, s, p[0].name).Some?
    ensures var s0 := Find(e, s, p[0].name).value;
      var t := TypeIn(e, s0, p[0].name).value;
      !Checked(p[0], t, |p| == 1) ==> EvalOf(e, p, s, lval).Err? && EvalOf(e, p, s, lval).error.Fatal?
  {
    var s0 := Find(e, s, p[0].name).value;
    assert TypeIn(e, s0, p[0].name).Some?;
  }

  /*------------------------------- the finding ------------------------------*/

  /** The subrange check as the compiler writes it: `size()` consecutive
      positions from the subrange's first element. */
  predicate AsWrittenSubAllSet(tb: Tables, k: Kind, base: int, decl: seq<Bound>, dims: seq<Dim>)
    requires AllFixed(dims)
  {
    AllSet(tb, k, base + SubOffset(decl, dims), SubSize(dims))
  }

  /** In a 3 x 3 array whose first four elements are set, the 2 x 2 subrange
      `[0..1][0..1]` passes the consecutive check although its element
      `[1][1]`, at position 4, is unset. */
  lemma AsWrittenSubAllSetMissesElement()
    ensures var decl := [Bound(0, 2), Bound(0, 2)];
      var dims := [Range(0, 1), Range(0, 1)];
      var tb := Tables(map[0 := 0, 1 := 0, 2 := 0, 3 := 0], map[], map[], map[], map[]);
      ValidSub(decl, dims) &&
      AsWrittenSubAllSet(tb, PInt, 0, decl, dims) && !SubAllSet(tb, PInt, 0, decl, dims)
  {
    var decl := [Bound(0, 2), Bound(0, 2)];
    var dims := [Range(0, 1), Range(0, 1)];
    var tb := Tables(map[0 := 0, 1 := 0, 2 := 0, 3 := 0], map[], map[], map[], map[]);
    var box := SubBox(dims);
    assert box == [Bound(0, 1), Bound(0, 1)];
    SmallBox();
    SmallDecl();
    assert Corner(dims) == [0, 0];
    assert !IsSet(tb, PInt, 0 + Offset(decl, UnOffset(box, 3)));
  }

  lemma SmallBox()
    ensures Size([Bound(0, 1), Bound(0, 1)]) == 4
    ensures UnOffset([Bound(0, 1), Bound(0, 1)], 3) == [1, 1]
  {
    var box := [Bound(0, 1), Bound(0, 1)];
    assert box[..1] == [Bound(0, 1)] && box[..1][..0] == [];
    assert Size(box[..1]) == 2;
  }

  lemma SmallDecl()
    ensures Offset([Bound(0, 2), Bound(0, 2)], [0, 0]) == 0
    ensures Offset([Bound(0, 2), Bound(0, 2)], [1, 1]) == 4
  {
    var decl := [Bound(0, 2), Bound(0, 2)];
    assert decl[..1] == [Bound(0, 2)] && decl[..1][..0] == [];
    assert [1, 1][..1] == [1] && [1][..0] == [];
    assert [0, 0][..1] == [0] && [0][..0] == [];
    assert InBox(decl, [0, 0]) && InBox(decl, [1, 1]);
    assert RowMajor(decl[..1], [0]) == 0;
    assert RowMajor(decl, [0, 0]) == 0;
  }

  /*------------------------------ the procedure -----------------------------*/

  /** The scope search loop of `Eval`. */
  method FindScope(e: Env, s: nat, name: string) returns (r: Option<nat>)
    requires EnvOk(e) && s < |e.scopes|
    ensures r == Find(e, s, name)
  {
    var cur: int := s;
    while cur != -1 && name !in e.scopes[cur].types
      invariant -1 <= cur < |e.scopes| && Find(e, cur, name) == Find(e, s, name)
      decreases cur + 1
    {
      cur := e.scopes[cur].parent;
    }
    r := if cur == -1 then None else Some(cur);
  }

  /** The walk loop of `Eval`, one segment per iteration. */
  method WalkIds(e: Env, p: Path, s0: nat) returns (r: Result<(nat, InstType)>)
    requires EnvOk(e) && |p| > 0 && s0 < |e.scopes|
    ensures r == Walk(e, p, 0, s0, TypeIn(e, s0, p[0].name))
  {
    var j: nat := 0;
    var s: nat := s0;
    var t := TypeIn(e, s0, p[0].name);
    while true
      invariant j < |p| && s < |e.scopes| && t == TypeIn(e, s, p[j].name)
      invariant Walk(e, p, j, s, t) == Walk(e, p, 0, s0, TypeIn(e, s0, p[0].name))
      decreases |p| - j
    {
      if t.None? {
        return Err(Internal("instance not found in the type's scope"));
      }
      var it := t.value;
      var id := p[j];
      var rest := j + 1 < |p|;
      if id.sub.Some? && it.arr.None? {
        return Err(Fatal("Array de-reference without array type."));
      }
      if it.arr.Some? && id.sub.None? && rest {
        return Err(Fatal(MissingDeref(id.name)));
      }
      if id.sub.Some? && !IsDeref(id.sub.value) && rest {
        return Err(Fatal("Using `.' for an array, not an array de-reference"));
      }
      if id.sub.Some? && !ValidSub(it.arr.value, id.sub.value) {
        return Err(Fatal("Dereference out of range"));
      }
      if !rest {
        return Ok((s, it));
      }
      if !it.base.User? || it.base.ud >= |e.userScope| {
        return Err(Internal("not a user-defined type"));
      }
      s := e.userScope[it.base.ud];
      j := j + 1;
      t := TypeIn(e, s, p[j].name);
    }
  }

  /** The loop over a whole parameter array: every element set. */
  method CheckRun(tb: Tables, k: Kind, base: int, n: nat) returns (ok: bool)
    ensures ok == AllSet(tb, k, base, n)
  {
    var i: nat := 0;
    while i < n
      invariant i <= n && AllSet(tb, k, base, i)
    {
      if !IsSet(tb, k, base + i) {
        return false;
      }
      i := i + 1;
    }
    return true;
  }

  /** The loop over a subrange, visiting each of its elements where the
      declaration places it. */
  method CheckSub(tb: Tables, k: Kind, base: int, decl: seq<Bound>, dims: seq<Dim>) returns (ok: bool)
    requires |dims| == |decl| && AllFixed(dims)
    ensures ok == SubAllSet(tb, k, base, decl, dims)
  {
    var box := SubBox(dims);
    var n := Size(box);
    var i: nat := 0;
    while i < n
      invariant i <= n
      invariant forall i' :: 0 <= i' < i ==> IsSet(tb, k, base + Offset(decl, UnOffset(box, i')))
    {
      if !IsSet(tb, k, base + Offset(decl, UnOffset(box, i))) {
        return false;
      }
      i := i + 1;
    }
    return true;
  }

  /** The parameter part of `Eval`. */
  method FinishParam(e: Env, p: Path, s: nat, it: InstType, lval: bool) returns (r: Result<EvalExpr>)
    requires |p| > 0 && s < |e.scopes|
    ensures r == Finish(e, p, s, it, lval)
  {
    var id := p[|p| - 1];
    var sc := e.scopes[s];
    if !IsParamKind(it.base) {
      return Ok(EVar(p, it));
    }
    if id.name !in sc.vals {
      return Err(Internal("parameter without a value slot"));
    }
    var vx := sc.vals[id.name];
    if !vx.init && !lval {
      return Err(Fatal("Uninitialized identifier"));
    }
    var offset := 0;
    if it.arr.Some? && id.sub.Some? {
      offset := SubOffset(it.arr.value, id.sub.value);
      if offset == -1 {
        return Err(Fatal("Index is out of range"));
      }
    }
    if lval {
      return Ok(EVar(p, it));
    }
    if it.arr.Some? && (id.sub.None? || !IsDeref(id.sub.value)) {
      var ok;
      if id.sub.None? {
        ok := CheckRun(sc.tables, it.base, vx.idx, Size(it.arr.value));
      } else {
        ok := CheckSub(sc.tables, it.base, vx.idx, it.arr.value, id.sub.value);
      }
      if !ok {
        return Err(Fatal("Array has an uninitialized element"));
      }
      if id.sub.None? {
        return Ok(EArray(vx, s));
      }
      return Ok(ESubrange(vx, s, id.sub.value));
    }
    if !IsSet(sc.tables, it.base, vx.idx + offset) {
      return Err(Fatal("Uninitialized value"));
    }
    return Ok(ValueAt(sc.tables, it.base, vx.idx + offset));
  }

  /** `ActId::Eval`: find, walk, then read. */
  method Eval(e: Env, p: Path, s: nat, lval: bool) returns (r: Result<EvalExpr>)
    requires EnvOk(e) && |p| > 0 && s < |e.scopes|
    ensures r == EvalOf(e, p, s, lval)
  {
    var s0 := FindScope(e, s, p[0].name);
    if s0.None? {
      return Err(Fatal("Not found. Should have been caught earlier..."));
    }
    var w := WalkIds(e, p, s0.value);
    if w.Err? {
      return Err(w.error);
    }
    r := FinishParam(e, p, w.value.0, w.value.1, lval);
  }
}
