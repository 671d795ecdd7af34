/**
 * Array subscripts and declared array shapes.  The `Array` class itself is
 * not part of this model; it is modelled abstractly: a subscript is a list of
 * dimensions, each a single index (a dereference) or a range, and an
 * expanded array declaration is a dense box of integer bounds, laid out in
 * row-major order.  `Offset` is -1 for an index outside the box.
 */
module Arrays {

  import opened Common

  /** An index expression: a constant, or one only known at run time. */
  datatype Expr = Const(n: int) | Dynamic(name: string)

  /** One dimension of a subscript: `[e]` or `[lo..hi]`. */
  datatype Dim = Index(e: Expr) | Range(lo: int, hi: int)

  /** A subscript object; it is never changed once built. */
  class Array {
    const dims: seq<Dim>

    constructor (ds: seq<Dim>)
      ensures dims == ds
    {
      dims := ds;
    }

    method Clone() returns (r: Array)
      ensures fresh(r) && r.dims == dims
    {
      r := new Array(dims);
    }
  }

  /** Every dimension is a single index. */
  predicate IsDeref(dims: seq<Dim>) {
    forall k :: 0 <= k < |dims| ==> dims[k].Index?
  }

  /** A dereference with at least one run-time index. */
  predicate IsDynamicDeref(dims: seq<Dim>) {
    IsDeref(dims) && exists k :: 0 <= k < |dims| && dims[k].e.Dynamic?
  }

  /** The constant indices of a dereference, if it has only constant ones. */
  function ConstIndices(dims: seq<Dim>): (r: Option<seq<int>>)
    ensures r.Some? <==> forall k :: 0 <= k < |dims| ==> dims[k].Index? && dims[k].e.Const?
    ensures r.Some? ==> |r.value| == |dims| && forall k :: 0 <= k < |dims| ==> r.value[k] == dims[k].e.n
  {
    if |dims| == 0 then Some([])
    else if !(dims[0].Index? && dims[0].e.Const?) then None
    else match ConstIndices(dims[1..]) {
      case None => None
      case Some(rest) => Some([dims[0].e.n] + rest)
    }
  }

  /*------------------------------ declarations ------------------------------*/

  /** One declared dimension `[lo..hi]`; a zero-length dimension has `hi == lo - 1`. */
  datatype Bound = Bound(lo: int, hi: int)

  function Extent(b: Bound): nat {
    if b.hi < b.lo then 0 else b.hi - b.lo + 1
  }

  /** The number of elements of a declared array. */
  function Size(decl: seq<Bound>): nat {
    if |decl| == 0 then 1 else Size(decl[..|decl| - 1]) * Extent(decl[|decl| - 1])
  }

  predicate InBox(decl: seq<Bound>, idx: seq<int>)
    requires |idx| == |decl|
  {
    forall k :: 0 <= k < |decl| ==> decl[k].lo <= idx[k] <= decl[k].hi
  }

  /** Row-major position of an in-range index. */
  function RowMajor(decl: seq<Bound>, idx: seq<int>): int
    requires |idx| == |decl|
  {
    if |decl| == 0 then 0
    else
      var n := |decl| - 1;
      RowMajor(decl[..n], idx[..n]) * Extent(decl[n]) + (idx[n] - decl[n].lo)
  }

  /** `Array::Offset`: the element's position, or -1 when the index is out of range. */
  function Offset(decl: seq<Bound>, idx: seq<int>): (r: int)
    requires |idx| == |decl|
    ensures r == -1 <==> !InBox(decl, idx)
    ensures r != -1 ==> 0 <= r < Size(decl)
  {
    if InBox(decl, idx) then
      RowMajorBounds(decl, idx);
      RowMajor(decl, idx)
    else -1
  }

  /** `Array::Validate`: the dereference names an element of the array. */
  predicate Validate(decl: seq<Bound>, idx: seq<int>)
    requires |idx| == |decl|
  {
    InBox(decl, idx)
  }

  lemma {:induction false} RowMajorBounds(decl: seq<Bound>, idx: seq<int>)
    requires |idx| == |decl| && InBox(decl, idx)
    ensures 0 <= RowMajor(decl, idx) < Size(decl)
  {
    if |decl| > 0 {
      var n := |decl| - 1;
      assert InBox(decl[..n], idx[..n]) by {
        forall k | 0 <= k < n ensures decl[..n][k].lo <= idx[..n][k] <= decl[..n][k].hi {
          assert decl[..n][k] == decl[k] && idx[..n][k] == idx[k];
        }
      }
      RowMajorBounds(decl[..n], idx[..n]);
      var p := RowMajor(decl[..n], idx[..n]);
      var e := Extent(decl[n]);
      var d := idx[n] - decl[n].lo;
      assert 0 <= d < e;
      assert p * e + d < (p + 1) * e;
      assert (p + 1) * e <= Size(decl[..n]) * e by {
        MulMonotone(p + 1, Size(decl[..n]), e);
      }
    }
  }

  lemma MulMonotone(a: int, b: int, e: nat)
    requires a <= b
    ensures a * e <= b * e
  {
  }

  /** The index at a given row-major position: the inverse of `Offset`. */
  function UnOffset(decl: seq<Bound>, k: int): (idx: seq<int>)
    requires 0 <= k < Size(decl)
    ensures |idx| == |decl|
  {
    if |decl| == 0 then []
    else
      var n := |decl| - 1;
      var e := Extent(decl[n]);
      assert e > 0 && 0 <= k / e < Size(decl[..n]) by { DivBound(k, Size(decl[..n]), e); }
      UnOffset(decl[..n], k / e) + [decl[n].lo + k % e]
  }

  lemma DivBound(k: int, s: nat, e: nat)
    requires 0 <= k < s * e
    ensures e > 0 && 0 <= k / e < s
  {
  }

  /** Every position names an in-range index, and `Offset` maps it back. */
  lemma OffsetOfUnOffset(decl: seq<Bound>, k: int)
    requires 0 <= k < Size(decl)
    ensures InBox(decl, UnOffset(decl, k))
    ensures Offset(decl, UnOffset(decl, k)) == k
  {
    UnOffsetInBox(decl, k);
    RowMajorOfUnOffset(decl, k);
  }

  lemma {:induction false} UnOffsetInBox(decl: seq<Bound>, k: int)
    requires 0 <= k < Size(decl)
    ensures InBox(decl, UnOffset(decl, k))
  {
    if |decl| > 0 {
      var n := |decl| - 1;
      var e := Extent(decl[n]);
      DivBound(k, Size(decl[..n]), e);
      UnOffsetInBox(decl[..n], k / e);
      var idx := UnOffset(decl, k);
      ModBound(k, e);
      assert idx[..n] == UnOffset(decl[..n], k / e);
      assert decl[n].lo <= idx[n] <= decl[n].hi;
      forall j | 0 <= j < |decl| ensures decl[j].lo <= idx[j] <= decl[j].hi {
        if j < n {
          assert decl[j] == decl[..n][j] && idx[j] == idx[..n][j];
        }
      }
    }
  }

  lemma {:induction false} RowMajorOfUnOffset(decl: seq<Bound>, k: int)
    requires 0 <= k < Size(decl)
    ensures RowMajor(decl, UnOffset(decl, k)) == k
  {
    if |decl| > 0 {
      var n := |decl| - 1;
      var e := Extent(decl[n]);
      DivBound(k, Size(decl[..n]), e);
      RowMajorOfUnOffset(decl[..n], k / e);
      var idx := UnOffset(decl, k);
      assert idx[..n] == UnOffset(decl[..n], k / e);
      assert idx[n] - decl[n].lo == k % e;
      DivModSplit(k, e);
    }
  }

  lemma ModBound(k: int, e: nat)
    requires e > 0
    ensures 0 <= k % e < e
  {
  }

  lemma DivModSplit(k: int, e: nat)
    requires e > 0
    ensures (k / e) * e + k % e == k
  {
  }

  /** Every in-range index is recovered from its offset. */
  lemma {:induction false} UnOffsetOfOffset(decl: seq<Bound>, idx: seq<int>)
    requires |idx| == |decl| && InBox(decl, idx)
    ensures 0 <= Offset(decl, idx) < Size(decl)
    ensures UnOffset(decl, Offset(decl, idx)) == idx
  {
    if |decl| > 0 {
      var n := |decl| - 1;
      var e := Extent(decl[n]);
      assert InBox(decl[..n], idx[..n]) by {
        forall j | 0 <= j < n ensures decl[..n][j].lo <= idx[..n][j] <= decl[..n][j].hi {
          assert decl[..n][j] == decl[j] && idx[..n][j] == idx[j];
        }
      }
      RowMajorBounds(decl[..n], idx[..n]);
      UnOffsetOfOffset(decl[..n], idx[..n]);
      var p := RowMajor(decl[..n], idx[..n]);
      var d := idx[n] - decl[n].lo;
      assert 0 <= d < e;
      DivMod(p, d, e);
      var k := Offset(decl, idx);
      assert k == p * e + d;
      assert k / e == p && k % e == d;
      assert UnOffset(decl, k) == UnOffset(decl[..n], p) + [decl[n].lo + d];
      assert p == Offset(decl[..n], idx[..n]);
      assert UnOffset(decl[..n], p) == idx[..n] && decl[n].lo + d == idx[n];
      assert idx == idx[..n] + [idx[n]];
    }
  }

  lemma DivMod(p: int, d: int, e: int)
    requires 0 <= d < e
    ensures (p * e + d) / e == p && (p * e + d) % e == d
  {
    var k := p * e + d;
    assert k == (k / e) * e + k % e;
    if k / e > p {
      assert (k / e) * e >= (p + 1) * e by { MulMonotone(p + 1, k / e, e); }
    } else if k / e < p {
      assert (k / e + 1) * e <= p * e by { MulMonotone(k / e + 1, p, e); }
    }
  }

  /** `Array::Offset` applied to a dereference: the position of the element
      it names, or -1 when it names none (an index that is a range or not a
      constant, a different number of dimensions, or an index out of range). */
  function ElementOffset(decl: seq<Bound>, dims: seq<Dim>): (r: int)
    ensures r != -1 <==> ConstIndices(dims).Some? && |dims| == |decl| && InBox(decl, ConstIndices(dims).value)
    ensures r != -1 ==> 0 <= r < Size(decl) && UnOffset(decl, r) == ConstIndices(dims).value
  {
    match ConstIndices(dims)
    case None => -1
    case Some(idx) =>
      if |idx| != |decl| then -1
      else if InBox(decl, idx) then
        UnOffsetOfOffset(decl, idx);
        Offset(decl, idx)
      else -1
  }

  /** The dereference `unOffset` builds: one constant index per dimension. */
  function ConstDims(idx: seq<int>): (dims: seq<Dim>)
    ensures |dims| == |idx|
  {
    if |idx| == 0 then [] else [Index(Const(idx[0]))] + ConstDims(idx[1..])
  }

  /** The constant indices of such a dereference are the ones it was built from. */
  lemma {:induction false} ConstIndicesOfConstDims(idx: seq<int>)
    ensures ConstIndices(ConstDims(idx)) == Some(idx)
  {
    if |idx| > 0 {
      ConstIndicesOfConstDims(idx[1..]);
      assert ConstDims(idx)[1..] == ConstDims(idx[1..]);
      assert [idx[0]] + idx[1..] == idx;
    }
  }

  /** The dereference rebuilt from an element's position selects that element again. */
  lemma ElementOffsetOfUnOffset(decl: seq<Bound>, k: int)
    requires 0 <= k < Size(decl)
    ensures ElementOffset(decl, ConstDims(UnOffset(decl, k))) == k
  {
    ConstIndicesOfConstDims(UnOffset(decl, k));
    OffsetOfUnOffset(decl, k);
  }

  /*------------------------------- subranges --------------------------------*/

  /** A dimension whose ends are known: a range, or a constant index. */
  predicate Fixed(d: Dim) {
    d.Range? || d.e.Const?
  }

  function Low(d: Dim): int
    requires Fixed(d)
  {
    if d.Range? then d.lo else d.e.n
  }

  function High(d: Dim): int
    requires Fixed(d)
  {
    if d.Range? then d.hi else d.e.n
  }

  predicate AllFixed(dims: seq<Dim>) {
    forall k :: 0 <= k < |dims| ==> Fixed(dims[k])
  }

  /** The box a subscript spans, one bound per dimension. */
  function SubBox(dims: seq<Dim>): (b: seq<Bound>)
    requires AllFixed(dims)
    ensures |b| == |dims|
  {
    seq(|dims|, k requires 0 <= k < |dims| => Bound(Low(dims[k]), High(dims[k])))
  }

  /** The low corner of a subscript: each index, or each range's low end. */
  function Corner(dims: seq<Dim>): (idx: seq<int>)
    requires AllFixed(dims)
    ensures |idx| == |dims|
  {
    seq(|dims|, k requires 0 <= k < |dims| => Low(dims[k]))
  }

  /** `Array::Validate` of a subscript: as many dimensions as declared, and
      every index or (not reversed) range inside the declared bounds. */
  predicate ValidSub(decl: seq<Bound>, dims: seq<Dim>) {
    |dims| == |decl| && AllFixed(dims) &&
    forall k :: 0 <= k < |dims| ==> decl[k].lo <= Low(dims[k]) <= High(dims[k]) <= decl[k].hi
  }

  /** `Array::Offset` of a subscript: the position of its low corner, or -1.
      A validated subscript always has one. */
  function SubOffset(decl: seq<Bound>, dims: seq<Dim>): (r: int)
    ensures r != -1 ==> 0 <= r < Size(decl) && |dims| == |decl| && AllFixed(dims)
    ensures ValidSub(decl, dims) ==> r != -1
    ensures IsDeref(dims) && ConstIndices(dims).Some? ==> r == ElementOffset(decl, dims)
  {
    if |dims| == |decl| && AllFixed(dims) then
      assert IsDeref(dims) && ConstIndices(dims).Some? ==> ConstIndices(dims).value == Corner(dims);
      Offset(decl, Corner(dims))
    else -1
  }

  /** The number of elements a subscript spans (`Array::size`). */
  function SubSize(dims: seq<Dim>): nat
    requires AllFixed(dims)
  {
    Size(SubBox(dims))
  }

  /** Every element of a validated subrange lies inside the declaration. */
  lemma SubBoxInside(decl: seq<Bound>, dims: seq<Dim>, idx: seq<int>)
    requires ValidSub(decl, dims) && |idx| == |dims| && InBox(SubBox(dims), idx)
    ensures InBox(decl, idx)
  {
    forall k | 0 <= k < |decl|
      ensures decl[k].lo <= idx[k] <= decl[k].hi
    {
      assert SubBox(dims)[k] == Bound(Low(dims[k]), High(dims[k]));
    }
  }
}
