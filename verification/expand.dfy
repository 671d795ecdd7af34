/**
 * Memoised expansion of user-defined types (`UserDef::Expand`).  Expanding a
 * type with template parameters binds them, builds the canonical name
 * `name<v1,v2,{a,b},@T>` of the instance, and looks that name up in the
 * namespace's table of types: a hit returns the cached type, a miss
 * registers the new type as pending, expands its parent, ports and body,
 * and then clears the pending flag.  A type met again while still pending is
 * a recursive construction; a global counter bounds the nesting depth.
 *
 * Expression evaluation, type checking and the expansion of bodies are not
 * part of this model: parameter values arrive evaluated, and a body is the
 * list of user-defined types it instantiates.
 */
module Expand {

  import opened Common
  import opened Arrays
  import opened Paths
  import opened UserTypes

  /** A meta-parameter or port: its name, its expanded type and, for a
      user-typed port, the template parameters that type is given. */
  datatype Decl = Decl(name: string, t: InstType, args: seq<Binding>)

  /** A use of a user-defined type with the template parameters it specifies. */
  datatype Inst = Inst(def: nat, args: seq<Binding>)

  /** An unexpanded type definition. `inherited` is the table `SetParent`
      built (empty when nothing is inherited). */
  datatype TypeDef = TypeDef(
    name: string,
    params: seq<Decl>,
    inherited: seq<Option<Binding>>,
    parent: Option<Inst>,
    ports: seq<Decl>,
    body: seq<Inst>)

  /** Every reference to a definition is in range. */
  predicate DefsOk(defs: seq<TypeDef>) {
    forall k :: 0 <= k < |defs| ==> DefOk(defs, defs[k])
  }

  predicate DefOk(defs: seq<TypeDef>, d: TypeDef) {
    (d.parent.Some? ==> d.parent.value.def < |defs|) &&
    (forall m :: 0 <= m < |d.body| ==> d.body[m].def < |defs|) &&
    (forall m :: 0 <= m < |d.ports| ==> (d.ports[m].t.base.User? ==> d.ports[m].t.base.ud < |defs|))
  }

  /** Meta-parameter `i` takes its value from the parent type. */
  predicate Inherited(d: TypeDef, i: nat) {
    i < |d.inherited| && d.inherited[i].Some?
  }

  /*-------------------------------- binding ---------------------------------*/

  /** The checks of the binding loop from parameter `i` on, with `ii`
      specified parameters used so far: no zero-length array parameter, a
      type for a `ptype` parameter and a value for every other one. */
  function BindCheck(d: TypeDef, spec: seq<Binding>, i: nat, ii: nat): (r: Result<()>)
    requires i <= |d.params|
    decreases |d.params| - i
  {
    if i == |d.params| then Ok(())
    else
      var x := d.params[i].t;
      if x.arr.Some? && Size(x.arr.value) == 0 then
        Err(Fatal("Template parameter `" + d.params[i].name + "': zero-length array creation not permitted"))
      else
        var b: Option<Binding> := if Inherited(d, i) then d.inherited[i] else if ii < |spec| then Some(spec[ii]) else None;
        var ii' := if !Inherited(d, i) && ii < |spec| then ii + 1 else ii;
        if b.Some? && x.base.PType? && b.value.ValueArg? then
          Err(Fatal("Typechecking failed for parameter: expected type."))
        else if b.Some? && !x.base.PType? && b.value.TypeArg? then
          Err(Fatal("Typechecking failed for parameter: expected value."))
        else BindCheck(d, spec, i + 1, ii')
  }

  /** The checks of the name-size loop: no `ptype` array parameter, and a
      type for a `ptype` parameter at the same position of the specified list. */
  function SizeCheck(d: TypeDef, spec: seq<Binding>, i: nat): (r: Result<()>)
    requires i <= |d.params|
    decreases |d.params| - i
  {
    if i == |d.params| then Ok(())
    else if d.params[i].t.base.PType? && d.params[i].t.arr.Some? then
      Err(Fatal("ptype array parameters not supported"))
    else if d.params[i].t.base.PType? && i < |spec| && spec[i].ValueArg? then
      Err(Fatal("Typechecking failed for param"))
    else SizeCheck(d, spec, i + 1)
  }

  /*------------------------------ canonical name ----------------------------*/

  const ULongRange: int := 0x1_0000_0000_0000_0000

  /** `Type::dirstring`: the direction flags of a type parameter. */
  function DirString(dir: int): string {
    if dir == 1 then "?" else if dir == 2 then "!" else if dir == 3 then "?!" else if dir == 4 then "!?" else ""
  }

  /** One element's text: `%lu` for `pint`, `%ld` for `pints`, `t`/`f` for
      `pbool`, the given `%g` text for `preal`. */
  function ScalarText(k: Kind, v: Value): (r: Result<string>)
    ensures r.Ok? ==> ',' !in r.value || k.PReal?
  {
    if !(k.PInt? || k.PInts? || k.PReal? || k.PBool?) then Err(Fatal("What type is this?"))
    else if k.PInt? && v.IntVal? then
      NatTextDigits(v.n % ULongRange);
      Ok(NatText(v.n % ULongRange))
    else if k.PInts? && v.IntVal? then
      NatTextDigits(if v.n < 0 then -v.n else v.n);
      Ok(IntText(v.n))
    else if k.PBool? && v.BoolVal? then Ok(if v.b then "t" else "f")
    else if k.PReal? && v.RealVal? then Ok(v.text)
    else Err(Fatal("Typechecking failed"))
  }

  /** The texts of array elements, in stepper (row-major) order. */
  function ElemTexts(k: Kind, es: seq<Value>): (r: Result<seq<string>>)
    ensures r.Ok? ==> |r.value| == |es|
  {
    if |es| == 0 then Ok([])
    else
      var front :- ElemTexts(k, es[..|es| - 1]);
      var t :- ScalarText(k, es[|es| - 1]);
      Ok(front + [t])
  }

  /** A bound value's text: an array is `{e1,e2,...}`. */
  function ValueText(x: InstType, v: Value): Result<string> {
    if x.arr.None? then ScalarText(x.base, v)
    else if !v.ArrayVal? || |v.elems| != Size(x.arr.value) then Err(Fatal("Typechecking failed"))
    else
      var ts :- ElemTexts(x.base, v.elems);
      Ok("{" + Join(",", ts) + "}")
  }

  /** The name piece of one specified parameter: `@T` plus its direction for
      a type, nothing for a `ptype` given a value, and the value's text
      otherwise. */
  function Piece(x: InstType, b: Binding): Result<string> {
    if x.base.PType? then
      if b.TypeArg? then Ok("@" + b.tname + DirString(b.dir)) else Ok("")
    else if b.TypeArg? then Err(Fatal("Typechecking failed"))
    else ValueText(x, b.v)
  }

  /** The pieces from parameter `i` on: inherited parameters are skipped,
      and the list stops once every specified parameter is used. */
  function Pieces(d: TypeDef, spec: seq<Binding>, i: nat, ii: nat): (r: Result<seq<string>>)
    requires i <= |d.params| && ii <= |spec|
    decreases |d.params| - i
  {
    if i == |d.params| then Ok([])
    else if Inherited(d, i) then Pieces(d, spec, i + 1, ii)
    else if ii == |spec| then Ok([])
    else
      var p :- Piece(d.params[i].t, spec[ii]);
      var rest :- Pieces(d, spec, i + 1, ii + 1);
      Ok([p] + rest)
  }

  /** The canonical name of `d` instantiated with `spec`: the cache key. */
  function Key(d: TypeDef, spec: seq<Binding>): (r: Result<string>)
  {
    var ps :- Pieces(d, spec, 0, 0);
    Ok(d.name + "<" + Join(",", ps) + ">")
  }

  function PrefixedR(xs: seq<string>, r: Result<seq<string>>): Result<seq<string>> {
    if r.Ok? then Ok(xs + r.value) else r
  }

  lemma PrefixedNil(r: Result<seq<string>>)
    ensures PrefixedR([], r) == r
  {
    if r.Ok? {
      assert [] + r.value == r.value;
    }
  }

  lemma PrefixedAssoc(xs: seq<string>, ys: seq<string>, r: Result<seq<string>>)
    ensures PrefixedR(xs, PrefixedR(ys, r)) == PrefixedR(xs + ys, r)
  {
    if r.Ok? {
      assert xs + (ys + r.value) == (xs + ys) + r.value;
    }
  }

  /** `,`-free pieces can be told apart in their join. */
  lemma {:induction false} JoinInjective(xs: seq<string>, ys: seq<string>)
    requires |xs| == |ys|
    requires forall k :: 0 <= k < |xs| ==> ',' !in xs[k]
    requires forall k :: 0 <= k < |ys| ==> ',' !in ys[k]
    requires Join(",", xs) == Join(",", ys)
    ensures xs == ys
  {
    if |xs| >= 2 {
      var n := |xs| - 1;
      var a, x := Join(",", xs[..n]), xs[n];
      var b, y := Join(",", ys[..n]), ys[n];
      assert a + "," + x == b + "," + y;
      LastPieceEqual(a, x, b, y);
      JoinInjective(xs[..n], ys[..n]);
      assert xs == xs[..n] + [x] && ys == ys[..n] + [y];
    }
  }

  /** The text after the last `,` is the last piece. */
  lemma LastPieceEqual(a: string, x: string, b: string, y: string)
    requires ',' !in x && ',' !in y
    requires a + "," + x == b + "," + y
    ensures a == b && x == y
  {
    var s := a + "," + x;
    CommaAt(a, x);
    CommaAt(b, y);
    NoCommaIn(a, x, |x| - |y| - 1);
    NoCommaIn(b, y, |y| - |x| - 1);
    assert |x| == |y|;
    assert x == s[|s| - |x|..] == y;
    assert a == s[..|a|] == b;
  }

  lemma CommaAt(a: string, x: string)
    ensures (a + "," + x)[|a|] == ','
  {
  }

  lemma NoCommaIn(a: string, x: string, j: int)
    ensures 0 <= j < |x| && ',' !in x ==> (a + "," + x)[|a| + 1 + j] != ','
  {
    if 0 <= j < |x| {
      assert (a + "," + x)[|a| + 1 + j] == x[j];
    }
  }

  /** A type whose meta-parameters are all scalar `pints`, none inherited. */
  predicate IntsOnly(d: TypeDef) {
    |d.inherited| == 0 && forall i :: 0 <= i < |d.params| ==> d.params[i].t == InstType(PInts, None)
  }

  /** The decimal texts of integer values, in order. */
  function IntTexts(spec: seq<Binding>): (ts: seq<string>)
    ensures |ts| == |spec|
  {
    if |spec| == 0 then []
    else [if spec[0].ValueArg? && spec[0].v.IntVal? then IntText(spec[0].v.n) else ""] + IntTexts(spec[1..])
  }

  lemma {:induction false} IntTextsAt(spec: seq<Binding>, k: nat)
    requires k < |spec| && spec[k].ValueArg? && spec[k].v.IntVal?
    ensures IntTexts(spec)[k] == IntText(spec[k].v.n)
    decreases k
  {
    if k > 0 {
      assert spec[1..][k - 1] == spec[k];
      IntTextsAt(spec[1..], k - 1);
    }
  }

  /** For such a type, the pieces are the decimal texts of the values. */
  lemma {:induction false} IntsPieces(d: TypeDef, spec: seq<Binding>, i: nat, ii: nat)
    requires IntsOnly(d) && i <= |d.params| && ii <= |spec|
    requires i == ii && |spec| <= |d.params|
    requires forall k :: 0 <= k < |spec| ==> spec[k].ValueArg? && spec[k].v.IntVal?
    ensures Pieces(d, spec, i, ii) == Ok(IntTexts(spec[ii..]))
    decreases |d.params| - i
  {
    if ii < |spec| {
      IntsPieces(d, spec, i + 1, ii + 1);
      IntPiece(d, spec, i);
      assert spec[ii..][1..] == spec[ii + 1..];
      PiecesCons(d, spec, i, ii, IntText(spec[ii].v.n), IntTexts(spec[ii + 1..]));
    } else {
      assert spec[ii..] == [];
    }
  }

  /** The piece of an integer parameter of such a type is its decimal text. */
  lemma IntPiece(d: TypeDef, spec: seq<Binding>, i: nat)
    requires IntsOnly(d) && i < |d.params| && i < |spec| && spec[i].ValueArg? && spec[i].v.IntVal?
    ensures !Inherited(d, i) && Piece(d.params[i].t, spec[i]) == Ok(IntText(spec[i].v.n))
  {
  }

  /** `Pieces` at a parameter that is not inherited and has a value. */
  lemma PiecesCons(d: TypeDef, spec: seq<Binding>, i: nat, ii: nat, p: string, rest: seq<string>)
    requires i < |d.params| && ii < |spec| && !Inherited(d, i)
    requires Piece(d.params[i].t, spec[ii]) == Ok(p) && Pieces(d, spec, i + 1, ii + 1) == Ok(rest)
    ensures Pieces(d, spec, i, ii) == Ok([p] + rest)
  {
  }

  lemma IntTextNoComma(n: int)
    ensures ',' !in IntText(n)
  {
    NatTextDigits(if n < 0 then -n else n);
  }

  /** Decimal texts of distinct integers differ. */
  lemma IntTextInjective(m: int, n: int)
    requires IntText(m) == IntText(n)
    ensures m == n
  {
    IntTextSign(m);
    IntTextSign(n);
    if m < 0 {
      assert NatText(-m) == IntText(m)[1..] == IntText(n)[1..] == NatText(-n);
      DigitsValueOfNatText(-m);
      DigitsValueOfNatText(-n);
    } else {
      DigitsValueOfNatText(m);
      DigitsValueOfNatText(n);
    }
  }

  /** `%d` starts with `-` exactly for a negative number. */
  lemma IntTextSign(n: int)
    ensures IntText(n)[0] == '-' <==> n < 0
  {
    NatTextDigits(if n < 0 then -n else n);
  }

  /** The cache is sound for integer parameters: instances of such a type
      given different values get different names. */
  lemma IntsKeyInjective(d: TypeDef, a: seq<Binding>, b: seq<Binding>)
    requires IntsOnly(d) && |a| == |b| <= |d.params|
    requires forall k :: 0 <= k < |a| ==> a[k].ValueArg? && a[k].v.IntVal?
    requires forall k :: 0 <= k < |b| ==> b[k].ValueArg? && b[k].v.IntVal?
    requires Key(d, a) == Key(d, b)
    ensures a == b
  {
    IntsPieces(d, a, 0, 0);
    IntsPieces(d, b, 0, 0);
    assert a[0..] == a && b[0..] == b;
    var xs := IntTexts(a);
    var ys := IntTexts(b);
    var pre := d.name + "<";
    assert pre + Join(",", xs) + ">" == pre + Join(",", ys) + ">";
    assert Join(",", xs) == (pre + Join(",", xs) + ">")[|pre|..|pre| + |Join(",", xs)|];
    assert Join(",", xs) == Join(",", ys);
    forall k | 0 <= k < |xs| ensures ',' !in xs[k] && ',' !in ys[k] {
      IntTextsAt(a, k);
      IntTextsAt(b, k);
      IntTextNoComma(a[k].v.n);
      IntTextNoComma(b[k].v.n);
    }
    JoinInjective(xs, ys);
    forall k | 0 <= k < |a| ensures a[k] == b[k] {
      IntTextsAt(a, k);
      IntTextsAt(b, k);
      IntTextInjective(a[k].v.n, b[k].v.n);
    }
  }

  /** Every name has the form `name<...>`. */
  lemma KeyShape(d: TypeDef, spec: seq<Binding>)
    requires Key(d, spec).Ok?
    ensures |Key(d, spec).value| >= |d.name| + 2
    ensures Key(d, spec).value[..|d.name| + 1] == d.name + "<"
    ensures Key(d, spec).value[|Key(d, spec).value| - 1] == '>'
  {
  }

  /*----------------------------- building the name --------------------------*/

  /** The element loop of an array value: the stepper walks the elements in
      row-major order and puts `,` between them. */
  method ElemsText(k: Kind, es: seq<Value>) returns (r: Result<string>)
    ensures ElemTexts(k, es).Err? ==> r.Err? && r.error == ElemTexts(k, es).error
    ensures ElemTexts(k, es).Ok? ==> r == Ok(Join(",", ElemTexts(k, es).value))
  {
    var buf := "";
    var m := 0;
    while m < |es|
      invariant 0 <= m <= |es|
      invariant ElemTexts(k, es[..m]).Ok? && buf == Join(",", ElemTexts(k, es[..m]).value)
    {
      var x := ElemStep(k, es, m, ElemTexts(k, es[..m]).value, buf);
      if x.Err? {
        return Err(x.error);
      }
      buf := x.value;
      m := m + 1;
    }
    assert es[..m] == es;
    r := Ok(buf);
  }

  /** One round of the element loop: print element `m` and append it. */
  method ElemStep(k: Kind, es: seq<Value>, m: nat, ghost front: seq<string>, buf: string) returns (r: Result<string>)
    requires m < |es| && ElemTexts(k, es[..m]) == Ok(front) && buf == Join(",", front)
    ensures r.Err? ==> ElemTexts(k, es).Err? && r.error == ElemTexts(k, es).error
    ensures r.Ok? ==> ElemTexts(k, es[..m + 1]).Ok? && r.value == Join(",", ElemTexts(k, es[..m + 1]).value)
  {
    var t := ScalarText(k, es[m]);
    if t.Err? {
      ElemTextsErr(k, es, m + 1);
      return Err(t.error);
    }
    ElemTextsSnoc(k, es, m, front, t.value);
    if m == 0 {
      r := Ok(t.value);
    } else {
      JoinSnoc(",", front, t.value);
      r := Ok(buf + "," + t.value);
    }
  }

  /** One more element that prints extends the texts by its text. */
  lemma ElemTextsSnoc(k: Kind, es: seq<Value>, m: nat, front: seq<string>, t: string)
    requires m < |es| && ElemTexts(k, es[..m]) == Ok(front) && ScalarText(k, es[m]) == Ok(t)
    ensures ElemTexts(k, es[..m + 1]) == Ok(front + [t])
    ensures m == 0 ==> front == []
  {
    assert es[..m + 1][..m] == es[..m];
  }

  /** An element that fails makes the whole list fail, with its error. */
  lemma {:induction false} ElemTextsErr(k: Kind, es: seq<Value>, m: nat)
    requires 1 <= m <= |es| && ElemTexts(k, es[..m - 1]).Ok? && ScalarText(k, es[m - 1]).Err?
    ensures ElemTexts(k, es).Err? && ElemTexts(k, es).error == ScalarText(k, es[m - 1]).error
    decreases |es| - m
  {
    if m < |es| {
      assert es[..m][..m - 1] == es[..m - 1];
      assert ElemTexts(k, es[..m]).Err?;
      ElemTextsErrUp(k, es, m);
    } else {
      assert es[..m - 1] == es[..|es| - 1];
    }
  }

  lemma {:induction false} ElemTextsErrUp(k: Kind, es: seq<Value>, m: nat)
    requires 1 <= m <= |es| && ElemTexts(k, es[..m]).Err?
    ensures ElemTexts(k, es).Err? && ElemTexts(k, es).error == ElemTexts(k, es[..m]).error
    decreases |es| - m
  {
    if m < |es| {
      assert es[..m + 1][..m] == es[..m];
      ElemTextsErrUp(k, es, m + 1);
    } else {
      assert es[..m] == es;
    }
  }

  method ValueTextOf(x: InstType, v: Value) returns (r: Result<string>)
    ensures r == ValueText(x, v)
  {
    if x.arr.None? {
      return ScalarText(x.base, v);
    }
    if !v.ArrayVal? || |v.elems| != Size(x.arr.value) {
      return Err(Fatal("Typechecking failed"));
    }
    var inner := ElemsText(x.base, v.elems);
    if inner.Err? {
      return Err(inner.error);
    }
    r := Ok("{" + inner.value + "}");
  }

  /** The piece of one parameter, as the name loop computes it. */
  method PieceOf(x: InstType, b: Binding) returns (p: Result<string>)
    ensures p == Piece(x, b)
  {
    if x.base.PType? {
      p := if b.TypeArg? then Ok("@" + b.tname + DirString(b.dir)) else Ok("");
    } else if b.TypeArg? {
      p := Err(Fatal("Typechecking failed"));
    } else {
      p := ValueTextOf(x, b.v);
    }
  }

  /** Appending one piece to the name being built. */
  lemma BufStep(pre: string, acc: seq<string>, pv: string)
    ensures |acc| == 0 ==> pre + Join(",", acc + [pv]) == pre + Join(",", acc) + pv
    ensures |acc| != 0 ==> pre + Join(",", acc + [pv]) == pre + Join(",", acc) + "," + pv
  {
    if |acc| != 0 {
      JoinSnoc(",", acc, pv);
      Regroup(pre, Join(",", acc), pv);
    } else {
      assert acc + [pv] == [pv];
      assert Join(",", [pv]) == pv;
      assert Join(",", acc) == "";
      assert pre + "" == pre;
    }
  }

  lemma Regroup(a: string, b: string, c: string)
    ensures a + (b + "," + c) == a + b + "," + c
  {
  }

  /** One specified parameter moves its piece from the rest to the front. */
  lemma PiecesStep(d: TypeDef, spec: seq<Binding>, i: nat, ii: nat, acc: seq<string>, pv: string)
    requires i < |d.params| && ii < |spec| && !Inherited(d, i)
    requires Piece(d.params[i].t, spec[ii]) == Ok(pv)
    requires Pieces(d, spec, 0, 0) == PrefixedR(acc, Pieces(d, spec, i, ii))
    ensures Pieces(d, spec, 0, 0) == PrefixedR(acc + [pv], Pieces(d, spec, i + 1, ii + 1))
  {
    assert Pieces(d, spec, i, ii) == PrefixedR([pv], Pieces(d, spec, i + 1, ii + 1));
    PrefixedAssoc(acc, [pv], Pieces(d, spec, i + 1, ii + 1));
  }

  /** The name loop of `Expand`: writes `name<`, then the piece of each
      specified, non-inherited parameter with `,` between them, then `>`. */
  method BuildKey(d: TypeDef, spec: seq<Binding>) returns (r: Result<string>)
    ensures r == Key(d, spec)
  {
    var buf := d.name + "<";
    ghost var acc: seq<string> := [];
    var i := 0;
    var ii := 0;
    PrefixedNil(Pieces(d, spec, 0, 0));
    while i < |d.params|
      invariant 0 <= i <= |d.params| && 0 <= ii <= |spec| && |acc| == ii
      invariant buf == d.name + "<" + Join(",", acc)
      invariant Pieces(d, spec, 0, 0) == PrefixedR(acc, Pieces(d, spec, i, ii))
    {
      if Inherited(d, i) {
        i := i + 1;
        continue;
      }
      if ii == |spec| {
        break;
      }
      var p := PieceOf(d.params[i].t, spec[ii]);
      if p.Err? {
        return Err(p.error);
      }
      BufStep(d.name + "<", acc, p.value);
      if ii != 0 {
        buf := buf + "," + p.value;
      } else {
        buf := buf + p.value;
      }
      PiecesStep(d, spec, i, ii, acc, p.value);
      acc := acc + [p.value];
      i := i + 1;
      ii := ii + 1;
    }
    assert acc + [] == acc;
    r := Ok(buf + ">");
  }

  /*-------------------------------- expansion -------------------------------*/

  /** The table only grows, old entries keep their flag, and entries added
      along the way are no longer pending. */
  ghost predicate Grows(c0: map<string, bool>, c1: map<string, bool>) {
    (forall k :: k in c0 ==> k in c1 && c1[k] == c0[k]) &&
    (forall k :: k in c1 && k !in c0 ==> !c1[k])
  }

  lemma GrowsTrans(c0: map<string, bool>, c1: map<string, bool>, c2: map<string, bool>)
    requires Grows(c0, c1) && Grows(c1, c2)
    ensures Grows(c0, c2)
  {
  }

  /** The parameters the parent type is expanded with: its own list, then the
      specified parameters from `parent_start` on when there are any. */
  function ParentArgs(nt: nat, parentParams: nat, pargs: seq<Binding>, spec: seq<Binding>): Result<seq<Binding>> {
    var start := nt - parentParams;
    if start >= |spec| then Ok(pargs)
    else if start < 0 then Err(Internal("parent has more parameters than the type"))
    else Ok(pargs + spec[start..])
  }

  class TypeTable {
    const defs: seq<TypeDef>
    /** `Act::max_recurse_depth` */
    const maxDepth: int
    /** the static `recursion_depth` */
    var depth: int
    /** the namespace's types by canonical name, with their `pending` flag */
    var cache: map<string, bool>

    constructor (ds: seq<TypeDef>, limit: int)
      ensures defs == ds && maxDepth == limit && depth == 0 && cache == map[]
    {
      defs, maxDepth := ds, limit;
      depth, cache := 0, map[];
    }

    /** `UserDef::Expand` of definition `d` with the specified parameters
        `spec`: the canonical name of the instance and whether it was a
        cache hit. */
    method Expand(d: nat, spec: seq<Binding>) returns (r: Result<(string, bool)>)
      requires DefsOk(defs) && d < |defs|
      modifies this
      decreases maxDepth - depth, 0
      ensures old(depth) + 1 >= maxDepth ==> r == Err(Fatal("Exceeded maximum recursion depth"))
      ensures r.Ok? ==> depth == old(depth)
      ensures r.Ok? ==> Key(defs[d], spec) == Ok(r.value.0)
      ensures r.Ok? ==> r.value.0 in cache && !cache[r.value.0] && Grows(old(cache), cache)
      ensures r.Ok? ==> !(r.value.0 in old(cache) && old(cache)[r.value.0])
      ensures r.Ok? && r.value.1 ==> r.value.0 in old(cache) && cache == old(cache)
      ensures r.Ok? && !r.value.1 ==> r.value.0 !in old(cache)
      ensures r.Ok? && !r.value.1 ==>
        forall m :: 0 <= m < |defs[d].body| ==>
          Key(defs[defs[d].body[m].def], defs[d].body[m].args) != Ok(r.value.0)
    {
      depth := depth + 1;
      if depth >= maxDepth {
        return Err(Fatal("Exceeded maximum recursion depth"));
      }
      var def := defs[d];
      assert DefOk(defs, def);
      var chk := BindCheck(def, spec, 0, 0);
      if chk.Err? {
        return Err(chk.error);
      }
      chk := SizeCheck(def, spec, 0);
      if chk.Err? {
        return Err(chk.error);
      }
      var key := BuildKey(def, spec);
      if key.Err? {
        return Err(key.error);
      }
      var name := key.value;
      if name in cache {
        if cache[name] {
          return Err(Fatal("Recursive construction of type `" + name + "'"));
        }
        depth := depth - 1;
        return Ok((name, true));
      }
      ghost var c0 := cache;
      cache := cache[name := true];
      ghost var c1 := cache;
      if def.parent.Some? {
        var pd := def.parent.value.def;
        var pargs := ParentArgs(|def.params|, |defs[pd].params|, def.parent.value.args, spec);
        if pargs.Err? {
          return Err(pargs.error);
        }
        var pr := Expand(pd, pargs.value);
        if pr.Err? {
          return Err(pr.error);
        }
      }
      ghost var c2 := cache;
      var ports := ExpandPorts(def.ports, name);
      if ports.Err? {
        return Err(ports.error);
      }
      ghost var c3 := cache;
      GrowsTrans(c1, c2, c3);
      var body := ExpandBody(def.body, name);
      if body.Err? {
        return Err(body.error);
      }
      GrowsTrans(c1, c3, cache);
      cache := cache[name := false];
      depth := depth - 1;
      r := Ok((name, false));
    }

    /** The port loop of `Expand`: each user-typed port type is expanded, and
        a zero-length port array is refused. */
    method ExpandPorts(ports: seq<Decl>, ghost name: string) returns (r: Result<()>)
      requires DefsOk(defs) && depth < maxDepth
      requires forall m :: 0 <= m < |ports| ==> (ports[m].t.base.User? ==> ports[m].t.base.ud < |defs|)
      requires name in cache && cache[name]
      modifies this
      decreases maxDepth - depth, 1
      ensures r.Ok? ==> depth == old(depth) && Grows(old(cache), cache)
      ensures r.Ok? ==> forall m :: 0 <= m < |ports| ==> !(ports[m].t.arr.Some? && Size(ports[m].t.arr.value) == 0)
    {
      var i := 0;
      while i < |ports|
        invariant 0 <= i <= |ports|
        invariant depth == old(depth)
        invariant Grows(old(cache), cache)
        invariant forall m :: 0 <= m < i ==> !(ports[m].t.arr.Some? && Size(ports[m].t.arr.value) == 0)
      {
        var pt := ports[i].t;
        if pt.base.User? {
          ghost var before := cache;
          var pr := Expand(pt.base.ud, ports[i].args);
          if pr.Err? {
            return Err(pr.error);
          }
          GrowsTrans(old(cache), before, cache);
        }
        if pt.arr.Some? && Size(pt.arr.value) == 0 {
          return Err(Fatal("Port `" + ports[i].name + "': zero-length array creation not permitted"));
        }
        i := i + 1;
      }
      r := Ok(());
    }

    /** The body of the type: every instance it declares is expanded, and
        none of them has the name of the type being expanded. */
    method ExpandBody(body: seq<Inst>, ghost name: string) returns (r: Result<()>)
      requires DefsOk(defs) && depth < maxDepth
      requires forall m :: 0 <= m < |body| ==> body[m].def < |defs|
      requires name in cache && cache[name]
      modifies this
      decreases maxDepth - depth, 1
      ensures r.Ok? ==> depth == old(depth) && Grows(old(cache), cache)
      ensures r.Ok? ==> forall m :: 0 <= m < |body| ==> Key(defs[body[m].def], body[m].args) != Ok(name)
    {
      var m := 0;
      while m < |body|
        invariant 0 <= m <= |body|
        invariant depth == old(depth)
        invariant Grows(old(cache), cache)
        invariant forall m' :: 0 <= m' < m ==> Key(defs[body[m'].def], body[m'].args) != Ok(name)
      {
        ghost var before := cache;
        var br := Expand(body[m].def, body[m].args);
        if br.Err? {
          return Err(br.error);
        }
        GrowsTrans(old(cache), before, cache);
        m := m + 1;
      }
      r := Ok(());
    }
  }
}
