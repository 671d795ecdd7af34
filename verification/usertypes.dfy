/**
 * User-defined types (`UserDef`): the meta-parameter table and the port
 * table, both searched by name and addressed through one signed position
 * (negative for meta-parameters, non-negative for ports), the user macros,
 * the inheritance of template parameters from a parent type, and the probe
 * rules of channel types.  The scope `I` of a type is modelled as the map of
 * the names declared in it.
 */
module UserTypes {

  import opened Common
  import opened Arrays

  /*---------------------------------- types ---------------------------------*/

  /** The base type of an instance type; the `dynamic_cast` dispatch of the
      compiler becomes a tag. */
  datatype Kind =
    | Builtin(code: int)   // a built-in, non-parameter type (bool, int, chan, ...)
    | PInt | PInts | PBool | PReal | PType
    | User(ud: nat)        // a user-defined type, by its place in the type table

  /** An expanded instance type: a base type and an optional array shape. */
  datatype InstType = InstType(base: Kind, arr: Option<seq<Bound>>)

  predicate IsParamKind(k: Kind) {
    k.PInt? || k.PInts? || k.PBool? || k.PReal? || k.PType?
  }

  /** A value bound to a template parameter (a type, or an evaluated value). */
  datatype Value =
    | IntVal(n: int)              // `pint` (rendered unsigned) and `pints`
    | BoolVal(b: bool)
    | RealVal(text: string)       // a real, with its `%g` text taken as given
    | ArrayVal(elems: seq<Value>)
  datatype Binding = TypeArg(tname: string, dir: int) | ValueArg(v: Value)

  /*-------------------------- name tables (pure) ----------------------------*/

  /** The first position of `id` in `xs`, or -1. */
  function IndexIn(xs: seq<string>, id: string): (k: int)
    ensures -1 <= k < |xs|
    ensures k == -1 <==> id !in xs
    ensures k >= 0 ==> xs[k] == id && id !in xs[..k]
  {
    if |xs| == 0 then -1
    else if xs[0] == id then 0
    else
      var k := IndexIn(xs[1..], id);
      assert xs[1..] == xs[1..][..] && (k >= 0 ==> xs[..k + 1] == [xs[0]] + xs[1..][..k]);
      if k == -1 then -1 else k + 1
  }

  /** The position code `FindPort` returns: `-(i+1)` for meta-parameter `i`,
      `i+1` for port `i`, 0 when absent; meta-parameters win. */
  function PortCode(pn: seq<string>, ports: seq<string>, id: string): (r: int)
    ensures r == 0 <==> id !in pn && id !in ports
    ensures r < 0 ==> -r <= |pn| && pn[-r - 1] == id && id !in pn[..-r - 1]
    ensures r > 0 ==> id !in pn && r <= |ports| && ports[r - 1] == id && id !in ports[..r - 1]
  {
    var i := IndexIn(pn, id);
    if i >= 0 then -(i + 1)
    else
      var j := IndexIn(ports, id);
      if j >= 0 then j + 1 else 0
  }

  /** `getPortName`: position `-k` is meta-parameter `k-1`, position `p >= 0`
      is port `p`; anything else fails the assertion. */
  function PortAt<T>(params: seq<T>, ports: seq<T>, pos: int): (r: Result<T>)
    ensures r.Ok? <==> (pos < 0 && -pos <= |params|) || (0 <= pos < |ports|)
    ensures pos < 0 && r.Ok? ==> r.value == params[-pos - 1]
    ensures pos >= 0 && r.Ok? ==> r.value == ports[pos]
  {
    if pos < 0 then
      if 1 <= -pos < 1 + |params| then Ok(params[-pos - 1]) else Err(Internal("Invalid pos!"))
    else
      if pos < |ports| then Ok(ports[pos]) else Err(Internal("Invalid pos!"))
  }

  /** The name at a found meta-parameter code is the name searched for, and
      so is the name at a found port code, one below it. */
  lemma PortNameOfCode(pn: seq<string>, ports: seq<string>, id: string)
    ensures PortCode(pn, ports, id) < 0 ==> PortAt(pn, ports, PortCode(pn, ports, id)) == Ok(id)
    ensures PortCode(pn, ports, id) > 0 ==> PortAt(pn, ports, PortCode(pn, ports, id) - 1) == Ok(id)
  {
  }

  /** Codes of different names never collide. */
  lemma PortCodeInjective(pn: seq<string>, ports: seq<string>, a: string, b: string)
    requires PortCode(pn, ports, a) != 0 && PortCode(pn, ports, a) == PortCode(pn, ports, b)
    ensures a == b
  {
  }

  /*------------------------------ parent types ------------------------------*/

  /** What `SetParent` needs of the parent type's own definition. */
  datatype ParentDef = ParentDef(numParams: nat, inheritedTempl: nat, inherited: seq<Option<Binding>>)

  /** A parent instance type: its definition when the base is user-defined,
      and the template parameters the instance type specifies. */
  datatype ParentType = ParentType(def: Option<ParentDef>, params: seq<Binding>)

  /** The first position at or after `i` that is not yet bound. */
  function FreeFrom(inh: seq<Option<Binding>>, i: nat): (k: nat)
    requires i <= |inh|
    ensures i <= k <= |inh|
    ensures forall j :: i <= j < k ==> inh[j].Some?
    ensures k < |inh| ==> inh[k].None?
    decreases |inh| - i
  {
    if i < |inh| && inh[i].Some? then FreeFrom(inh, i + 1) else i
  }

  /** Binding the specified parameters `ps[j..]` one by one into the free
      positions from `i` on. */
  function Place(inh: seq<Option<Binding>>, i: nat, ps: seq<Binding>, j: nat): (r: Result<seq<Option<Binding>>>)
    requires i <= |inh| && j <= |ps|
    ensures r.Ok? ==> |r.value| == |inh|
    decreases |ps| - j
  {
    if j == |ps| then Ok(inh)
    else
      var k := FreeFrom(inh, i);
      if k == |inh| then Err(Fatal("Too many template parameters specified?"))
      else Place(inh[k := Some(ps[j])], k + 1, ps, j + 1)
  }

  /** Placing never overwrites a position that was already bound. */
  lemma {:induction false} PlaceKeeps(inh: seq<Option<Binding>>, i: nat, ps: seq<Binding>, j: nat, q: nat)
    requires i <= |inh| && j <= |ps| && q < |inh| && inh[q].Some?
    requires Place(inh, i, ps, j).Ok?
    ensures Place(inh, i, ps, j).value[q] == inh[q]
    decreases |ps| - j
  {
    if j < |ps| {
      var k := FreeFrom(inh, i);
      PlaceKeeps(inh[k := Some(ps[j])], k + 1, ps, j + 1, q);
    }
  }

  /** Every specified parameter ends up bound somewhere. */
  lemma {:induction false} PlaceBindsAll(inh: seq<Option<Binding>>, i: nat, ps: seq<Binding>, j: nat, m: nat)
    requires i <= |inh| && j <= m < |ps|
    requires Place(inh, i, ps, j).Ok?
    ensures Some(ps[m]) in Place(inh, i, ps, j).value
    decreases |ps| - j
  {
    var k := FreeFrom(inh, i);
    var inh' := inh[k := Some(ps[j])];
    if m == j {
      PlaceKeeps(inh', k + 1, ps, j + 1, k);
    } else {
      PlaceBindsAll(inh', k + 1, ps, j + 1, m);
    }
  }

  /** The same search written the way `SetParent` writes its guard,
      `inherited_param[i] && i < nt`: the position is read before it is
      compared with the table size, so a search that reaches the end reads
      one entry past it.  That read is reported as an `Internal` error here. */
  function FreeFromAsWritten(inh: seq<Option<Binding>>, i: nat): (r: Result<nat>)
    requires i <= |inh|
    ensures r.Ok? ==> i <= r.value < |inh|
    decreases |inh| - i
  {
    if i == |inh| then Err(Internal("read past the end of inherited_param"))
    else if inh[i].Some? then FreeFromAsWritten(inh, i + 1)
    else Ok(i)
  }

  function PlaceAsWritten(inh: seq<Option<Binding>>, i: nat, ps: seq<Binding>, j: nat): (r: Result<seq<Option<Binding>>>)
    requires i <= |inh| && j <= |ps|
    decreases |ps| - j
  {
    if j == |ps| then Ok(inh)
    else
      var k :- FreeFromAsWritten(inh, i);
      PlaceAsWritten(inh[k := Some(ps[j])], k + 1, ps, j + 1)
  }

  /** One parameter in a one-entry table that is still free, then a second:
      the second search starts at the end of the table and reads
      `inherited_param[1]` past it before testing the bound.  That read is
      undefined behaviour, modelled as an internal error; the corrected
      search reports "too many parameters" instead. */
  lemma TooManyParamsReadsPastEnd(p: Binding, q: Binding)
    ensures PlaceAsWritten([None], 0, [p, q], 0) == Err(Internal("read past the end of inherited_param"))
    ensures Place([None], 0, [p, q], 0) == Err(Fatal("Too many template parameters specified?"))
  {
    assert FreeFromAsWritten([None], 0) == Ok(0);
    assert [None][0 := Some(p)] == [Some(p)];
    assert FreeFromAsWritten([Some(p)], 1) == Err(Internal("read past the end of inherited_param"));
    assert FreeFrom([None], 0) == 0;
    assert FreeFrom([Some(p)], 1) == 1;
  }

  /** Wherever the as-written search does not run off the end, it agrees with
      the corrected one. */
  lemma {:induction false} FreeFromAgrees(inh: seq<Option<Binding>>, i: nat)
    requires i <= |inh|
    ensures FreeFromAsWritten(inh, i).Ok? <==> FreeFrom(inh, i) < |inh|
    ensures FreeFromAsWritten(inh, i).Ok? ==> FreeFromAsWritten(inh, i).value == FreeFrom(inh, i)
    decreases |inh| - i
  {
    if i < |inh| && inh[i].Some? {
      FreeFromAgrees(inh, i + 1);
    }
  }

  /** What `SetParent` computes for the inherited-parameter table from the
      parent type `x`, with `nt` meta-parameters of its own: the parent's
      inherited parameters copied to the last `x.numParams` positions, then
      the parent instance's parameters placed in the free ones. */
  function Inherit(nt: nat, x: ParentDef, ps: seq<Binding>): (r: Result<seq<Option<Binding>>>)
    ensures r.Ok? ==> |r.value| == nt
  {
    if nt < x.numParams then Err(Internal("parent has more parameters than the type"))
    else if x.inheritedTempl > |x.inherited| || nt - x.numParams + x.inheritedTempl > nt then
      Err(Internal("inherited parameter out of range"))
    else
      var base := nt - x.numParams;
      var inh := seq(nt, k requires 0 <= k < nt =>
        if base <= k < base + x.inheritedTempl then x.inherited[k - base] else None);
      Place(inh, base, ps, 0)
  }

  /*-------------------------------- channels --------------------------------*/

  /** What the probe rules need of a channel type: whether it defines the send
      and the receive probe methods, and whether it is bidirectional. */
  datatype ChanDef = ChanDef(sendProbe: bool, recvProbe: bool, biDirectional: bool)

  /** `mustbeActiveSend`: 1 when the sender must be active, 0 when it must be
      passive, -1 when either is allowed. */
  function MustBeActiveSend(c: ChanDef): (r: Result<int>)
    ensures r.Err? <==> (c.sendProbe && c.recvProbe) || (c.biDirectional && c.sendProbe)
    ensures r.Ok? ==> -1 <= r.value <= 1
    ensures r.Ok? && c.biDirectional ==> r.value == 1
    ensures r.Ok? && !c.biDirectional ==> (r.value == 0 <==> c.sendProbe)
    ensures r.Ok? && !c.biDirectional ==> (r.value == 1 <==> c.recvProbe)
  {
    if c.sendProbe && c.recvProbe then
      Err(Fatal("Channel cannot define probes on both send and receive"))
    else if c.biDirectional then
      if c.sendProbe then Err(Fatal("Bidirectional channel cannot define probe on send")) else Ok(1)
    else if c.sendProbe then Ok(0)
    else if c.recvProbe then Ok(1)
    else Ok(-1)
  }

  /** `mustbeActiveRecv`: the other end's requirement. */
  function MustBeActiveRecv(c: ChanDef): (r: Result<int>)
  {
    var x :- MustBeActiveSend(c);
    if x == 0 then Ok(1) else if x == 1 then Ok(0) else Ok(-1)
  }

  /** The two ends never have the same requirement unless both are free: a
      probe makes exactly one end active. */
  lemma ActiveEndsOpposite(c: ChanDef)
    ensures MustBeActiveRecv(c).Err? <==> MustBeActiveSend(c).Err?
    ensures MustBeActiveSend(c).Ok? ==>
      MustBeActiveRecv(c).value == (if MustBeActiveSend(c).value == -1 then -1 else 1 - MustBeActiveSend(c).value)
    ensures MustBeActiveSend(c) == Ok(-1) <==> !c.sendProbe && !c.recvProbe && !c.biDirectional
  {
  }

  /*------------------------------- the class --------------------------------*/

  class UserDef {
    const name: string
    /** meta-parameter names and types (`pn`, `pt`; `nt` is their number) */
    var pn: seq<string>
    var pt: seq<InstType>
    /** port names and types (`port_n`, `port_t`; `nports`) */
    var portN: seq<string>
    var portT: seq<InstType>
    /** the names declared in the type's scope, with their types */
    var scope: map<string, InstType>
    /** the scope slots marked immutable */
    var immutable: set<string>
    var expanded: bool
    var pending: bool
    /** the names of the user macros, in creation order */
    var macros: seq<string>
    var parent: Option<ParentType>
    /** `inherited_param` and `inherited_templ` */
    var inherited: seq<Option<Binding>>
    var inheritedTempl: nat

    ghost predicate Valid()
      reads this
    {
      |pn| == |pt| && |portN| == |portT|
    }

    /** A fresh, unexpanded type with empty tables. */
    constructor (n: string)
      ensures Valid() && name == n
      ensures pn == [] && pt == [] && portN == [] && portT == [] && scope == map[]
      ensures immutable == {} && !expanded && !pending && macros == []
      ensures parent.None? && inherited == [] && inheritedTempl == 0
    {
      name := n;
      pn, pt, portN, portT := [], [], [], [];
      scope := map[];
      immutable := {};
      expanded, pending := false, false;
      macros := [];
      parent := None;
      inherited, inheritedTempl := [], 0;
    }

    /** `AddMetaParam`: 0 and no change for a name that is already a
        meta-parameter or already declared in the scope; otherwise the name
        and type are appended and the scope slot is declared (immutable when
        the type is expanded), and the result is 1. */
    method AddMetaParam(t: InstType, id: string) returns (r: int)
      requires Valid()
      modifies this
      ensures Valid()
      ensures r == 0 || r == 1
      ensures r == 0 <==> id in old(pn) || id in old(scope)
      ensures r == 0 ==> pn == old(pn) && pt == old(pt) && scope == old(scope) && immutable == old(immutable)
      ensures r == 1 ==> pn == old(pn) + [id] && pt == old(pt) + [t] && scope == old(scope)[id := t]
      ensures r == 1 ==> immutable == if expanded then old(immutable) + {id} else old(immutable)
      ensures portN == old(portN) && portT == old(portT) && expanded == old(expanded)
      ensures pending == old(pending) && macros == old(macros) && parent == old(parent)
      ensures inherited == old(inherited) && inheritedTempl == old(inheritedTempl)
    {
      var i := 0;
      while i < |pn|
        invariant 0 <= i <= |pn|
        invariant id !in pn[..i]
      {
        if pn[i] == id {
          return 0;
        }
        i := i + 1;
      }
      assert pn[..i] == pn;
      if id in scope {
        return 0;
      }
      scope := scope[id := t];
      if expanded {
        immutable := immutable + {id};
      }
      pn := pn + [id];
      pt := pt + [t];
      r := 1;
    }

    /** `AddPort`: 0 and no change for a name that is already a
        meta-parameter, a port, or declared in the scope; otherwise the port
        is appended at position `nports`. */
    method AddPort(t: InstType, id: string) returns (r: int)
      requires Valid()
      modifies this
      ensures Valid()
      ensures r == 0 || r == 1
      ensures r == 0 <==> id in old(pn) || id in old(portN) || id in old(scope)
      ensures r == 0 ==> portN == old(portN) && portT == old(portT) && scope == old(scope)
      ensures r == 1 ==> portN == old(portN) + [id] && portT == old(portT) + [t] && scope == old(scope)[id := t]
      ensures pn == old(pn) && pt == old(pt) && immutable == old(immutable) && expanded == old(expanded)
      ensures pending == old(pending) && macros == old(macros) && parent == old(parent)
      ensures inherited == old(inherited) && inheritedTempl == old(inheritedTempl)
    {
      var i := 0;
      while i < |pn|
        invariant 0 <= i <= |pn|
        invariant id !in pn[..i]
      {
        if pn[i] == id {
          return 0;
        }
        i := i + 1;
      }
      assert pn[..i] == pn;
      i := 0;
      while i < |portN|
        invariant 0 <= i <= |portN|
        invariant id !in portN[..i]
      {
        if portN[i] == id {
          return 0;
        }
        i := i + 1;
      }
      assert portN[..i] == portN;
      if id in scope {
        return 0;
      }
      scope := scope[id := t];
      portN := portN + [id];
      portT := portT + [t];
      r := 1;
    }

    /** `FindPort`: meta-parameters are searched first. */
    method FindPort(id: string) returns (r: int)
      ensures r == PortCode(pn, portN, id)
    {
      var i := 0;
      while i < |pn|
        invariant 0 <= i <= |pn|
        invariant id !in pn[..i]
      {
        if pn[i] == id {
          return -(i + 1);
        }
        i := i + 1;
      }
      assert pn[..i] == pn;
      i := 0;
      while i < |portN|
        invariant 0 <= i <= |portN|
        invariant id !in portN[..i]
      {
        if portN[i] == id {
          return i + 1;
        }
        i := i + 1;
      }
      assert portN[..i] == portN;
      r := 0;
    }

    function GetPortName(pos: int): (r: Result<string>)
      reads this
      ensures r == PortAt(pn, portN, pos)
    {
      PortAt(pn, portN, pos)
    }

    function GetPortType(pos: int): (r: Result<InstType>)
      reads this
      ensures r == PortAt(pt, portT, pos)
    {
      PortAt(pt, portT, pos)
    }

    /** `isStrictPort`: the name is a meta-parameter. */
    method IsStrictPort(s: string) returns (r: int)
      ensures r == 0 || r == 1
      ensures r == 1 <==> s in pn
    {
      var i := 0;
      while i < |pn|
        invariant 0 <= i <= |pn|
        invariant s !in pn[..i]
      {
        if s == pn[i] {
          return 1;
        }
        i := i + 1;
      }
      assert pn[..i] == pn;
      r := 0;
    }

    /** `isPort`: the name is a port or a meta-parameter. */
    method IsPort(s: string) returns (r: int)
      ensures r == 0 || r == 1
      ensures r == 1 <==> s in portN || s in pn
    {
      var i := 0;
      while i < |portN|
        invariant 0 <= i <= |portN|
        invariant s !in portN[..i]
      {
        if s == portN[i] {
          return 1;
        }
        i := i + 1;
      }
      assert portN[..i] == portN;
      i := 0;
      while i < |pn|
        invariant 0 <= i <= |pn|
        invariant s !in pn[..i]
      {
        if s == pn[i] {
          return 1;
        }
        i := i + 1;
      }
      assert pn[..i] == pn;
      r := 0;
    }

    /** `newMacro`: -1 (no macro) when the name is taken, otherwise the new
        macro's position at the end of the list. */
    method NewMacro(m: string) returns (r: int)
      modifies this
      ensures r == -1 <==> m in old(macros)
      ensures r == -1 ==> macros == old(macros)
      ensures r != -1 ==> macros == old(macros) + [m] && r == |old(macros)|
      ensures pn == old(pn) && pt == old(pt) && portN == old(portN) && portT == old(portT)
      ensures scope == old(scope) && immutable == old(immutable) && expanded == old(expanded)
      ensures pending == old(pending) && parent == old(parent)
      ensures inherited == old(inherited) && inheritedTempl == old(inheritedTempl)
    {
      var i := 0;
      while i < |macros|
        invariant 0 <= i <= |macros|
        invariant m !in macros[..i]
      {
        if macros[i] == m {
          return -1;
        }
        i := i + 1;
      }
      assert macros[..i] == macros;
      macros := macros + [m];
      r := |macros| - 1;
    }

    /** `getMacro`: the position of the macro with that name, or -1. */
    method GetMacro(m: string) returns (r: int)
      ensures r == IndexIn(macros, m)
    {
      var i := 0;
      while i < |macros|
        invariant 0 <= i <= |macros|
        invariant m !in macros[..i]
        invariant IndexIn(macros, m) == -1 || IndexIn(macros, m) >= i
      {
        if macros[i] == m {
          return i;
        }
        i := i + 1;
      }
      assert macros[..i] == macros;
      r := -1;
    }

    /** `SetParent`: records the parent type and, when its base is a user type
        with meta-parameters and there is something to inherit, rebuilds the
        inherited-parameter table (`Inherit`). */
    method SetParent(t: Option<ParentType>) returns (res: Result<()>)
      requires Valid()
      modifies this
      ensures Valid() && parent == t
      ensures pn == old(pn) && pt == old(pt) && portN == old(portN) && portT == old(portT)
      ensures scope == old(scope) && macros == old(macros) && expanded == old(expanded)
      ensures InheritFor(|pn|, t).None? ==>
        res.Ok? && inherited == old(inherited) && inheritedTempl == old(inheritedTempl)
      ensures InheritFor(|pn|, t).Some? && InheritFor(|pn|, t).value.Err? ==>
        res == Err(InheritFor(|pn|, t).value.error)
      ensures InheritFor(|pn|, t).Some? && InheritFor(|pn|, t).value.Ok? ==>
        res.Ok? && inherited == InheritFor(|pn|, t).value.value &&
        inheritedTempl == old(inheritedTempl) + t.value.def.value.inheritedTempl + |t.value.params|
    {
      parent := t;
      if t.None? || t.value.def.None? {
        return Ok(());
      }
      var x := t.value.def.value;
      var ps := t.value.params;
      if !(x.numParams > 0 && (x.inheritedTempl > 0 || |ps| > 0)) {
        return Ok(());
      }
      var nt := |pn|;
      assert InheritFor(nt, t) == Some(Inherit(nt, x, ps));
      if nt < x.numParams {
        return Err(Internal("parent has more parameters than the type"));
      }
      if x.inheritedTempl > |x.inherited| || nt - x.numParams + x.inheritedTempl > nt {
        return Err(Internal("inherited parameter out of range"));
      }
      var base := nt - x.numParams;
      var inh := SeedInherited(nt, base, x);
      var placed := PlaceParams(inh, base, ps);
      assert placed == Inherit(nt, x, ps);
      if placed.Err? {
        return Err(placed.error);
      }
      inherited := placed.value;
      inheritedTempl := inheritedTempl + x.inheritedTempl + |ps|;
      res := Ok(());
    }
  }

  /** The first loop of `SetParent`: the parent's own inherited
      parameters, copied into the slots of its meta-parameters. */
  method SeedInherited(nt: nat, base: nat, x: ParentDef) returns (inh: seq<Option<Binding>>)
    requires base + x.inheritedTempl <= nt && x.inheritedTempl <= |x.inherited|
    ensures inh == seq(nt, k requires 0 <= k < nt =>
      if base <= k < base + x.inheritedTempl then x.inherited[k - base] else None)
  {
    inh := seq(nt, k => None);
    var j := 0;
    while j < x.inheritedTempl
      invariant 0 <= j <= x.inheritedTempl && |inh| == nt
      invariant forall k :: 0 <= k < nt ==>
        inh[k] == if base <= k < base + j then x.inherited[k - base] else None
    {
      inh := inh[base + j := x.inherited[j]];
      j := j + 1;
    }
  }

  /** The second loop of `SetParent`: each new argument into the next free
      slot from `base` on. */
  method PlaceParams(inh0: seq<Option<Binding>>, base: nat, ps: seq<Binding>) returns (r: Result<seq<Option<Binding>>>)
    requires base <= |inh0|
    ensures r == Place(inh0, base, ps, 0)
  {
    var inh := inh0;
    var i := base;
    var j := 0;
    while j < |ps|
      invariant 0 <= j <= |ps| && base <= i <= |inh| && |inh| == |inh0|
      invariant Place(inh0, base, ps, 0) == Place(inh, i, ps, j)
    {
      ghost var i0 := i;
      while i < |inh| && inh[i].Some?
        invariant i0 <= i <= |inh|
        invariant FreeFrom(inh, i) == FreeFrom(inh, i0)
      {
        i := i + 1;
      }
      if i == |inh| {
        return Err(Fatal("Too many template parameters specified?"));
      }
      inh := inh[i := Some(ps[j])];
      i := i + 1;
      j := j + 1;
    }
    r := Ok(inh);
  }

  /** The table `SetParent` builds for parent `t`, or `None` when it keeps the
      old one. */
  function InheritFor(nt: nat, t: Option<ParentType>): Option<Result<seq<Option<Binding>>>> {
    if t.None? || t.value.def.None? then None
    else
      var x := t.value.def.value;
      if !(x.numParams > 0 && (x.inheritedTempl > 0 || |t.value.params| > 0)) then None
      else Some(Inherit(nt, x, t.value.params))
  }
}
