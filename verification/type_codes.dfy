/**
 * Type codes used by the type checker (`T_*` macros) and the layout of the
 * built-in channel/data-type method tables.
 */
module TypeCodes {

  import opened Common

  const T_ERR: int := -1
  const T_INT: int := 0x1
  const T_REAL: int := 0x2
  const T_BOOL: int := 0x4
  const T_PROC: int := 0x5
  const T_CHAN: int := 0x6
  const T_DATA_INT: int := 0x7
  const T_DATA_BOOL: int := 0x8
  const T_SELF: int := 0x9
  const T_DATA: int := 0xa
  const T_PTYPE: int := 0x10
  const T_ARRAYOF: int := 0x20
  const T_STRICT: int := 0x40
  const T_PARAM: int := 0x80

  /** Codes are C `int`s. */
  newtype int32 = x: int | -0x8000_0000 <= x < 0x8000_0000

  /** `x & 0x1f`: the low five bits of a two's-complement integer.  For a
      non-negative modulus Dafny's `%` is Euclidean, so `x % 32` is exactly
      the value of those five bits, negative `x` included. */
  function BaseType(x: int32): (r: int)
    ensures 0 <= r < 0x20
    ensures (x as int - r) % 0x20 == 0
  {
    x as int % 0x20
  }

  /** The data-type variants of int and bool fold onto `T_INT`/`T_BOOL`. */
  function FixBaseType(x: int32): (r: int)
    ensures 0 <= r < 0x20
    ensures r != T_DATA_BOOL && r != T_DATA_INT
    ensures BaseType(x) == T_DATA_BOOL ==> r == T_BOOL
    ensures BaseType(x) == T_DATA_INT ==> r == T_INT
    ensures BaseType(x) != T_DATA_BOOL && BaseType(x) != T_DATA_INT ==> r == BaseType(x)
  {
    if BaseType(x) == T_DATA_BOOL then T_BOOL
    else if BaseType(x) == T_DATA_INT then T_INT
    else BaseType(x)
  }

  predicate BaseTypeIsNum(x: int32) {
    FixBaseType(x) == T_INT || BaseType(x) == T_REAL
  }

  predicate BaseTypeIsIntBool(x: int32) {
    FixBaseType(x) == T_INT || FixBaseType(x) == T_BOOL
  }

  /** `T_BASETYPE_ISNUM` holds exactly for the int-like codes and reals. */
  lemma BaseTypeIsNumExactly(x: int32)
    ensures BaseTypeIsNum(x) <==> BaseType(x) in {T_INT, T_DATA_INT, T_REAL}
  {
  }

  /** `T_BASETYPE_ISINTBOOL` holds exactly for ints, bools and their data variants. */
  lemma BaseTypeIsIntBoolExactly(x: int32)
    ensures BaseTypeIsIntBool(x) <==> BaseType(x) in {T_INT, T_DATA_INT, T_BOOL, T_DATA_BOOL}
  {
  }

  /** The flag bits `T_ARRAYOF`, `T_STRICT` and `T_PARAM` (multiples of 0x20)
      never change the base type; so folding twice is folding once. */
  lemma {:induction false} FlagsKeepBaseType(b: int, k: int)
    requires 0 <= b < 0x20
    requires -0x8000_0000 <= b + 0x20 * k < 0x8000_0000
    ensures BaseType((b + 0x20 * k) as int32) == b
  {
    var x := b + 0x20 * k;
    assert x == b + 0x20 * k;
    assert (x - b) == 0x20 * k;
  }

  lemma FixBaseTypeIdempotent(x: int32)
    ensures FixBaseType(FixBaseType(x) as int32) == FixBaseType(x)
  {
  }

  /*---------------------------- built-in methods ----------------------------*/

  const ACT_NUM_STD_METHODS: int := 8
  const ACT_NUM_EXPR_METHODS: int := 2

  const ACT_METHOD_SET: int := 0
  const ACT_METHOD_GET: int := 1
  const ACT_METHOD_SEND_REST: int := 2
  const ACT_METHOD_RECV_REST: int := 3
  const ACT_METHOD_SEND_UP: int := 4
  const ACT_METHOD_RECV_UP: int := 5
  const ACT_METHOD_SEND_INIT: int := 6
  const ACT_METHOD_RECV_INIT: int := 7
  const ACT_METHOD_SEND_PROBE: int := 0 + ACT_NUM_STD_METHODS
  const ACT_METHOD_RECV_PROBE: int := 1 + ACT_NUM_STD_METHODS

  const BuiltinMethodName: seq<string> :=
    ["set", "get", "send_rest", "recv_rest", "send_up", "recv_up", "send_init", "recv_init"]
  const BuiltinMethodExpr: seq<string> := ["send_probe", "recv_probe"]

  /** Expression methods (the probes) live in their own table, at
      `t - ACT_NUM_STD_METHODS`. */
  function ExprMethodSlot(t: int): (r: nat)
    requires ACT_NUM_STD_METHODS <= t < ACT_NUM_STD_METHODS + ACT_NUM_EXPR_METHODS
    ensures r < ACT_NUM_EXPR_METHODS
    ensures r + ACT_NUM_STD_METHODS == t
  {
    t - ACT_NUM_STD_METHODS
  }

  lemma ProbeSlots()
    ensures ACT_METHOD_SEND_PROBE == 8 && ACT_METHOD_RECV_PROBE == 9
    ensures ExprMethodSlot(ACT_METHOD_SEND_PROBE) == 0 && ExprMethodSlot(ACT_METHOD_RECV_PROBE) == 1
    ensures |BuiltinMethodName| == ACT_NUM_STD_METHODS && |BuiltinMethodExpr| == ACT_NUM_EXPR_METHODS
    ensures BuiltinMethodExpr[ExprMethodSlot(ACT_METHOD_SEND_PROBE)] == "send_probe"
  {
  }

  /*------------------------------- channels ---------------------------------*/

  /** An expanded `chan(T)` or exchange channel `chan(T, A)`; types are named. */
  datatype Chan = Chan(data: string, ack: Option<string>)

  function IsBiDirectional(c: Chan): (r: int)
    ensures r == 0 || r == 1
    ensures r == 1 <==> c.ack.Some?
  {
    if c.ack.None? then 0 else 1
  }
}
