/**
 * Technology-file accessors: the memoised minimum of a range table, and the
 * small getters with defaults on contacts, poly and routing materials.
 */
module Tech {

  import opened Common

  /*------------------------------ range tables ------------------------------*/

  /** One comparison step of the scan: `-1` stands for "nothing seen yet". */
  function MinStep(m: int, x: int): (r: int)
    ensures m == -1 ==> r == x
    ensures m != -1 ==> r == (if x < m then x else m)
  {
    if m == -1 then x else if x < m then x else m
  }

  /** The value the scan over `table[i], table[i+2], ...` (below `sz`) reaches from `m`. */
  function ScanOdd(table: seq<int>, sz: int, i: nat, m: int): int
    requires sz <= |table|
    decreases sz - i
  {
    if i < sz then ScanOdd(table, sz, i + 2, MinStep(m, table[i])) else m
  }

  /** What `min()` computes when nothing is cached yet; `m0` is the field's value on entry. */
  function RangeMin(table: seq<int>, sz: int, m0: int): int
    requires sz <= |table|
    requires sz == 1 ==> 1 <= |table|
  {
    ScanOdd(table, sz, 1, if sz == 1 then table[0] else m0)
  }

  class RangeTable {
    const sz: int
    const table: seq<int>
    var minval: int

    constructor (s: int, tab: seq<int>)
      ensures sz == s && table == tab && minval == -1
    {
      sz := s;
      table := tab;
      minval := -1;
    }

    /** `min()`: a non-negative cached value is returned unchanged; otherwise
        the scan over the odd entries is run again, starting from the cached
        value (or from `table[0]` for a one-entry table). */
    method Min() returns (r: int)
      requires sz <= |table|
      modifies this
      ensures old(minval) >= 0 ==> r == old(minval)
      ensures old(minval) < 0 ==> r == RangeMin(table, sz, old(minval))
      ensures minval == r
    {
      if minval >= 0 {
        return minval;
      }
      if sz == 1 {
        minval := table[0];
      }
      ghost var m0 := minval;
      var i := 1;
      while i < sz
        invariant 1 <= i && i % 2 == 1
        invariant ScanOdd(table, sz, i, minval) == ScanOdd(table, sz, 1, m0)
        decreases sz - i
      {
        if minval == -1 {
          minval := table[i];
        } else if table[i] < minval {
          minval := table[i];
        }
        i := i + 2;
      }
      return minval;
    }
  }

  /** Over non-negative entries the fold from "nothing seen" is the least odd entry. */
  lemma {:induction false} ScanOddIsMinimum(table: seq<int>, sz: int, i: nat, m: int)
    requires sz <= |table| && i % 2 == 1
    requires forall j :: 1 <= j < sz && j % 2 == 1 ==> table[j] >= 0
    requires m == -1 ==> i < sz
    requires m != -1 ==> m >= 0 && exists j :: 1 <= j < i && j < sz && j % 2 == 1 && table[j] == m
    requires m != -1 ==> forall j :: 1 <= j < i && j < sz && j % 2 == 1 ==> m <= table[j]
    requires m == -1 ==> i == 1
    ensures var r := ScanOdd(table, sz, i, m);
      r >= 0 &&
      (exists j :: 1 <= j < sz && j % 2 == 1 && table[j] == r) &&
      (forall j :: 1 <= j < sz && j % 2 == 1 ==> r <= table[j])
    decreases sz - i
  {
    if i < sz {
      var m' := MinStep(m, table[i]);
      assert m' >= 0;
      assert exists j :: 1 <= j < i + 2 && j < sz && j % 2 == 1 && table[j] == m' by {
        if m == -1 || table[i] < m {
          assert table[i] == m';
        } else {
          var j :| 1 <= j < i && j < sz && j % 2 == 1 && table[j] == m;
          assert table[j] == m';
        }
      }
      assert forall j :: 1 <= j < i + 2 && j < sz && j % 2 == 1 ==> m' <= table[j] by {
        forall j | 1 <= j < i + 2 && j < sz && j % 2 == 1
          ensures m' <= table[j]
        {
          if j < i {
            assert m != -1;
          } else {
            assert j == i;
          }
        }
      }
      ScanOddIsMinimum(table, sz, i + 2, m');
    } else {
      assert m != -1;
      var j :| 1 <= j < i && j < sz && j % 2 == 1 && table[j] == m;
    }
  }

  /** For a fresh table of at least two entries that are all non-negative,
      `min()` is the smallest of `table[1], table[3], ...`, and being
      non-negative it is cached for every later call. */
  lemma FreshRangeMinIsOddMinimum(table: seq<int>, sz: int)
    requires 2 <= sz <= |table|
    requires forall j :: 1 <= j < sz && j % 2 == 1 ==> table[j] >= 0
    ensures var r := RangeMin(table, sz, -1);
      r >= 0 &&
      (exists j :: 1 <= j < sz && j % 2 == 1 && table[j] == r) &&
      (forall j :: 1 <= j < sz && j % 2 == 1 ==> r <= table[j])
  {
    ScanOddIsMinimum(table, sz, 1, -1);
  }

  /** A one-entry table's minimum is its only entry. */
  lemma SingleEntryRangeMin(table: seq<int>, m0: int)
    requires 1 <= |table|
    ensures RangeMin(table, 1, m0) == table[0]
  {
  }

  /*-------------------------------- contacts --------------------------------*/

  datatype Contact = Contact(name: string, symSurroundUp: int, symSurroundDn: int,
                             asymSurroundUp: int, asymSurroundDn: int, lefWidth: int)

  /** The constructor zeroes both asymmetric surrounds. */
  function NewContact(name: string, symUp: int, symDn: int): (c: Contact)
    ensures c.name == name && c.asymSurroundUp == 0 && c.asymSurroundDn == 0 && c.lefWidth == 0
  {
    Contact(name, symUp, symDn, 0, 0, 0)
  }

  predicate IsSym(c: Contact) {
    c.asymSurroundUp == 0 && c.asymSurroundDn == 0
  }

  predicate IsAsym(c: Contact) {
    !IsSym(c)
  }

  /** A contact is symmetric exactly when it has no asymmetric surround, and
      exactly one of `isSym`/`isAsym` holds; a freshly built contact is symmetric. */
  lemma ContactSymmetry(c: Contact, name: string, symUp: int, symDn: int)
    ensures IsSym(c) <==> c.asymSurroundUp == 0 && c.asymSurroundDn == 0
    ensures IsAsym(c) <==> !IsSym(c)
    ensures IsSym(NewContact(name, symUp, symDn))
  {
  }

  /*--------------------------- poly and routing -----------------------------*/

  /** `via_n`/`via_p` are optional tables indexed by diffusion type. */
  datatype PolyMat = PolyMat(viaN: Option<seq<int>>, viaP: Option<seq<int>>)

  function ViaSpacing(tab: Option<seq<int>>, ty: int): (r: int)
    requires tab.Some? ==> 0 <= ty < |tab.value|
    ensures tab.None? ==> r == 1
    ensures tab.Some? ==> r == tab.value[ty]
  {
    if tab.None? then 1 else tab.value[ty]
  }

  function GetViaNSpacing(p: PolyMat, ty: int): (r: int)
    requires p.viaN.Some? ==> 0 <= ty < |p.viaN.value|
    ensures p.viaN.None? ==> r == 1
    ensures p.viaN.Some? ==> r == p.viaN.value[ty]
  {
    ViaSpacing(p.viaN, ty)
  }

  function GetViaPSpacing(p: PolyMat, ty: int): (r: int)
    requires p.viaP.Some? ==> 0 <= ty < |p.viaP.value|
    ensures p.viaP.None? ==> r == 1
    ensures p.viaP.Some? ==> r == p.viaP.value[ty]
  {
    ViaSpacing(p.viaP, ty)
  }

  /** A routing material: `runlength` (-1 when there is no run-length rule),
      the width-spacing table and the auxiliary run-length tables.  The
      tables' `size()` is given as `spacingWSize`, because `RangeTable::size`
      lives outside the header. */
  datatype RoutingMat<T> = RoutingMat(runlength: int, spacingW: T, spacingWSize: int, spacingAux: seq<T>)

  predicate IsComplexSpacing<T>(m: RoutingMat<T>) {
    m.runlength != -1 || m.spacingWSize > 1
  }

  function GetRunTable<T>(m: RoutingMat<T>, w: nat): (r: T)
    requires w <= |m.spacingAux|
    ensures r == ([m.spacingW] + m.spacingAux)[w]
  {
    if w == 0 then m.spacingW else m.spacingAux[w - 1]
  }

  /** Simple spacing is exactly: no run-length rule and at most one width entry. */
  lemma SimpleSpacing<T>(m: RoutingMat<T>)
    ensures !IsComplexSpacing(m) <==> m.runlength == -1 && m.spacingWSize <= 1
  {
  }
}
