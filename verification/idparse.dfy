/**
 * `ActId::parseId`: the parser of identifier text, working in place on a
 * NUL-terminated character buffer.  It cuts the buffer at each delimiter
 * and at the first `[` of a segment by writing a NUL there, reads the
 * pieces as C strings, and puts every character it overwrote back, on the
 * error paths too.  Each method is proved to compute what the function
 * `ParseSegs` of module `Paths` gives for the text in the buffer.
 */
module IdParse {

  import opened Common
  import opened Arrays
  import opened Paths
  import opened CBuf
  import opened Ids

  /** `o` with `xs` in front of the list it holds, if any. */
  function Prefixed<T>(xs: seq<T>, o: Option<seq<T>>): (r: Option<seq<T>>)
    ensures r.Some? <==> o.Some?
    ensures r.Some? ==> |r.value| == |xs| + |o.value| && r.value[..|xs|] == xs && r.value[|xs|..] == o.value
  {
    match o
    case None => None
    case Some(ys) => Some(xs + ys)
  }

  lemma PrefixedAppend<T>(xs: seq<T>, ys: seq<T>, o: Option<seq<T>>)
    ensures Prefixed(xs, Prefixed(ys, o)) == Prefixed(xs + ys, o)
  {
    if o.Some? {
      assert xs + (ys + o.value) == (xs + ys) + o.value;
    }
  }

  /** `s[from..]` holds the C string `u`: its characters, then a NUL. */
  ghost predicate HoldsAt(s: array<char>, from: nat, u: string)
    reads s
  {
    from + |u| < s.Length && (forall j :: from <= j < from + |u| ==> s[j] == u[j - from]) &&
    s[from + |u|] == '\0' && '\0' !in u
  }

  /** The C string at `from` is the one `HoldsAt` names. */
  lemma HoldsAtCStr(s: array<char>, from: nat, u: string)
    requires HoldsAt(s, from, u)
    ensures CStr(s[from..]) == u
  {
    assert s[from..][..|u|] == u;
    CStrAt(s[from..], |u|);
  }

  /** The text after `j` characters of a held string is held after them. */
  lemma HoldsAtSuffix(s: array<char>, from: nat, u: string, j: nat)
    requires HoldsAt(s, from, u) && j <= |u|
    ensures HoldsAt(s, from + j, u[j..])
  {
    forall k | from + j <= k < from + |u|
      ensures s[k] == u[j..][k - (from + j)]
    {
      assert s[k] == u[k - from];
    }
  }

  /** The first loop of `parseId`: the offset of the first `d1` or `d2` of
      the C string at `from`, or -1; `which` is 1 for `d1` and 2 for `d2`. */
  method ScanDelim(s: array<char>, from: nat, d1: char, d2: char, ghost u: string)
    returns (nextdot: int, which: int)
    requires HoldsAt(s, from, u)
    ensures nextdot == FindDelim(u, d1, d2, 0)
    ensures nextdot != -1 ==> (which == 1 ==> u[nextdot] == d1) && (which != 1 ==> which == 2 && u[nextdot] == d2)
  {
    nextdot, which := -1, 1;
    var i := 0;
    while s[from + i] != '\0'
      invariant 0 <= i <= |u|
      invariant forall j :: 0 <= j < i ==> u[j] != d1 && u[j] != d2
      decreases |u| - i
    {
      assert s[from + i] == u[i];
      if s[from + i] == d1 {
        nextdot, which := i, 1;
        return;
      } else if s[from + i] == d2 {
        nextdot, which := i, 2;
        return;
      }
      i := i + 1;
    }
  }

  /** `strlen (s)` for the C string at `from`. */
  method StrLen(s: array<char>, from: nat, ghost u: string) returns (len: nat)
    requires HoldsAt(s, from, u)
    ensures len == |u|
  {
    len := 0;
    while s[from + len] != '\0'
      invariant len <= |u|
      decreases |u| - len
    {
      if len == |u| {
        assert false;
      }
      assert s[from + len] == u[len];
      len := len + 1;
    }
  }

  /** The scan for the first `aL` among the `len` characters at `from`. */
  method ScanOpen(s: array<char>, from: nat, len: nat, aL: char, ghost seg: string)
    returns (ai: int)
    requires HoldsAt(s, from, seg) && len == |seg|
    ensures ai == IndexOf(seg, aL, 0)
  {
    ai := -1;
    var i := 0;
    while i < len
      invariant 0 <= i <= len
      invariant forall j :: 0 <= j < i ==> seg[j] != aL
    {
      assert s[from + i] == seg[i];
      if s[from + i] == aL {
        ai := i;
        return;
      }
      i := i + 1;
    }
  }

  /** The digit loop of the subscript parser: the first index at or after
      `i0` and before `end` that is not a digit, or `end`. */
  method SkipDigitsAt(s: array<char>, from: nat, i0: nat, end: nat, ghost w: string) returns (i: nat)
    requires HoldsAt(s, from, w) && end == from + |w| && from <= i0 <= end
    ensures i == from + SkipDigits(w, i0 - from)
    ensures i < end ==> s[i] == w[i - from]
  {
    i := i0;
    while i < end && IsDigit(s[i])
      invariant i0 <= i <= end
      invariant forall j :: i0 - from <= j < i - from ==> IsDigit(w[j])
      decreases end - i
    {
      assert s[i] == w[i - from];
      i := i + 1;
    }
    if i < end {
      assert s[i] == w[i - from];
    }
    SkippedAreDigits(w, i0 - from);
  }

  /** Reads the C string at `from` (`new ActId (s, NULL)` copies it). */
  method ReadStr(s: array<char>, from: nat, ghost u: string) returns (t: string)
    requires HoldsAt(s, from, u)
    ensures t == u
  {
    var n := StrLen(s, from, u);
    t := s[from..from + n];
  }

  /** `ParseSubs` fails when the first index is not closed by `aR`. */
  lemma ParseSubsBad(v: string, aL: char, aR: char)
    requires |v| >= 1
    requires SkipDigits(v, 1) == |v| || v[SkipDigits(v, 1)] != aR
    ensures ParseSubs(v, aL, aR) == None
  {
  }

  /** `ParseSubs` after a closed first index at `i`: the index, then more
      subscripts, or the end of the segment, or a failure. */
  lemma ParseSubsNext(v: string, aL: char, aR: char, i: nat)
    requires |v| >= 1 && i == SkipDigits(v, 1) && i < |v| && v[i] == aR
    ensures i + 1 < |v| && v[i + 1] == aL ==>
      ParseSubs(v, aL, aR) == Prefixed([Index(Const(Atoi(v[1..])))], ParseSubs(v[i + 1..], aL, aR))
    ensures i + 1 < |v| && v[i + 1] != aL ==> ParseSubs(v, aL, aR) == None
    ensures i + 1 == |v| ==> ParseSubs(v, aL, aR) == Some([Index(Const(Atoi(v[1..])))])
  {
  }

  /** One `[digits]` of the subscript loop, at `ai`: where the closing
      `aR` is and the index it gives, or none when it is malformed. */
  method SubStep(s: array<char>, ai: nat, end: nat, aL: char, aR: char, ghost v: string)
    returns (i: nat, d: Option<Dim>)
    requires HoldsAt(s, ai, v) && end == ai + |v| && |v| >= 1 && v[0] == aL
    ensures d.None? ==> ParseSubs(v, aL, aR) == None
    ensures d.Some? ==> i == ai + SkipDigits(v, 1) && i < end && v[i - ai] == aR
    ensures d.Some? ==> d.value == Index(Const(Atoi(v[1..])))
  {
    i := SkipDigitsAt(s, ai, ai + 1, end, v);
    if i == end || s[i] != aR {
      ParseSubsBad(v, aL, aR);
      return i, None;
    }
    HoldsAtSuffix(s, ai, v, 1);
    HoldsAtCStr(s, ai + 1, v[1..]);
    var n := Atoi(CStr(s[ai + 1..]));
    d := Some(Index(Const(n)));
  }

  /** The subscript loop of `parseId`, on the segment text `w` held at
      `from` (its first character is `aL`) and ending at `end`. */
  method ParseSubsIn(s: array<char>, from: nat, end: nat, aL: char, aR: char, ghost w: string)
    returns (r: Option<seq<Dim>>)
    requires HoldsAt(s, from, w) && end == from + |w| && |w| >= 1 && w[0] == aL
    ensures r == ParseSubs(w, aL, aR)
  {
    var dims: seq<Dim> := [];
    var ai := from;
    while true
      invariant from <= ai < end && s[ai] == aL
      invariant ParseSubs(w, aL, aR) == Prefixed(dims, ParseSubs(w[ai - from..], aL, aR))
      decreases end - ai
    {
      ghost var a0 := ai;
      ghost var v := w[ai - from..];
      HoldsAtSuffix(s, from, w, ai - from);
      var i, d := SubStep(s, ai, end, aL, aR, v);
      if d.None? {
        assert ParseSubs(v, aL, aR) == None;
        return None;
      }
      ParseSubsNext(v, aL, aR, i - ai);
      ghost var dims0 := dims;
      dims := dims + [d.value];
      ai := i + 1;
      if s[ai] != aL {
        if s[ai] != '\0' {
          assert ai < end && s[ai] == v[ai - a0];
          assert ParseSubs(v, aL, aR) == None;
          return None;
        }
        assert ai == end;
        assert ParseSubs(v, aL, aR) == Some([d.value]);
        return Some(dims);
      }
      assert ai < end;
      assert v[i - a0 + 1..] == w[ai - from..];
      PrefixedAppend(dims0, [d.value], ParseSubs(w[ai - from..], aL, aR));
    }
  }

  /** The C string of a buffer that holds a NUL ends at its first NUL. */
  lemma {:induction false} CStrNul(b: seq<char>)
    requires '\0' in b
    ensures |CStr(b)| < |b| && b[|CStr(b)|] == '\0' && b[..|CStr(b)|] == CStr(b)
  {
    if b[0] != '\0' {
      assert '\0' in b[1..] by {
        var j :| 0 <= j < |b| && b[j] == '\0';
        assert b[1..][j - 1] == '\0';
      }
      CStrNul(b[1..]);
      assert b[..|CStr(b)|] == [b[0]] + b[1..][..|CStr(b[1..])|];
    }
  }

  /** A buffer with a NUL holds its C string from the start. */
  lemma HoldsCStr(s: array<char>)
    requires '\0' in s[..]
    ensures HoldsAt(s, 0, CStr(s[..]))
  {
    CStrNul(s[..]);
    var u := CStr(s[..]);
    forall j | 0 <= j < |u|
      ensures s[j] == u[j - 0]
    {
      assert s[..][..|u|][j] == s[j];
    }
  }

  /** One segment of `parseId`, the `len` characters held at `from`: its
      name up to the first `aL`, read while a NUL stands in for that `aL`,
      then its subscripts.  The buffer is as it was afterwards. */
  method ParseSegIn(s: array<char>, from: nat, len: nat, aL: char, aR: char, ghost seg: string)
    returns (r: Option<Seg>)
    requires HoldsAt(s, from, seg) && len == |seg|
    modifies s
    ensures s[..] == old(s[..])
    ensures r == ParseSeg(seg, aL, aR)
  {
    var ai := ScanOpen(s, from, len, aL, seg);
    if ai == -1 {
      var nm := ReadStr(s, from, seg);
      return Some(Seg(nm, None));
    }
    s[from + ai] := '\0';
    assert HoldsAt(s, from, seg[..ai]);
    var nm := ReadStr(s, from, seg[..ai]);
    s[from + ai] := aL;
    assert s[..] == old(s[..]);
    HoldsAtSuffix(s, from, seg, ai);
    var subs := ParseSubsIn(s, from + ai, from + len, aL, aR, seg[ai..]);
    if subs.None? {
      return None;
    }
    r := Some(Seg(nm, subs));
  }

  /** `ParseSegs` on text without a delimiter: its one segment. */
  lemma ParseSegsLast(u: string, d1: char, aL: char, aR: char, d2: char)
    requires FindDelim(u, d1, d2, 0) == -1
    ensures ParseSegs(u, d1, aL, aR, d2) == Prefixed1(ParseSeg(u, aL, aR))
  {
  }

  /** `ParseSegs` on text whose first delimiter is at `k`: the segment
      before it, then the segments after it. */
  lemma ParseSegsNext(u: string, d1: char, aL: char, aR: char, d2: char, k: nat)
    requires k == FindDelim(u, d1, d2, 0)
    ensures ParseSegs(u, d1, aL, aR, d2) ==
            Cons(ParseSeg(u[..k], aL, aR), ParseSegs(u[k + 1..], d1, aL, aR, d2))
  {
  }

  /** A list of one optional element. */
  function Prefixed1<T>(o: Option<T>): (r: Option<seq<T>>)
    ensures r.Some? <==> o.Some?
    ensures r.Some? ==> r.value == [o.value]
  {
    if o.None? then None else Some([o.value])
  }

  /** An optional element in front of an optional list. */
  function Cons<T>(o: Option<T>, rest: Option<seq<T>>): (r: Option<seq<T>>)
    ensures r.Some? <==> o.Some? && rest.Some?
    ensures r.Some? ==> r.value == [o.value] + rest.value
  {
    if o.None? then None else Prefixed([o.value], rest)
  }

  /** The body of the `parseId` loop for the text `u` held at `from`: find
      the next delimiter, cut the text there with a NUL, parse the segment
      before it, and put the delimiter back. */
  method SegmentAt(s: array<char>, from: nat, d1: char, aL: char, aR: char, d2: char, ghost u: string)
    returns (nextdot: int, r: Option<Seg>)
    requires HoldsAt(s, from, u)
    modifies s
    ensures s[..] == old(s[..])
    ensures nextdot == FindDelim(u, d1, d2, 0)
    ensures nextdot == -1 ==> r == ParseSeg(u, aL, aR)
    ensures nextdot != -1 ==> r == ParseSeg(u[..nextdot], aL, aR)
  {
    var which;
    nextdot, which := ScanDelim(s, from, d1, d2, u);
    if nextdot == -1 {
      var len := StrLen(s, from, u);
      r := ParseSegIn(s, from, len, aL, aR, u);
    } else {
      s[from + nextdot] := '\0';
      assert HoldsAt(s, from, u[..nextdot]);
      r := ParseSegIn(s, from, nextdot, aL, aR, u[..nextdot]);
      s[from + nextdot] := if which == 1 then d1 else d2;
      assert s[..] == old(s[..]);
    }
  }

  /** A subscript object for an optional subscript. */
  method MakeSub(sub: Option<seq<Dim>>) returns (a: Array?)
    ensures SubOf(a) == sub && fresh(ArraySet(a))
  {
    a := null;
    if sub.Some? {
      a := new Array(sub.value);
    }
  }

  /** A fresh list of nodes for a path, one node per segment. */
  method Build(p: Path) returns (r: ActId)
    requires |p| >= 1
    ensures r.Valid() && fresh(r.Repr) && r.Path() == p
    decreases |p|
  {
    var a := MakeSub(p[0].sub);
    r := new ActId(p[0].name, a);
    if |p| > 1 {
      var rest := Build(p[1..]);
      r.Link(rest);
      assert p == [p[0]] + p[1..];
    }
  }

  /** `parseId (char *s, delim1, arrayL, arrayR, delim2)`: the list for the
      text in `s`, or null when `s` is null or the text is malformed.  Every
      character overwritten while parsing is put back. */
  method ParseIdIn(s: array?<char>, d1: char, aL: char, aR: char, d2: char) returns (ret: ActId?)
    requires s != null ==> '\0' in s[..]
    modifies s
    ensures s == null ==> ret == null
    ensures s != null ==> s[..] == old(s[..])
    ensures s != null ==> (ret == null <==> ParseSegs(CStr(s[..]), d1, aL, aR, d2).None?)
    ensures ret != null ==>
      ret.Valid() && fresh(ret.Repr) && ParseSegs(CStr(s[..]), d1, aL, aR, d2) == Some(ret.Path())
  {
    if s == null {
      return null;
    }
    ghost var t := CStr(s[..]);
    HoldsCStr(s);
    var base := 0;
    var acc: seq<Seg> := [];
    while true
      invariant s[..] == old(s[..]) && base <= |t| && HoldsAt(s, base, t[base..])
      invariant ParseSegs(t, d1, aL, aR, d2) == Prefixed(acc, ParseSegs(t[base..], d1, aL, aR, d2))
      decreases |t| - base
    {
      ghost var u := t[base..];
      var nextdot, r := SegmentAt(s, base, d1, aL, aR, d2, u);
      if r.None? {
        if nextdot == -1 {
          ParseSegsLast(u, d1, aL, aR, d2);
        } else {
          ParseSegsNext(u, d1, aL, aR, d2, nextdot);
        }
        return null;
      }
      if nextdot == -1 {
        ParseSegsLast(u, d1, aL, aR, d2);
        PrefixedAppend(acc, [r.value], Some([]));
        ret := Build(acc + [r.value]);
        return;
      }
      ParseSegsNext(u, d1, aL, aR, d2, nextdot);
      ghost var rest := ParseSegs(u[nextdot + 1..], d1, aL, aR, d2);
      assert ParseSegs(u, d1, aL, aR, d2) == Prefixed([r.value], rest);
      PrefixedAppend(acc, [r.value], rest);
      acc := acc + [r.value];
      assert u[nextdot + 1..] == t[base + nextdot + 1..];
      HoldsAtSuffix(s, base, u, nextdot + 1);
      base := base + nextdot + 1;
      assert ParseSegs(t[base..], d1, aL, aR, d2) == rest;
    }
  }

  /** `parseId (char *s)`: the default delimiters `.`, `[`, `]`, `.`. */
  method ParseIdInDefault(s: array?<char>) returns (ret: ActId?)
    requires s != null ==> '\0' in s[..]
    modifies s
    ensures s == null ==> ret == null
    ensures s != null ==> s[..] == old(s[..])
    ensures s != null ==>
      (ret == null <==> ParseSegs(CStr(s[..]), DefaultDelim1, DefaultArrayL, DefaultArrayR, DefaultDelim2).None?)
    ensures ret != null ==>
      ret.Valid() && fresh(ret.Repr) &&
      ParseSegs(CStr(s[..]), DefaultDelim1, DefaultArrayL, DefaultArrayR, DefaultDelim2) == Some(ret.Path())
  {
    ret := ParseIdIn(s, DefaultDelim1, DefaultArrayL, DefaultArrayR, DefaultDelim2);
  }

  /** `Strdup`: a fresh NUL-terminated copy of a C string. */
  method Strdup(t: string) returns (b: array<char>)
    requires '\0' !in t
    ensures fresh(b) && HoldsAt(b, 0, t)
  {
    b := new char[|t| + 1](i => if 0 <= i < |t| then t[i] else '\0');
  }

  /** `parseId (const char *s, delim1, arrayL, arrayR, delim2)`: parses a
      copy of `s`; `None` stands for a null pointer. */
  method ParseId(s: Option<string>, d1: char, aL: char, aR: char, d2: char) returns (ret: ActId?)
    requires s.Some? ==> '\0' !in s.value
    ensures s.None? ==> ret == null
    ensures s.Some? ==> (ret == null <==> ParseSegs(s.value, d1, aL, aR, d2).None?)
    ensures ret != null ==> ret.Valid() && ParseSegs(s.value, d1, aL, aR, d2) == Some(ret.Path())
  {
    if s.None? {
      return null;
    }
    var t := Strdup(s.value);
    HoldsAtCStr(t, 0, s.value);
    assert t[0..] == t[..];
    assert t[|s.value|] == '\0';
    ret := ParseIdIn(t, d1, aL, aR, d2);
  }

  /** `parseId (const char *s)` with the default delimiters. */
  method ParseIdDefault(s: Option<string>) returns (ret: ActId?)
    requires s.Some? ==> '\0' !in s.value
    ensures s.None? ==> ret == null
    ensures s.Some? ==>
      (ret == null <==> ParseSegs(s.value, DefaultDelim1, DefaultArrayL, DefaultArrayR, DefaultDelim2).None?)
    ensures ret != null ==>
      ret.Valid() && ParseSegs(s.value, DefaultDelim1, DefaultArrayL, DefaultArrayR, DefaultDelim2) == Some(ret.Path())
  {
    ret := ParseId(s, DefaultDelim1, DefaultArrayL, DefaultArrayR, DefaultDelim2);
  }
}
