/**
 * Hierarchical identifiers as values: a path is a non-empty list of
 * segments `name` or `name[i][j]...`.  This module gives the text form a
 * path is rendered to and the grammar it is parsed from; the linked
 * `ActId` objects in module `Ids` are proved to agree with it.
 */
module Paths {

  import opened Common
  import opened Arrays

  datatype Seg = Seg(name: string, sub: Option<seq<Dim>>)
  type Path = seq<Seg>

  /*------------------------------- rendering --------------------------------*/

  function DigitChar(d: nat): char
    requires d < 10
  {
    ('0' as int + d) as char
  }

  /** `%d` of a non-negative integer. */
  function NatText(n: nat): (t: string)
    ensures |t| >= 1
  {
    if n < 10 then [DigitChar(n)] else NatText(n / 10) + [DigitChar(n % 10)]
  }

  /** `%d` of any integer. */
  function IntText(n: int): string {
    if n < 0 then "-" + NatText(-n) else NatText(n)
  }

  function ExprText(e: Expr): string {
    match e
    case Const(n) => IntText(n)
    case Dynamic(v) => v
  }

  function DimText(d: Dim): string {
    match d
    case Index(e) => "[" + ExprText(e) + "]"
    case Range(lo, hi) => "[" + IntText(lo) + ".." + IntText(hi) + "]"
  }

  function SubText(dims: seq<Dim>): string {
    if |dims| == 0 then "" else DimText(dims[0]) + SubText(dims[1..])
  }

  function OptSubText(sub: Option<seq<Dim>>): string {
    if sub.None? then "" else SubText(sub.value)
  }

  /** A segment on its own: its name followed by its subscript. */
  function SegText(s: Seg): string {
    s.name + OptSubText(s.sub)
  }

  /** The separator printed before segment `j`: none before the first, and
      none directly after a namespace-qualified first segment. */
  function Sep(j: nat, ns: bool): string {
    if j == 0 || (j == 1 && ns) then "" else "."
  }

  /** The first `n` of the texts `ts` laid out as `sPrint` emits them: each
      one preceded by its separator. */
  function Layout(ts: seq<string>, n: nat, ns: bool): string
    requires n <= |ts|
  {
    if n == 0 then "" else Layout(ts, n - 1, ns) + Sep(n - 1, ns) + ts[n - 1]
  }

  /** The text of a path; `ns` says its first segment is a namespace prefix. */
  function Render(p: Path, ns: bool): string {
    Layout(SegTexts(p), |p|, ns)
  }

  /** Strings joined with a separator. */
  function Join(sep: string, ts: seq<string>): string {
    if |ts| == 0 then ""
    else if |ts| == 1 then ts[0]
    else Join(sep, ts[..|ts| - 1]) + sep + ts[|ts| - 1]
  }

  function SegTexts(p: Path): (ts: seq<string>)
    ensures |ts| == |p|
  {
    if |p| == 0 then [] else SegTexts(p[..|p| - 1]) + [SegText(p[|p| - 1])]
  }

  /** Laying out fewer texts gives a prefix of the text. */
  lemma {:induction false} LayoutPrefix(ts: seq<string>, j: nat, n: nat, ns: bool)
    requires j <= n <= |ts|
    ensures Layout(ts, j, ns) <= Layout(ts, n, ns)
  {
    if j < n {
      LayoutPrefix(ts, j, n - 1, ns);
      PrefixAppend(Layout(ts, j, ns), Layout(ts, n - 1, ns), Sep(n - 1, ns) + ts[n - 1]);
    }
  }

  lemma PrefixAppend(a: string, b: string, y: string)
    requires a <= b
    ensures a <= b + y
  {
    assert (b + y)[..|b|] == b;
  }

  /** Without the namespace rule, the layout joins the texts with `.`. */
  lemma {:induction false} LayoutIsJoin(ts: seq<string>, n: nat)
    requires n <= |ts|
    ensures Layout(ts, n, false) == Join(".", ts[..n])
  {
    if n > 0 {
      LayoutIsJoin(ts, n - 1);
      assert ts[..n][..n - 1] == ts[..n - 1];
      if n == 1 {
        assert Layout(ts, 0, false) == "";
      }
    }
  }

  /** With a namespace prefix, the first two texts are glued together and the
      rest is laid out as usual. */
  lemma {:induction false} LayoutNamespace(ts: seq<string>, n: nat)
    requires 2 <= n <= |ts|
    ensures Layout(ts, n, true) == ts[0] + Layout(ts[1..], n - 1, false)
  {
    assert ts[1..][n - 2] == ts[n - 1];
    if n == 2 {
      assert Layout(ts, 1, true) == ts[0];
      assert Layout(ts[1..], 1, false) == ts[1];
    } else {
      LayoutNamespace(ts, n - 1);
      ConcatAssoc(ts[0], Layout(ts[1..], n - 2, false), ".", ts[n - 1]);
    }
  }

  /** A namespace-qualified path is its prefix glued to the text of the rest. */
  lemma RenderNamespace(p: Path)
    requires |p| >= 2
    ensures Render(p, true) == SegText(p[0]) + Render(p[1..], false)
  {
    SegTextsFront(p);
    LayoutNamespace(SegTexts(p), |p|);
  }

  lemma ConcatAssoc(a: string, b: string, c: string, d: string)
    ensures ((a + b) + c) + d == a + ((b + c) + d)
  {
  }

  lemma JoinSnoc(sep: string, ts: seq<string>, t: string)
    requires |ts| >= 1
    ensures Join(sep, ts + [t]) == Join(sep, ts) + sep + t
  {
    assert (ts + [t])[..|ts|] == ts;
  }

  /*-------------------------------- parsing ---------------------------------*/

  predicate IsDigit(c: char) {
    '0' <= c <= '9'
  }

  /** `isspace` in the C locale. */
  predicate IsSpace(c: char) {
    c == ' ' || 9 <= c as int <= 13
  }

  /** The first index at or after `i` that is not a digit, or `|t|`. */
  function SkipDigits(t: string, i: nat): (k: nat)
    requires i <= |t|
    ensures i <= k <= |t| && (k < |t| ==> !IsDigit(t[k]))
    decreases |t| - i
  {
    if i < |t| && IsDigit(t[i]) then SkipDigits(t, i + 1) else i
  }

  /** Everything `SkipDigits` skips is a digit. */
  lemma {:induction false} SkippedAreDigits(t: string, i: nat)
    requires i <= |t|
    ensures forall j :: i <= j < SkipDigits(t, i) ==> IsDigit(t[j])
    decreases |t| - i
  {
    if i < |t| && IsDigit(t[i]) {
      SkippedAreDigits(t, i + 1);
    }
  }

  function SkipSpaces(t: string, i: nat): (k: nat)
    requires i <= |t|
    ensures i <= k <= |t|
    decreases |t| - i
  {
    if i < |t| && IsSpace(t[i]) then SkipSpaces(t, i + 1) else i
  }

  /** The value of a string of decimal digits. */
  function DigitsValue(s: string): int {
    if |s| == 0 then 0
    else DigitsValue(s[..|s| - 1]) * 10 + (s[|s| - 1] as int - '0' as int)
  }

  /** `atoi`: blanks, an optional sign, then the longest run of digits
      (without the overflow of a C `int`). */
  function Atoi(t: string): int {
    var k := SkipSpaces(t, 0);
    if k < |t| && (t[k] == '-' || t[k] == '+') then
      var v := DigitsValue(t[k + 1..SkipDigits(t, k + 1)]);
      if t[k] == '-' then -v else v
    else DigitsValue(t[k..SkipDigits(t, k)])
  }

  /** The first index at or after `i` holding either delimiter, or -1. */
  function FindDelim(t: string, d1: char, d2: char, i: nat): (k: int)
    requires i <= |t|
    ensures k == -1 || i <= k < |t|
    ensures k == -1 ==> forall j :: i <= j < |t| ==> t[j] != d1 && t[j] != d2
    ensures k != -1 ==> (t[k] == d1 || t[k] == d2) && forall j :: i <= j < k ==> t[j] != d1 && t[j] != d2
    decreases |t| - i
  {
    if i == |t| then -1 else if t[i] == d1 || t[i] == d2 then i else FindDelim(t, d1, d2, i + 1)
  }

  /** The first index at or after `i` holding `c`, or -1. */
  function IndexOf(t: string, c: char, i: nat): (k: int)
    requires i <= |t|
    ensures k == -1 || i <= k < |t|
    ensures k == -1 ==> forall j :: i <= j < |t| ==> t[j] != c
    ensures k != -1 ==> t[k] == c && forall j :: i <= j < k ==> t[j] != c
    decreases |t| - i
  {
    if i == |t| then -1 else if t[i] == c then i else IndexOf(t, c, i + 1)
  }

  /** The subscripts of a segment, from its first `aL` on: each is a run of
      digits closed by `aR`; another `aL` must follow at once, or the segment
      must end. */
  function ParseSubs(u: string, aL: char, aR: char): Option<seq<Dim>>
    requires |u| >= 1
    decreases |u|
  {
    var i := SkipDigits(u, 1);
    if i == |u| || u[i] != aR then None
    else
      var d := Index(Const(Atoi(u[1..])));
      if i + 1 < |u| && u[i + 1] == aL then
        match ParseSubs(u[i + 1..], aL, aR)
        case None => None
        case Some(ds) => Some([d] + ds)
      else if i + 1 < |u| then None
      else Some([d])
  }

  /** One segment: the name runs up to the first `aL`, if any. */
  function ParseSeg(seg: string, aL: char, aR: char): Option<Seg> {
    var ai := IndexOf(seg, aL, 0);
    if ai == -1 then Some(Seg(seg, None))
    else match ParseSubs(seg[ai..], aL, aR)
      case None => None
      case Some(ds) => Some(Seg(seg[..ai], Some(ds)))
  }

  /** `parseId`: split at each `d1` or `d2` and parse every segment;
      `None` when any segment is malformed. */
  function ParseSegs(t: string, d1: char, aL: char, aR: char, d2: char): Option<Path>
    decreases |t|
  {
    var k := FindDelim(t, d1, d2, 0);
    var seg := if k == -1 then t else t[..k];
    match ParseSeg(seg, aL, aR)
    case None => None
    case Some(s) =>
      if k == -1 then Some([s])
      else match ParseSegs(t[k + 1..], d1, aL, aR, d2)
        case None => None
        case Some(rest) => Some([s] + rest)
  }

  /** The delimiters `parseId` uses when none are given. */
  const DefaultDelim1: char := '.'
  const DefaultArrayL: char := '['
  const DefaultArrayR: char := ']'
  const DefaultDelim2: char := '.'

  /*------------------------------- round trip -------------------------------*/

  /** A path that renders unambiguously: names free of `.` and `[`, and every
      subscript a non-empty list of non-negative constant indices. */
  predicate SimpleSeg(s: Seg) {
    '.' !in s.name && '[' !in s.name &&
    (s.sub.Some? ==> ConstSub(s.sub.value))
  }

  /** A non-empty list of non-negative constant indices. */
  predicate ConstSub(ds: seq<Dim>) {
    |ds| >= 1 && forall k :: 0 <= k < |ds| ==> ds[k].Index? && ds[k].e.Const? && ds[k].e.n >= 0
  }

  predicate SimplePath(p: Path) {
    |p| >= 1 && forall j :: 0 <= j < |p| ==> SimpleSeg(p[j])
  }

  lemma {:induction false} NatTextDigits(n: nat)
    ensures forall k :: 0 <= k < |NatText(n)| ==> IsDigit(NatText(n)[k])
  {
    if n >= 10 {
      NatTextDigits(n / 10);
    }
  }

  lemma {:induction false} DigitsValueOfNatText(n: nat)
    ensures DigitsValue(NatText(n)) == n
  {
    if n >= 10 {
      DigitsValueOfNatText(n / 10);
      var t := NatText(n);
      assert t[..|t| - 1] == NatText(n / 10);
    }
  }

  /** A run of digits `N` at `i` that is not followed by another digit is skipped whole. */
  lemma {:induction false} SkipDigitsAt(t: string, i: nat, N: string)
    requires i + |N| <= |t| && t[i..i + |N|] == N
    requires forall k :: 0 <= k < |N| ==> IsDigit(N[k])
    requires i + |N| < |t| ==> !IsDigit(t[i + |N|])
    ensures SkipDigits(t, i) == i + |N|
    decreases |N|
  {
    if |N| > 0 {
      assert t[i] == N[0];
      assert t[i + 1..i + 1 + |N[1..]|] == N[1..];
      SkipDigitsAt(t, i + 1, N[1..]);
    }
  }

  /** `atoi` of a string that starts with the digits of `n`, not followed by a digit. */
  lemma AtoiAt(u: string, n: nat)
    requires |NatText(n)| <= |u| && u[..|NatText(n)|] == NatText(n)
    requires |u| > |NatText(n)| ==> !IsDigit(u[|NatText(n)|])
    ensures Atoi(u) == n
  {
    var N := NatText(n);
    NatTextDigits(n);
    assert u[0] == N[0];
    assert SkipSpaces(u, 0) == 0;
    assert u[0..|N|] == N;
    NatTextDigits(n);
    SkipDigitsAt(u, 0, N);
    DigitsValueOfNatText(n);
  }

  lemma {:induction false} JoinFront(sep: string, a: string, ts: seq<string>)
    requires |ts| >= 1
    ensures Join(sep, [a] + ts) == a + sep + Join(sep, ts)
    decreases |ts|
  {
    if |ts| > 1 {
      JoinFront(sep, a, ts[..|ts| - 1]);
      assert ([a] + ts)[..|ts|] == [a] + ts[..|ts| - 1];
    } else {
      assert [a] + ts == [a, ts[0]];
    }
  }

  lemma SubTextStart(ds: seq<Dim>)
    ensures |ds| > 0 ==> |SubText(ds)| > 0 && SubText(ds)[0] == '['
  {
  }

  /** The last step of `ParseSubs`: a well-formed index `[v]` ending the segment. */
  lemma ParseSubsLast(u: string, i: nat, v: int)
    requires |u| >= 1 && SkipDigits(u, 1) == i && i + 1 == |u| && u[i] == ']'
    requires Atoi(u[1..]) == v
    ensures ParseSubs(u, '[', ']') == Some([Index(Const(v))])
  {
  }

  /** One step of `ParseSubs`: a well-formed index `[v]` ending at `i`,
      then further subscripts. */
  lemma ParseSubsMore(u: string, i: nat, v: int, rest: seq<Dim>)
    requires |u| >= 1 && SkipDigits(u, 1) == i && i + 1 < |u| && u[i] == ']'
    requires Atoi(u[1..]) == v
    requires u[i + 1] == '[' && ParseSubs(u[i + 1..], '[', ']') == Some(rest)
    ensures ParseSubs(u, '[', ']') == Some([Index(Const(v))] + rest)
  {
  }

  lemma DimTextConst(n: nat)
    ensures DimText(Index(Const(n))) == "[" + NatText(n) + "]"
  {
  }

  /** Where the pieces of a bracketed text `[N]` followed by `r` sit. */
  lemma BracketLayout(u: string, N: string, r: string)
    requires u == "[" + N + "]" + r
    ensures var i := 1 + |N|;
      i < |u| && u[1..i] == N && u[i] == ']' && u[i + 1..] == r &&
      u[1..][..|N|] == N && u[1..][|N|] == ']'
  {
    assert u[1..1 + |N|] == N;
    assert u[1 + |N|] == ']';
    assert u[2 + |N|..] == r;
  }

  /** What `ParseSubs` sees in `[n]` followed by `r`. */
  lemma IndexAt(u: string, n: nat, r: string)
    requires u == "[" + NatText(n) + "]" + r
    ensures var i := 1 + |NatText(n)|;
      i < |u| && SkipDigits(u, 1) == i && u[i] == ']' &&
      Atoi(u[1..]) == n && u[i + 1..] == r
  {
    var N := NatText(n);
    NatTextDigits(n);
    BracketLayout(u, N, r);
    SkipDigitsAt(u, 1, N);
    AtoiAt(u[1..], n);
  }

  /** What `ParseSubs` sees in a rendered subscript: the first index ends
      with `]` at `i`. */
  lemma SubscriptAt(ds: seq<Dim>) returns (i: nat)
    requires ConstSub(ds)
    ensures var u := SubText(ds);
      i < |u| && SkipDigits(u, 1) == i && u[i] == ']' &&
      Atoi(u[1..]) == ds[0].e.n && u[i + 1..] == SubText(ds[1..]) &&
      (|ds| > 1 ==> i + 1 < |u| && u[i + 1] == '[') && (|ds| == 1 ==> i + 1 == |u|)
  {
    var n: nat := ds[0].e.n;
    assert ds[0] == Index(Const(n));
    DimTextConst(n);
    IndexAt(SubText(ds), n, SubText(ds[1..]));
    SubTextStart(ds[1..]);
    i := 1 + |NatText(n)|;
  }

  /** The text of a subscript of non-negative constants parses back to it. */
  lemma {:induction false} ParseSubsAt(ds: seq<Dim>)
    requires ConstSub(ds)
    ensures |SubText(ds)| >= 1 && ParseSubs(SubText(ds), '[', ']') == Some(ds)
    decreases |ds|
  {
    if |ds| > 1 {
      ConstSubTail(ds);
      ParseSubsAt(ds[1..]);
      ParseSubsCons(ds);
    } else {
      ParseSubsOne(ds);
    }
  }

  /** A single rendered index parses back to itself. */
  lemma ParseSubsOne(ds: seq<Dim>)
    requires ConstSub(ds) && |ds| == 1
    ensures |SubText(ds)| >= 1 && ParseSubs(SubText(ds), '[', ']') == Some(ds)
  {
    var n := ds[0].e.n;
    var i := SubscriptAt(ds);
    ParseSubsLast(SubText(ds), i, n);
    assert ds == [Index(Const(n))];
  }

  /** A rendered index followed by subscripts that parse back parses back. */
  lemma ParseSubsCons(ds: seq<Dim>)
    requires ConstSub(ds) && |ds| > 1
    requires ParseSubs(SubText(ds[1..]), '[', ']') == Some(ds[1..])
    ensures |SubText(ds)| >= 1 && ParseSubs(SubText(ds), '[', ']') == Some(ds)
  {
    SubTextCons(ds);
    SubTextStart(ds[1..]);
    ParseIndexThen(SubText(ds), ds[0].e.n, SubText(ds[1..]), ds[1..]);
  }

  /** A rendered subscript is its first index in brackets, then the rest. */
  lemma SubTextCons(ds: seq<Dim>)
    requires ConstSub(ds)
    ensures ds[0].e.n >= 0
    ensures SubText(ds) == "[" + NatText(ds[0].e.n) + "]" + SubText(ds[1..])
    ensures ds == [Index(Const(ds[0].e.n))] + ds[1..]
  {
    var n: nat := ds[0].e.n;
    assert ds[0] == Index(Const(n));
    DimTextConst(n);
  }

  /** `[n]` followed by subscripts that parse as `rest` parses as `n` then `rest`. */
  lemma ParseIndexThen(u: string, n: nat, r: string, rest: seq<Dim>)
    requires u == "[" + NatText(n) + "]" + r && |r| >= 1 && r[0] == '['
    requires ParseSubs(r, '[', ']') == Some(rest)
    ensures |u| >= 1 && ParseSubs(u, '[', ']') == Some([Index(Const(n))] + rest)
  {
    IndexAt(u, n, r);
    ParseSubsMore(u, 1 + |NatText(n)|, n, rest);
  }

  lemma ConstSubTail(ds: seq<Dim>)
    requires ConstSub(ds) && |ds| >= 2
    ensures ConstSub(ds[1..])
  {
    forall k | 0 <= k < |ds| - 1 ensures ds[1..][k].Index? && ds[1..][k].e.Const? && ds[1..][k].e.n >= 0 {
      assert ds[1..][k] == ds[k + 1];
    }
  }

  lemma NoCharInNatText(n: nat, c: char)
    requires !IsDigit(c)
    ensures c !in NatText(n)
  {
    NatTextDigits(n);
  }

  lemma {:induction false} SubTextChars(ds: seq<Dim>)
    requires forall k :: 0 <= k < |ds| ==> ds[k].Index? && ds[k].e.Const? && ds[k].e.n >= 0
    ensures '.' !in SubText(ds)
    decreases |ds|
  {
    if |ds| > 0 {
      SubTextChars(ds[1..]);
      NoCharInNatText(ds[0].e.n, '.');
    }
  }

  /** A simple segment's text is parsed back to it. */
  lemma ParseSegOfSegText(s: Seg)
    requires SimpleSeg(s)
    ensures '.' !in SegText(s)
    ensures ParseSeg(SegText(s), '[', ']') == Some(s)
  {
    var t := SegText(s);
    if s.sub.None? {
      assert t == s.name;
    } else {
      var ds := s.sub.value;
      SubTextChars(ds);
      assert t[|s.name|..] == SubText(ds);
      ParseSubsAt(ds);
      SubTextStart(ds);
      assert t[|s.name|] == '[';
      assert IndexOf(t, '[', 0) == |s.name|;
      assert t[..|s.name|] == s.name;
    }
  }

  /** Parsing a rendered simple path, with the default delimiters, gives the path back. */
  lemma {:induction false} ParseOfRender(p: Path)
    requires SimplePath(p)
    ensures ParseSegs(Render(p, false), DefaultDelim1, DefaultArrayL, DefaultArrayR, DefaultDelim2) == Some(p)
  {
    LayoutIsJoin(SegTexts(p), |p|);
    assert SegTexts(p)[..|p|] == SegTexts(p);
    ParseOfJoin(p);
  }

  /** One step of `ParseSegs`: a well-formed first segment before the first delimiter. */
  lemma ParseSegsCons(t: string, k: nat, s: Seg, rest: Path)
    requires k < |t| && FindDelim(t, '.', '.', 0) == k
    requires ParseSeg(t[..k], '[', ']') == Some(s)
    requires ParseSegs(t[k + 1..], '.', '[', ']', '.') == Some(rest)
    ensures ParseSegs(t, '.', '[', ']', '.') == Some([s] + rest)
  {
  }

  lemma SegTextsFront(p: Path)
    requires |p| >= 1
    ensures SegTexts(p) == [SegText(p[0])] + SegTexts(p[1..])
  {
    SegTextsAt(p);
    SegTextsAt(p[1..]);
  }

  lemma {:induction false} SegTextsAt(p: Path)
    ensures forall j :: 0 <= j < |p| ==> SegTexts(p)[j] == SegText(p[j])
  {
    if |p| > 0 {
      SegTextsAt(p[..|p| - 1]);
    }
  }

  /** The first delimiter in `a + "." + r` is the one after `a` when `a` has none. */
  lemma DelimAfter(a: string, r: string)
    requires '.' !in a
    ensures var t := a + "." + r;
      FindDelim(t, '.', '.', 0) == |a| && t[..|a|] == a && t[|a| + 1..] == r
  {
    var t := a + "." + r;
    var k := FindDelim(t, '.', '.', 0);
    assert t[|a|] == '.';
    assert forall j :: 0 <= j < |a| ==> t[j] == a[j];
    assert t[..|a|] == a;
    assert t[|a| + 1..] == r;
  }

  lemma {:induction false} ParseOfJoin(p: Path)
    requires SimplePath(p)
    ensures ParseSegs(Join(".", SegTexts(p)), '.', '[', ']', '.') == Some(p)
    decreases |p|
  {
    if |p| == 1 {
      ParseOfJoinOne(p);
    } else {
      SimplePathTail(p);
      ParseOfJoin(p[1..]);
      ParseOfJoinStep(p);
    }
  }

  lemma SimplePathTail(p: Path)
    requires SimplePath(p) && |p| >= 2
    ensures SimplePath(p[1..])
  {
    forall j | 0 <= j < |p| - 1 ensures SimpleSeg(p[1..][j]) {
      assert p[1..][j] == p[j + 1];
    }
  }

  lemma ParseOfJoinOne(p: Path)
    requires |p| == 1 && SimpleSeg(p[0])
    ensures ParseSegs(Join(".", SegTexts(p)), '.', '[', ']', '.') == Some(p)
  {
    var a := SegText(p[0]);
    assert '.' !in a && ParseSeg(a, '[', ']') == Some(p[0]) by {
      ParseSegOfSegText(p[0]);
    }
    assert Join(".", SegTexts(p)) == a by {
      assert SegTexts(p) == [a];
    }
    assert FindDelim(a, '.', '.', 0) == -1;
    assert p == [p[0]];
  }

  lemma JoinSegTextsFront(p: Path)
    requires |p| >= 2
    ensures Join(".", SegTexts(p)) == SegText(p[0]) + "." + Join(".", SegTexts(p[1..]))
  {
    SegTextsFront(p);
    JoinFront(".", SegText(p[0]), SegTexts(p[1..]));
  }

  lemma ParseOfJoinStep(p: Path)
    requires |p| >= 2 && SimpleSeg(p[0])
    requires ParseSegs(Join(".", SegTexts(p[1..])), '.', '[', ']', '.') == Some(p[1..])
    ensures ParseSegs(Join(".", SegTexts(p)), '.', '[', ']', '.') == Some(p)
  {
    var a := SegText(p[0]);
    var rest := p[1..];
    var r := Join(".", SegTexts(rest));
    assert '.' !in a && ParseSeg(a, '[', ']') == Some(p[0]) by {
      ParseSegOfSegText(p[0]);
    }
    JoinSegTextsFront(p);
    ParseSegsJoin(a, r, p[0], rest);
    assert p == [p[0]] + rest;
  }

  /** A delimiter-free segment text, `.`, then a parsable rest. */
  lemma ParseSegsJoin(a: string, r: string, s: Seg, rest: Path)
    requires '.' !in a && ParseSeg(a, '[', ']') == Some(s)
    requires ParseSegs(r, '.', '[', ']', '.') == Some(rest)
    ensures ParseSegs(a + "." + r, '.', '[', ']', '.') == Some([s] + rest)
  {
    DelimAfter(a, r);
    ParseSegsCons(a + "." + r, |a|, s, rest);
  }
}
