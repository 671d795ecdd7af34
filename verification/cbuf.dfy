/**
 * C character buffers: `snprintf` of a string into a buffer, as `sPrint`
 * uses it, and NUL-terminated strings held in a buffer.
 */
module CBuf {

  function Min(x: int, y: int): int {
    if x <= y then x else y
  }

  /** `buf` holds the text `t` followed by a NUL, and everything after that NUL
      is as it was in `old0`. */
  ghost predicate Printed(buf: array<char>, old0: seq<char>, t: string)
    reads buf
  {
    |old0| == buf.Length && |t| < buf.Length &&
    buf[..|t|] == t && buf[|t|] == '\0' && buf[|t| + 1..] == old0[|t| + 1..]
  }

  /** `snprintf (buf + k, rem, "%s", t)` followed by `strlen (buf + k)`: at
      most `rem - 1` characters of `t` are written, then a NUL. */
  method Emit(buf: array<char>, k: nat, rem: int, t: string, ghost acc: string, ghost old0: seq<char>)
    returns (len: nat)
    requires 1 <= rem && k + rem <= buf.Length && '\0' !in t && |acc| == k
    requires (k == 0 && buf[..] == old0 && |old0| == buf.Length) || Printed(buf, old0, acc)
    modifies buf
    ensures len == Min(|t|, rem - 1)
    ensures Printed(buf, old0, acc + t[..len])
  {
    len := Min(|t|, rem - 1);
    forall q | 0 <= q < len {
      buf[k + q] := t[q];
    }
    buf[k + len] := '\0';
    ghost var u := acc + t[..len];
    assert buf[..k] == acc;
    assert buf[k..k + len] == t[..len];
    assert buf[..|u|] == buf[..k] + buf[k..k + len];
  }

  /** The first `n` characters of `t`, or all of it when it is shorter. */
  function Truncate(t: string, n: int): (r: string)
    ensures |r| <= |t| && r == t[..|r|]
    ensures n >= 0 && n <= |t| ==> |r| == n
    ensures n >= |t| ==> r == t
  {
    if n < 0 then "" else if n < |t| then t[..n] else t
  }

  /** `PRINT_STEP` after printing `t` at offset `k` with `rem` bytes left, where
      the whole text being printed is `R` and at most `m` characters of it fit:
      either the buffer is full and holds `R` cut to `m`, or `t` went in whole
      and printing goes on with at least two bytes left. */
  method PrintStep(buf: array<char>, k: nat, rem: int, t: string, ghost acc: string,
                   ghost old0: seq<char>, ghost R: string, ghost m: nat)
    returns (k2: nat, rem2: int, stop: bool)
    requires 1 <= rem && k + rem <= buf.Length && '\0' !in t && |acc| == k
    requires (k == 0 && buf[..] == old0 && |old0| == buf.Length) || Printed(buf, old0, acc)
    requires k + rem == m + 1 && acc + t <= R
    modifies buf
    ensures stop ==> Printed(buf, old0, Truncate(R, m))
    ensures !stop ==> k2 == k + |t| && rem2 == rem - |t| && rem2 >= 2 && Printed(buf, old0, acc + t)
  {
    var len := Emit(buf, k, rem, t, acc, old0);
    k2 := k + len;
    rem2 := rem - len;
    stop := rem2 <= 1;
    if stop {
      StopAt(acc, t, R, len, m);
    } else {
      assert t[..len] == t;
    }
  }

  /** Text cut off inside the piece `t` is the whole text cut at the same place. */
  lemma StopAt(acc: string, t: string, R: string, len: nat, m: nat)
    requires acc + t <= R && len <= |t| && |acc| + len == m
    ensures Truncate(R, m) == acc + t[..len]
  {
    assert R[..m] == (acc + t)[..m];
    assert (acc + t)[..m] == acc + t[..len];
  }

  lemma PrefixTrans(x: string, y: string, z: string)
    requires x <= y && y <= z
    ensures x <= z
  {
    assert z[..|x|] == z[..|y|][..|x|];
  }

  /** The C string at the start of `b`: everything before the first NUL. */
  function CStr(b: seq<char>): (s: string)
    ensures |s| <= |b| && '\0' !in s
  {
    if |b| == 0 || b[0] == '\0' then "" else [b[0]] + CStr(b[1..])
  }

  /** A NUL at `i` with none before it ends the C string there. */
  lemma {:induction false} CStrAt(b: seq<char>, i: nat)
    requires i < |b| && b[i] == '\0' && '\0' !in b[..i]
    ensures CStr(b) == b[..i]
  {
    if i > 0 {
      assert b[0] in b[..i];
      assert b[1..][..i - 1] == b[1..i];
      CStrAt(b[1..], i - 1);
      assert b[..i] == [b[0]] + b[1..i];
    }
  }

  /** Reading back what was printed gives the printed text. */
  lemma PrintedCStr(buf: array<char>, old0: seq<char>, t: string)
    requires Printed(buf, old0, t) && '\0' !in t
    ensures CStr(buf[..]) == t
  {
    assert buf[..][..|t|] == buf[..|t|];
    CStrAt(buf[..], |t|);
  }

  /** `fprintf (fp, "%s", buf)`: the characters before the first NUL. */
  method CString(buf: array<char>) returns (s: string)
    requires '\0' in buf[..]
    ensures s == CStr(buf[..])
  {
    var i := 0;
    while buf[i] != '\0'
      invariant 0 <= i < buf.Length && '\0' in buf[i..] && '\0' !in buf[..i]
      decreases buf.Length - i
    {
      assert buf[i..] == [buf[i]] + buf[i + 1..];
      assert buf[..i + 1] == buf[..i] + [buf[i]];
      i := i + 1;
    }
    s := buf[..i];
    assert buf[..][..i] == s;
    CStrAt(buf[..], i);
  }
}
