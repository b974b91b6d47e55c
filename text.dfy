/**
 * The Python string built-ins the digest pipeline and the chat bot rely on:
 * the substring test `t in s`, `str.lower`, `str.strip`, slicing with `s[:n]`
 * and `sep.join(parts)`. Lower-casing and white space follow the ASCII part of
 * Python's Unicode tables.
 */
module Text {

  /** `p` is a prefix of `s`. */
  predicate IsPrefix(p: string, s: string) {
    |p| <= |s| && s[..|p|] == p
  }

  /** `t` occurs in `s` starting at offset `i`. */
  predicate OccursAt(s: string, t: string, i: int) {
    0 <= i && i + |t| <= |s| && s[i..i + |t|] == t
  }

  /** Python's `t in s` on strings: a left-to-right search for `t` in `s`. */
  predicate Contains(s: string, t: string)
    decreases |s|
  {
    IsPrefix(t, s) || (|s| > 0 && Contains(s[1..], t))
  }

  /** The search finds `t` exactly when `t` occurs somewhere in `s`. */
  lemma {:induction false} ContainsIffOccurs(s: string, t: string)
    ensures Contains(s, t) <==> exists i :: OccursAt(s, t, i)
    decreases |s|
  {
    if IsPrefix(t, s) {
      assert OccursAt(s, t, 0);
    } else if |s| > 0 {
      ContainsIffOccurs(s[1..], t);
      if Contains(s[1..], t) {
        var i :| OccursAt(s[1..], t, i);
        assert s[1..][i..i + |t|] == s[i + 1..i + 1 + |t|];
        assert OccursAt(s, t, i + 1);
      }
      if i :| OccursAt(s, t, i) {
        assert i != 0;
        assert s[1..][i - 1..i - 1 + |t|] == s[i..i + |t|];
        assert OccursAt(s[1..], t, i - 1);
      }
    }
  }

  /** An occurrence inside `b` is an occurrence inside `a + b`, shifted by `|a|`. */
  lemma OccursShifted(a: string, b: string, t: string, i: int)
    requires OccursAt(b, t, i)
    ensures OccursAt(a + b, t, |a| + i)
  {
    assert (a + b)[|a| + i..|a| + i + |t|] == b[i..i + |t|];
  }

  /** An occurrence of `u` inside an occurrence of `t` is an occurrence of `u` in `s`. */
  lemma OccursWithin(s: string, t: string, u: string, i: int, j: int)
    requires OccursAt(s, t, i) && OccursAt(t, u, j)
    ensures OccursAt(s, u, i + j)
  {
    var w := s[i..i + |t|];
    assert w[j..j + |u|] == u;
    var v := s[i + j..i + j + |u|];
    forall m | 0 <= m < |u|
      ensures v[m] == w[j..j + |u|][m]
    {
      assert v[m] == s[i + j + m] && w[j + m] == s[i + j + m];
    }
    assert v == w[j..j + |u|];
  }

  /** A string none of whose characters is the first character of `t` does not contain `t`. */
  lemma {:induction false} MissingFirstChar(s: string, t: string)
    requires |t| > 0
    requires forall k :: 0 <= k < |s| ==> s[k] != t[0]
    ensures !Contains(s, t)
    decreases |s|
  {
    if |s| > 0 {
      assert !IsPrefix(t, s) by {
        if |t| <= |s| { assert s[..|t|][0] == s[0]; }
      }
      MissingFirstChar(s[1..], t);
    }
  }

  /** The white-space characters of Python's `str.strip()` that lie in ASCII. */
  predicate IsSpace(c: char) {
    c == ' ' || ('\t' <= c <= '\r') || ('\U{1C}' <= c <= '\U{1F}')
  }

  /** `s.lstrip()`. */
  function TrimStart(s: string): string
    decreases |s|
  {
    if |s| > 0 && IsSpace(s[0]) then TrimStart(s[1..]) else s
  }

  /** `s.rstrip()`. */
  function TrimEnd(s: string): string
    decreases |s|
  {
    if |s| > 0 && IsSpace(s[|s| - 1]) then TrimEnd(s[..|s| - 1]) else s
  }

  /** `lstrip` drops leading white space and nothing else. */
  lemma {:induction false} TrimStartDrops(s: string)
    ensures var r := TrimStart(s);
            && |r| <= |s| && r == s[|s| - |r|..]
            && (forall k :: 0 <= k < |s| - |r| ==> IsSpace(s[k]))
            && (r == [] || !IsSpace(r[0]))
    decreases |s|
  {
    if |s| > 0 && IsSpace(s[0]) {
      TrimStartDrops(s[1..]);
      var r := TrimStart(s[1..]);
      assert s[1..][|s| - 1 - |r|..] == s[|s| - |r|..];
      forall k | 0 <= k < |s| - |r|
        ensures IsSpace(s[k])
      {
        if k > 0 {
          assert s[k] == s[1..][k - 1];
        }
      }
    }
  }

  /** `rstrip` drops trailing white space and nothing else. */
  lemma {:induction false} TrimEndDrops(s: string)
    ensures var r := TrimEnd(s);
            && |r| <= |s| && r == s[..|r|]
            && (forall k :: |r| <= k < |s| ==> IsSpace(s[k]))
            && (r == [] || !IsSpace(r[|r| - 1]))
    decreases |s|
  {
    if |s| > 0 && IsSpace(s[|s| - 1]) {
      TrimEndDrops(s[..|s| - 1]);
      var r := TrimEnd(s[..|s| - 1]);
      assert s[..|s| - 1][..|r|] == s[..|r|];
      forall k | |r| <= k < |s|
        ensures IsSpace(s[k])
      {
        if k < |s| - 1 {
          assert s[k] == s[..|s| - 1][k];
        }
      }
    }
  }

  /**
   * A prefix `r` of a suffix `t` of `s` is a slice of `s`; what follows `r`
   * in `t` follows it in `s` too.
   */
  lemma SliceOfSuffix(s: string, t: string, r: string)
    requires |t| <= |s| && t == s[|s| - |t|..]
    requires |r| <= |t| && r == t[..|r|]
    requires forall k :: |r| <= k < |t| ==> IsSpace(t[k])
    ensures OccursAt(s, r, |s| - |t|)
    ensures forall k :: |s| - |t| + |r| <= k < |s| ==> IsSpace(s[k])
  {
    var i := |s| - |t|;
    forall m | 0 <= m < |r|
      ensures s[i..i + |r|][m] == r[m]
    {
      assert r[m] == t[m] == s[i + m];
    }
    assert s[i..i + |r|] == r;
    forall k | i + |r| <= k < |s|
      ensures IsSpace(s[k])
    {
      assert s[k] == t[k - i];
    }
  }

  /** `s.strip()`: white space removed at both ends. */
  function Strip(s: string): string {
    TrimEnd(TrimStart(s))
  }

  /**
   * `strip` keeps the slice of `s` that has only white space around it and
   * neither starts nor ends with white space.
   */
  lemma StripSlice(s: string)
    ensures var r := Strip(s);
            && (r == [] || (!IsSpace(r[0]) && !IsSpace(r[|r| - 1])))
            && exists i :: OccursAt(s, r, i)
                           && (forall k :: 0 <= k < i ==> IsSpace(s[k]))
                           && (forall k :: i + |r| <= k < |s| ==> IsSpace(s[k]))
  {
    var t := TrimStart(s);
    var r := TrimEnd(t);
    TrimStartDrops(s);
    TrimEndDrops(t);
    SliceOfSuffix(s, t, r);
    if r != [] {
      assert r[0] == t[0];
    }
    assert OccursAt(s, r, |s| - |t|);
  }

  /** Stripping leaves nothing exactly when the text is white space only. */
  lemma StripEmptyIffBlank(s: string)
    ensures Strip(s) == [] <==> forall k :: 0 <= k < |s| ==> IsSpace(s[k])
  {
    var r := Strip(s);
    StripSlice(s);
    var i :| OccursAt(s, r, i)
             && (forall k :: 0 <= k < i ==> IsSpace(s[k]))
             && (forall k :: i + |r| <= k < |s| ==> IsSpace(s[k]));
    if r != [] {
      assert s[i] == s[i..i + |r|][0] == r[0];
      assert !IsSpace(s[i]);
    } else {
      forall k | 0 <= k < |s|
        ensures IsSpace(s[k])
      {
        if k >= i {
          assert i + |r| <= k;
        }
      }
    }
  }

  /** Stripping twice is stripping once. */
  lemma StripIdempotent(s: string)
    ensures Strip(Strip(s)) == Strip(s)
  {
    var r := Strip(s);
    StripSlice(s);
    assert TrimStart(r) == r;
    assert TrimEnd(r) == r;
  }

  /** `s[:n]` for a non-negative `n`: the first `n` characters, or all of `s` when it is shorter. */
  function Take(s: string, n: nat): (r: string)
    ensures IsPrefix(r, s)
    ensures |r| == if |s| < n then |s| else n
  {
    if |s| <= n then s else s[..n]
  }

  /** ASCII part of `str.lower()` on one character. */
  function LowerChar(c: char): char {
    if 'A' <= c <= 'Z' then (c as int + 32) as char else c
  }

  /** ASCII part of `str.upper()` on one character. */
  function UpperChar(c: char): char {
    if 'a' <= c <= 'z' then (c as int - 32) as char else c
  }

  /** `s.lower()`, character by character. */
  function Lower(s: string): string {
    seq(|s|, k requires 0 <= k < |s| => LowerChar(s[k]))
  }

  /** `s.upper()`, character by character. */
  function Upper(s: string): string {
    seq(|s|, k requires 0 <= k < |s| => UpperChar(s[k]))
  }

  /** Lower-casing forgets every case distinction: shouting a text first changes nothing. */
  lemma LowerForgetsCase(s: string)
    ensures Lower(Upper(s)) == Lower(s)
    ensures Lower(Lower(s)) == Lower(s)
  {
    assert forall k :: 0 <= k < |s| ==> LowerChar(UpperChar(s[k])) == LowerChar(s[k]);
  }

  /** Lower-casing commutes with slicing. */
  lemma LowerSlice(s: string, i: int, j: int)
    requires 0 <= i <= j <= |s|
    ensures Lower(s)[i..j] == Lower(s[i..j])
  {
    assert forall k :: 0 <= k < j - i ==> Lower(s)[i..j][k] == LowerChar(s[i + k]) == Lower(s[i..j])[k];
  }

  /** `sep.join(parts)`. */
  function Join(parts: seq<string>, sep: string): string
    decreases |parts|
  {
    if |parts| == 0 then ""
    else if |parts| == 1 then parts[0]
    else parts[0] + sep + Join(parts[1..], sep)
  }

  /** Where the `k`-th part starts in `Join(parts, sep)`. */
  function PartOffset(parts: seq<string>, sep: string, k: nat): nat
    requires k <= |parts|
    decreases k
  {
    if k == 0 then 0 else |parts[0]| + |sep| + PartOffset(parts[1..], sep, k - 1)
  }

  /** Consecutive parts are one separator apart. */
  lemma {:induction false} PartOffsetStep(parts: seq<string>, sep: string, k: nat)
    requires k < |parts|
    ensures PartOffset(parts, sep, k + 1) == PartOffset(parts, sep, k) + |parts[k]| + |sep|
    decreases k
  {
    if k > 0 {
      PartOffsetStep(parts[1..], sep, k - 1);
    }
  }

  /**
   * The layout of a joined string: part `k` starts at `PartOffset(parts, sep, k)`,
   * exactly one separator follows it when another part comes next, and the
   * joined string ends with the last part.
   */
  lemma {:induction false} JoinLayout(parts: seq<string>, sep: string, k: nat)
    requires k < |parts|
    ensures OccursAt(Join(parts, sep), parts[k], PartOffset(parts, sep, k))
    ensures k + 1 < |parts| ==> OccursAt(Join(parts, sep), sep, PartOffset(parts, sep, k) + |parts[k]|)
    ensures k + 1 == |parts| ==> |Join(parts, sep)| == PartOffset(parts, sep, k) + |parts[k]|
    decreases k
  {
    if |parts| == 1 {
      assert Join(parts, sep) == parts[0];
    } else {
      var head := parts[0] + sep;
      var rest := Join(parts[1..], sep);
      assert Join(parts, sep) == head + rest;
      if k == 0 {
        assert (head + rest)[..|parts[0]|] == parts[0];
        assert (head + rest)[|parts[0]|..|parts[0]| + |sep|] == sep;
      } else {
        var off := PartOffset(parts[1..], sep, k - 1);
        assert PartOffset(parts, sep, k) == |head| + off;
        assert parts[1..][k - 1] == parts[k];
        JoinLayout(parts[1..], sep, k - 1);
        OccursShifted(head, rest, parts[k], off);
        if k + 1 < |parts| {
          OccursShifted(head, rest, sep, off + |parts[k]|);
        }
      }
    }
  }
}
