/** Bytes, the C character classes the two parsers use, and machine-word arithmetic. */
module Bytes {

  type byte = b: int | 0 <= b < 256

  const NUL: byte := 0
  const LF: byte := 10
  const CR: byte := 13
  const COLON: byte := 58

  const CRLF: seq<byte> := [CR, LF]

  /** `size_t` is 64 bits wide; arithmetic on it is modulo this number. */
  const SIZE_MOD: nat := 0x1_0000_0000_0000_0000

  /** isspace in the "C" locale. */
  predicate IsSpace(b: byte) {
    9 <= b <= 13 || b == 32
  }

  function Lower(b: byte): byte {
    if 65 <= b <= 90 then b + 32 else b
  }

  /** Equality up to ASCII letter case: strncasecmp on two texts of the same length. */
  predicate SameText(s: seq<byte>, t: seq<byte>) {
    |s| == |t| && forall i :: 0 <= i < |s| ==> Lower(s[i]) == Lower(t[i])
  }

  function Concat(ss: seq<seq<byte>>): seq<byte> {
    if ss == [] then [] else ss[0] + Concat(ss[1..])
  }

  lemma {:induction false} ConcatAppend(ss: seq<seq<byte>>, ts: seq<seq<byte>>)
    ensures Concat(ss + ts) == Concat(ss) + Concat(ts)
  {
    if ss == [] {
      assert ss + ts == ts;
    } else {
      assert (ss + ts)[1..] == ss[1..] + ts;
      ConcatAppend(ss[1..], ts);
    }
  }

  lemma ConcatSnoc(ss: seq<seq<byte>>, t: seq<byte>)
    ensures Concat(ss + [t]) == Concat(ss) + t
  {
    ConcatAppend(ss, [t]);
  }

  lemma Assoc<T>(x: seq<T>, y: seq<T>, z: seq<T>)
    ensures x + y + z == x + (y + z)
  {
  }

  predicate AllSpace(s: seq<byte>) {
    forall i :: 0 <= i < |s| ==> IsSpace(s[i])
  }

  lemma SubSlice(s: seq<byte>, start: nat, end: nat, i: nat, j: nat)
    requires start <= i <= j <= end <= |s|
    ensures s[start..end][i - start..j - start] == s[i..j]
  {
    var u, v := s[start..end][i - start..j - start], s[i..j];
    forall k | 0 <= k < |v|
      ensures u[k] == v[k]
    {
      assert u[k] == s[start..end][i - start + k];
    }
  }

  lemma PrefixSlice(s: seq<byte>, n: nat, i: nat, j: nat)
    requires i <= j <= n <= |s|
    ensures s[..n][i..j] == s[i..j]
  {
    SubSlice(s, 0, n, i, j);
    assert s[0..n] == s[..n];
  }

  function Pow2(k: nat): nat {
    if k == 0 then 1 else 2 * Pow2(k - 1)
  }
}
