/**
 Byte strings as every stream of this project sees them, and where one occurs
 in another: Python's `in`, `find` and negative slices, and the concatenation
 of the pieces a stream arrives in.
 */
module Bytes {
  newtype byte = x: int | 0 <= x < 256

  type bytes = seq<byte>

  datatype Option<+T> = None | Some(value: T)

  /** The pieces of a stream, in order, as one stream. */
  function Concat(pieces: seq<bytes>): bytes {
    if pieces == [] then [] else pieces[0] + Concat(pieces[1..])
  }

  lemma {:induction false} ConcatSplits(a: seq<bytes>, b: seq<bytes>)
    ensures Concat(a + b) == Concat(a) + Concat(b)
  {
    if a == [] {
      assert a + b == b;
    } else {
      assert (a + b)[1..] == a[1..] + b;
      ConcatSplits(a[1..], b);
    }
  }

  lemma ConcatSnoc(a: seq<bytes>, x: bytes)
    ensures Concat(a + [x]) == Concat(a) + x
  {
    ConcatSplits(a, [x]);
    assert Concat([x]) == x + Concat([x][1..]);
  }

  /** The last n bytes of s, or all of it when it is shorter: s[-n:]. */
  function Last(s: bytes, n: nat): (r: bytes)
    ensures |r| <= n && |r| <= |s| && r == s[|s| - |r|..]
    ensures |r| == n || r == s
  {
    if |s| <= n then s else s[|s| - n..]
  }

  /** x stands in s at index i. */
  predicate OccursAt(s: bytes, i: int, x: bytes) {
    0 <= i <= i + |x| <= |s| && s[i..i + |x|] == x
  }

  /** x in s. */
  ghost predicate Contains(s: bytes, x: bytes) {
    exists i :: OccursAt(s, i, x)
  }

  /** s.find(x), with None for -1: the least index x occurs at. */
  method Find(s: bytes, x: bytes) returns (at: Option<nat>)
    ensures at.Some? ==> OccursAt(s, at.value, x) && forall i :: i < at.value ==> !OccursAt(s, i, x)
    ensures at.None? ==> !Contains(s, x)
  {
    var i := 0;
    while i + |x| <= |s|
      invariant forall j :: j < i ==> !OccursAt(s, j, x)
    {
      if s[i..i + |x|] == x {
        return Some(i);
      }
      i := i + 1;
    }
    at := None;
  }

  /** An occurrence is still there, at the same index, in any longer stream. */
  lemma OccursInPrefix(s: bytes, more: bytes, i: int, x: bytes)
    requires i + |x| <= |s|
    ensures OccursAt(s, i, x) <==> OccursAt(s + more, i, x)
  {
    if 0 <= i {
      assert (s + more)[i..i + |x|] == s[i..i + |x|];
    }
  }

  /** An occurrence that lies inside a suffix is seen in the suffix. */
  lemma OccursInSuffix(s: bytes, from: nat, i: int, x: bytes)
    requires from <= i && from <= |s|
    ensures OccursAt(s, i, x) <==> OccursAt(s[from..], i - from, x)
  {
    if i + |x| <= |s| {
      assert s[from..][i - from..i - from + |x|] == s[i..i + |x|];
    }
  }

  /** A big-endian 32-bit number: the first four bytes of b. */
  function U32(b: bytes): (n: nat)
    requires |b| >= 4
    ensures n < 0x1_0000_0000
  {
    ((b[0] as int * 256 + b[1] as int) * 256 + b[2] as int) * 256 + b[3] as int
  }

  function PutU32(n: nat): (b: bytes)
    requires n < 0x1_0000_0000
    ensures |b| == 4 && U32(b) == n
  {
    var high := n / 256;
    var higher := high / 256;
    var highest := higher / 256;
    assert n == high * 256 + n % 256 && high == higher * 256 + high % 256 && higher == highest * 256 + higher % 256;
    [highest as byte, (higher % 256) as byte, (high % 256) as byte, (n % 256) as byte]
  }

  /** Moving a piece from one part of a sum to the next. */
  lemma Regroup(a: bytes, b: bytes, c: bytes, d: bytes)
    ensures a + b + (c + d) == a + (b + c) + d
    ensures (a + b) + c == a + (b + c)
  {
  }
}
