/** Byte-level encodings the batch and log formats are built from: little-endian fixed-width integers,
    base-128 varints and length-prefixed slices. */
module Coding {

  datatype Option<+T> = None | Some(value: T)

  newtype Byte = x: int | 0 <= x < 256
  type Bytes = seq<Byte>

  const TWO_32 := 0x1_0000_0000
  const TWO_64 := 0x1_0000_0000_0000_0000

  lemma ConcatAssoc<T>(a: seq<T>, b: seq<T>, c: seq<T>)
    ensures (a + b) + c == a + (b + c)
  {
  }

  lemma DropConcat<T>(a: seq<T>, b: seq<T>, n: nat)
    requires n <= |a|
    ensures (a + b)[n..] == a[n..] + b
  {
  }

  function Pow256(width: nat): (p: nat)
    ensures p > 0
  {
    if width == 0 then 1 else 256 * Pow256(width - 1)
  }

  /** The low `width` bytes of `v`, least significant first. */
  function EncodeFixed(v: nat, width: nat): (b: Bytes)
    ensures |b| == width
  {
    if width == 0 then [] else [(v % 256) as Byte] + EncodeFixed(v / 256, width - 1)
  }

  function DecodeFixed(b: Bytes): (v: nat)
    ensures v < Pow256(|b|)
  {
    if b == [] then 0 else b[0] as int + 256 * DecodeFixed(b[1..])
  }

  lemma Pow256Widths()
    ensures Pow256(4) == TWO_32 && Pow256(8) == TWO_64
  {
    assert Pow256(4) == 256 * (256 * (256 * (256 * Pow256(0))));
    assert Pow256(8) == 256 * (256 * (256 * (256 * Pow256(4))));
  }

  lemma {:induction false} FixedRoundTrip(v: nat, width: nat)
    requires v < Pow256(width)
    ensures DecodeFixed(EncodeFixed(v, width)) == v
  {
    if width > 0 {
      FixedRoundTrip(v / 256, width - 1);
      assert EncodeFixed(v, width)[1..] == EncodeFixed(v / 256, width - 1);
    }
  }

  lemma {:induction false} FixedRoundTripBytes(b: Bytes)
    ensures EncodeFixed(DecodeFixed(b), |b|) == b
  {
    if b != [] {
      FixedRoundTripBytes(b[1..]);
      LowByte(b[0] as int, DecodeFixed(b[1..]));
      hide DecodeFixed;
      assert b == [b[0]] + b[1..];
    }
  }

  lemma LowByte(low: int, high: nat)
    requires 0 <= low < 256
    ensures (low + 256 * high) % 256 == low && (low + 256 * high) / 256 == high
  {
  }

  /** Seven bits per byte, low group first; every byte but the last carries the continuation bit 128. */
  function EncodeVarint(v: nat): (b: Bytes)
    ensures |b| > 0
  {
    if v < 128 then [v as Byte] else [(v % 128 + 128) as Byte] + EncodeVarint(v / 128)
  }

  /** Reads at most `groups` groups; gives the accumulated value and the number of bytes consumed. */
  function DecodeGroups(b: Bytes, groups: nat): (r: Option<(nat, nat)>)
    ensures r.Some? ==> 0 < r.value.1 <= |b| && r.value.1 <= groups
    decreases groups
  {
    if groups == 0 || b == [] then None
    else if b[0] < 128 then Some((b[0] as int, 1))
    else
      match DecodeGroups(b[1..], groups - 1)
      case None => None
      case Some((v, n)) => Some((b[0] as int - 128 + 128 * v, n + 1))
  }

  /** A 32-bit varint has at most five groups; the fifth is cut to the register's width. */
  function DecodeVarint32(b: Bytes): (r: Option<(nat, nat)>)
    ensures r.Some? ==> 0 < r.value.1 <= |b| && r.value.0 < TWO_32
  {
    match DecodeGroups(b, 5)
    case None => None
    case Some((v, n)) => Some((v % TWO_32, n))
  }

  function Pow128(n: nat): (p: nat)
    ensures p > 0
  {
    if n == 0 then 1 else 128 * Pow128(n - 1)
  }

  lemma {:induction false} GroupsRoundTrip(v: nat, rest: Bytes, groups: nat)
    requires v < Pow128(groups) && groups > 0
    ensures DecodeGroups(EncodeVarint(v) + rest, groups) == Some((v, |EncodeVarint(v)|))
    decreases groups
  {
    var b := EncodeVarint(v) + rest;
    if v < 128 {
      assert b[0] as int == v;
    } else {
      assert b[1..] == EncodeVarint(v / 128) + rest;
      assert v < 128 * Pow128(groups - 1);
      GroupsRoundTrip(v / 128, rest, groups - 1);
    }
  }

  lemma Varint32RoundTrip(v: nat, rest: Bytes)
    requires v < TWO_32
    ensures DecodeVarint32(EncodeVarint(v) + rest) == Some((v, |EncodeVarint(v)|))
  {
    assert Pow128(5) == 128 * (128 * (128 * (128 * (128 * Pow128(0)))));
    GroupsRoundTrip(v, rest, 5);
  }

  /** Bytes after a complete varint do not change what it decodes to. */
  lemma {:induction false} GroupsIgnoreSuffix(b: Bytes, suffix: Bytes, groups: nat)
    requires DecodeGroups(b, groups).Some?
    ensures DecodeGroups(b + suffix, groups) == DecodeGroups(b, groups)
    decreases groups
  {
    if b[0] >= 128 {
      GroupsIgnoreSuffix(b[1..], suffix, groups - 1);
      assert (b + suffix)[1..] == b[1..] + suffix;
    }
  }

  /** PutLengthPrefixedSlice: the length goes through a 32-bit cast. */
  function EncodeSlice(s: Bytes): (b: Bytes)
    ensures |b| > |s|
  {
    EncodeVarint(|s| % TWO_32) + s
  }

  /** GetLengthPrefixedSlice: the slice and how many bytes of input it took, prefix included. */
  function DecodeSlice(b: Bytes): (r: Option<(Bytes, nat)>)
    ensures r.Some? ==> |r.value.0| < r.value.1 <= |b|
  {
    match DecodeVarint32(b)
    case None => None
    case Some((len, n)) => if len <= |b| - n then Some((b[n..n + len], n + len)) else None
  }

  lemma SliceRoundTrip(s: Bytes, rest: Bytes)
    requires |s| < TWO_32
    ensures DecodeSlice(EncodeSlice(s) + rest) == Some((s, |EncodeSlice(s)|))
  {
    var head := EncodeVarint(|s|);
    assert EncodeSlice(s) + rest == head + (s + rest);
    Varint32RoundTrip(|s|, s + rest);
    assert (head + (s + rest))[|head|..|head| + |s|] == s;
  }

  lemma SliceIgnoresSuffix(b: Bytes, suffix: Bytes)
    requires DecodeSlice(b).Some?
    ensures DecodeSlice(b + suffix) == DecodeSlice(b)
  {
    GroupsIgnoreSuffix(b, suffix, 5);
    var n := DecodeVarint32(b).value.1;
    var len := DecodeVarint32(b).value.0;
    assert (b + suffix)[n..n + len] == b[n..n + len];
  }
}
