/**
 * The base-128 varint of the Protocol Buffers wire format, as the block
 * framing writes and reads it (writeRawVarint32 / readRawVarint32): seven
 * bits per byte, least significant group first, the high bit set on every
 * byte but the last. A negative int is written as its unsigned 32-bit
 * pattern; on reading, a sixth to tenth byte (the upper half of a 64-bit
 * varint) is skipped, and an eleventh byte in a row with the high bit set
 * makes the varint malformed.
 */
module Varint {
  import opened Wrappers
  import opened Primitives

  /** The unsigned encoding: one byte per seven bits, continuation bit on all but the last. */
  function EncodeUnsigned(u: nat): (r: seq<byte>)
    ensures |r| >= 1 && r[|r| - 1] < 128
    ensures forall i | 0 <= i < |r| - 1 :: r[i] >= 128
    decreases u
  {
    if u < 128 then [u] else [u % 128 + 128] + EncodeUnsigned(u / 128)
  }

  function Pow128(n: nat): (r: nat)
    ensures r >= 1
  {
    if n == 0 then 1 else 128 * Pow128(n - 1)
  }

  lemma {:induction false} EncodedLength(u: nat, n: nat)
    requires 1 <= n && u < Pow128(n)
    ensures |EncodeUnsigned(u)| <= n
    decreases u
  {
    if u >= 128 {
      assert Pow128(n) == 128 * Pow128(n - 1);
      EncodedLength(u / 128, n - 1);
    }
  }

  /** The unsigned 32-bit pattern of a Java int. */
  function Unsigned32(v: int): (u: nat)
    requires IsInt32(v)
    ensures u < TWO_32 && ToInt32(u) == v
  {
    if v < 0 then v + TWO_32 else v
  }

  /** writeRawVarint32: between one and five bytes. */
  function EncodeVarint32(v: int): (r: seq<byte>)
    requires IsInt32(v)
    ensures 1 <= |r| <= 5
  {
    assert Pow128(5) == 128 * 128 * 128 * 128 * 128;
    EncodedLength(Unsigned32(v), 5);
    EncodeUnsigned(Unsigned32(v))
  }

  /** A value read, and the position just after it. */
  datatype Read<T> = Read(value: T, next: nat)

  /**
   * readRawVarint32 from position pos: up to five groups are summed
   * (the value wraps to 32 bits), then up to five more bytes are skipped.
   */
  function ReadVarint32(s: seq<byte>, pos: nat): (r: Result<Read<int>>)
    ensures r.Ok? ==> IsInt32(r.value.value) && pos < r.value.next <= |s| && r.value.next <= pos + 10
    ensures r.Err? ==> r.error == Truncated || r.error == MalformedVarint
  {
    ReadGroups(s, pos, 0, 0, 1)
  }

  /** k groups read so far, summing to acc; the next group is worth `scale` (128 to the k). */
  function ReadGroups(s: seq<byte>, pos: nat, k: nat, acc: int, scale: int): (r: Result<Read<int>>)
    requires k <= 5
    ensures r.Ok? ==> IsInt32(r.value.value) && pos < r.value.next <= |s| && r.value.next <= pos + 10 - k
    ensures r.Err? ==> r.error == Truncated || r.error == MalformedVarint
    decreases 5 - k
  {
    if k == 5 then SkipHigh(s, pos, 0, ToInt32(acc))
    else if pos >= |s| then Err(Truncated)
    else
      var b: int := s[pos];
      var acc' := acc + (b % 128) * scale;
      if b < 128 then Ok(Read(ToInt32(acc'), pos + 1)) else ReadGroups(s, pos + 1, k + 1, acc', scale * 128)
  }

  /** The upper bytes of an over-long varint: i skipped so far; the value is already fixed. */
  function SkipHigh(s: seq<byte>, pos: nat, i: nat, v: int): (r: Result<Read<int>>)
    requires i <= 5 && IsInt32(v)
    ensures r.Ok? ==> r.value.value == v && pos < r.value.next <= |s| && r.value.next <= pos + 5 - i
    ensures r.Err? ==> r.error == Truncated || r.error == MalformedVarint
    decreases 5 - i
  {
    if i == 5 then Err(MalformedVarint)
    else if pos >= |s| then Err(Truncated)
    else if s[pos] < 128 then Ok(Read(v, pos + 1))
    else SkipHigh(s, pos + 1, i + 1, v)
  }

  /** Reading an unsigned encoding adds its value, scaled, to the groups already summed. */
  lemma {:induction false} ReadGroupsEncoded(s: seq<byte>, pos: nat, k: nat, acc: int, scale: int, u: nat, total: int)
    requires total == acc + u * scale
    requires k + |EncodeUnsigned(u)| <= 5
    requires pos + |EncodeUnsigned(u)| <= |s| && s[pos..pos + |EncodeUnsigned(u)|] == EncodeUnsigned(u)
    ensures ReadGroups(s, pos, k, acc, scale) == Ok(Read(ToInt32(total), pos + |EncodeUnsigned(u)|))
    decreases u
  {
    EncodedAt(s, pos, u);
    if u < 128 {
      LastGroup(s, pos, k, acc, scale, u, total);
    } else {
      var acc', scale' := acc + (u % 128) * scale, scale * 128;
      NextGroup(s, pos, k, acc, scale, u % 128, acc');
      GroupStep(acc, u, scale, acc', total);
      ReadGroupsEncoded(s, pos + 1, k + 1, acc', scale', u / 128, total);
    }
  }

  /** An encoding found at pos: its first byte, and the encoding of the rest right after it. */
  lemma EncodedAt(s: seq<byte>, pos: nat, u: nat)
    requires pos + |EncodeUnsigned(u)| <= |s| && s[pos..pos + |EncodeUnsigned(u)|] == EncodeUnsigned(u)
    ensures u < 128 ==> s[pos] == u && |EncodeUnsigned(u)| == 1
    ensures u >= 128 ==> && s[pos] == u % 128 + 128
                         && |EncodeUnsigned(u)| == 1 + |EncodeUnsigned(u / 128)|
                         && s[pos + 1..pos + 1 + |EncodeUnsigned(u / 128)|] == EncodeUnsigned(u / 128)
  {
    var e := EncodeUnsigned(u);
    assert s[pos] == e[0];
    if u >= 128 {
      var e' := EncodeUnsigned(u / 128);
      assert e == [u % 128 + 128] + e';
      assert s[pos + 1..pos + 1 + |e'|] == e[1..];
    }
  }

  lemma LastGroup(s: seq<byte>, pos: nat, k: nat, acc: int, scale: int, g: int, total: int)
    requires k < 5 && pos < |s| && s[pos] == g < 128 && total == acc + g * scale
    ensures ReadGroups(s, pos, k, acc, scale) == Ok(Read(ToInt32(total), pos + 1))
  {
  }

  lemma NextGroup(s: seq<byte>, pos: nat, k: nat, acc: int, scale: int, g: int, acc': int)
    requires k < 5 && pos < |s| && s[pos] == g + 128 && 0 <= g < 128 && acc' == acc + g * scale
    ensures ReadGroups(s, pos, k, acc, scale) == ReadGroups(s, pos + 1, k + 1, acc', scale * 128)
  {
    assert (s[pos] as int) % 128 == g;
  }

  lemma GroupStep(acc: int, u: nat, p: int, acc': int, total: int)
    requires acc' == acc + (u % 128) * p && total == acc + u * p
    ensures total == acc' + (u / 128) * (p * 128)
  {
    var q, r := u / 128, u % 128;
    assert u == 128 * q + r;
    assert q * (p * 128) == (128 * q) * p;
    assert (128 * q + r) * p == (128 * q) * p + r * p;
  }

  /** Reading back what writeRawVarint32 wrote gives the same int, whatever follows it. */
  lemma ReadEncoded(v: int, s: seq<byte>, pos: nat)
    requires IsInt32(v)
    requires pos + |EncodeVarint32(v)| <= |s| && s[pos..pos + |EncodeVarint32(v)|] == EncodeVarint32(v)
    ensures ReadVarint32(s, pos) == Ok(Read(v, pos + |EncodeVarint32(v)|))
  {
    var u := Unsigned32(v);
    assert EncodeVarint32(v) == EncodeUnsigned(u);
    ReadGroupsEncoded(s, pos, 0, 0, 1, u, u);
  }

  /** Ten bytes in a row with the high bit set are rejected, never read as a value. */
  lemma TenContinuationBytesMalformed(s: seq<byte>, pos: nat)
    requires pos + 10 <= |s|
    requires forall i | pos <= i < pos + 10 :: s[i] >= 128
    ensures ReadVarint32(s, pos) == Err(MalformedVarint)
  {
    SkipTenth(s, pos + 5, 0, ReadGroupsValue(s, pos));
  }

  /** The value the first five groups of an over-long varint fix. */
  function ReadGroupsValue(s: seq<byte>, pos: nat): (v: int)
    requires pos + 5 <= |s|
    ensures IsInt32(v)
  {
    var g := (i: nat) requires pos + i < |s| => (s[pos + i] as int) % 128;
    ToInt32(g(0) + g(1) * 128 + g(2) * (128 * 128) + g(3) * (128 * 128 * 128) + g(4) * (128 * 128 * 128 * 128))
  }

  lemma {:induction false} SkipTenth(s: seq<byte>, pos: nat, i: nat, v: int)
    requires i <= 5 && IsInt32(v) && pos + 5 - i <= |s|
    requires forall j | pos <= j < pos + 5 - i :: s[j] >= 128
    ensures SkipHigh(s, pos, i, v) == Err(MalformedVarint)
    decreases 5 - i
  {
    if i < 5 {
      SkipTenth(s, pos + 1, i + 1, v);
    }
  }
}
