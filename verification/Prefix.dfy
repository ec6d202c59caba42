/**
 * Canonical prefixes: masking the bits beyond the prefix length, in a 32-bit word for IPv4 and in place in a byte
 * array for IPv6.
 */
module Prefix {

  // ----- IPv4 -----

  /** Bit `i` of a word counted from the most significant one. */
  predicate WordBit(v: bv32, i: bv32)
    requires i < 32
  {
    (v >> (31 - i)) & 1 == 1
  }

  /** The IPv4 branch of canonicalize_prefix on a host-order word. */
  function MaskWord(v: bv32, prefixLen: bv32): (r: bv32)
    requires prefixLen <= 32
  {
    v & (if prefixLen == 0 then 0 else 0xFFFF_FFFF << (32 - prefixLen))
  }

  /** The first bits are kept, the rest are zero. */
  lemma MaskWordBits(v: bv32, prefixLen: bv32, i: bv32)
    requires prefixLen <= 32 && i < 32
    ensures WordBit(MaskWord(v, prefixLen), i) <==> i < prefixLen && WordBit(v, i)
  {
  }

  // ----- IPv6 -----

  /** Bit `i` of a byte counted from the most significant one. */
  predicate ByteBit(b: bv8, i: nat)
    requires i < 8
  {
    match i
    case 0 => b & 0x80 != 0
    case 1 => b & 0x40 != 0
    case 2 => b & 0x20 != 0
    case 3 => b & 0x10 != 0
    case 4 => b & 0x08 != 0
    case 5 => b & 0x04 != 0
    case 6 => b & 0x02 != 0
    case 7 => b & 0x01 != 0
  }

  /** The bits of a byte, most significant first. */
  function ByteBits(b: bv8): (bits: seq<bool>)
    ensures |bits| == 8 && forall i :: 0 <= i < 8 ==> bits[i] == ByteBit(b, i)
  {
    seq(8, i requires 0 <= i < 8 => ByteBit(b, i))
  }

  /** The bits of an address in network order. */
  function AddressBits(bytes: seq<bv8>): (bits: seq<bool>)
    ensures |bits| == 8 * |bytes|
  {
    if bytes == [] then [] else AddressBits(bytes[..|bytes| - 1]) + ByteBits(bytes[|bytes| - 1])
  }

  function Zeros(n: nat): (bits: seq<bool>)
    ensures |bits| == n && forall i :: 0 <= i < n ==> !bits[i]
  {
    seq(n, i => false)
  }

  /** The address whose first bits are kept and whose other bits are zero. */
  function Canonical(bits: seq<bool>, prefixLen: nat): (r: seq<bool>)
    requires prefixLen <= |bits|
    ensures |r| == |bits|
  {
    bits[..prefixLen] + Zeros(|bits| - prefixLen)
  }

  /** The mask that keeps the first bits of a byte. */
  function KeepMask(keep: nat): bv8
    requires 0 < keep < 8
  {
    0xFF << (8 - keep)
  }

  function MaskByte(b: bv8, keep: nat): bv8
    requires 0 < keep < 8
  {
    b & KeepMask(keep)
  }

  lemma KeepMaskValue(keep: nat)
    requires 0 < keep < 8
    ensures KeepMask(keep) == [0x80, 0xC0, 0xE0, 0xF0, 0xF8, 0xFC, 0xFE][keep - 1]
  {
  }

  lemma MaskedBit(b: bv8, keep: nat, i: nat)
    requires 0 < keep < 8 && i < 8
    ensures ByteBit(MaskByte(b, keep), i) <==> i < keep && ByteBit(b, i)
  {
    hide KeepMask;
    KeepMaskValue(keep);
  }

  lemma MaskByteBits(b: bv8, keep: nat)
    requires 0 < keep < 8
    ensures ByteBits(MaskByte(b, keep)) == Canonical(ByteBits(b), keep)
  {
    hide ByteBit, MaskByte;
    var masked, canonical := ByteBits(MaskByte(b, keep)), Canonical(ByteBits(b), keep);
    forall i | 0 <= i < 8
      ensures masked[i] == canonical[i]
    {
      MaskedBit(b, keep, i);
    }
  }

  lemma {:induction false} BitsConcat(a: seq<bv8>, b: seq<bv8>)
    ensures AddressBits(a + b) == AddressBits(a) + AddressBits(b)
  {
    hide ByteBits;
    if b == [] {
      assert a + b == a;
    } else {
      var n := |b| - 1;
      BitsConcat(a, b[..n]);
      assert (a + b)[..|a + b| - 1] == a + b[..n];
    }
  }

  lemma {:induction false} ZeroBytes(bytes: seq<bv8>)
    requires forall i :: 0 <= i < |bytes| ==> bytes[i] == 0
    ensures AddressBits(bytes) == Zeros(8 * |bytes|)
  {
    if bytes != [] { ZeroBytes(bytes[..|bytes| - 1]); }
  }

  /** A prefix that ends inside the middle part. */
  lemma CanonicalOfParts(a: seq<bool>, b: seq<bool>, c: seq<bool>, prefixLen: nat)
    requires |a| <= prefixLen <= |a| + |b|
    ensures Canonical(a + b + c, prefixLen) == a + Canonical(b, prefixLen - |a|) + Zeros(|c|)
  {
  }

  /** Kept bytes, one masked byte when the length ends inside it, and zero bytes make a canonical address. */
  lemma MaskedAddress(was: seq<bv8>, now: seq<bv8>, whole: nat, remainder: nat)
    requires |now| == |was| && remainder < 8
    requires var used := if remainder > 0 then whole + 1 else whole;
             && used <= |was| && now[..whole] == was[..whole]
             && (remainder > 0 ==> now[whole] == MaskByte(was[whole], remainder))
             && forall i :: used <= i < |now| ==> now[i] == 0
    ensures AddressBits(now) == Canonical(AddressBits(was), 8 * whole + remainder)
  {
    var used := if remainder > 0 then whole + 1 else whole;
    MaskedPart(was, now, whole, remainder);
    ZeroBytes(now[used..]);
    hide ByteBits, MaskByte, AddressBits, Canonical, Zeros;
    JoinedParts(was, now, whole, used, remainder);
  }

  lemma JoinedParts(was: seq<bv8>, now: seq<bv8>, whole: nat, used: nat, remainder: nat)
    requires |now| == |was| && whole <= used <= |was| && remainder <= 8 * (used - whole)
    requires AddressBits(now[..whole]) == AddressBits(was[..whole])
    requires AddressBits(now[whole..used]) == Canonical(AddressBits(was[whole..used]), remainder)
    requires AddressBits(now[used..]) == Zeros(8 * |now[used..]|)
    ensures AddressBits(now) == Canonical(AddressBits(was), 8 * whole + remainder)
  {
    hide AddressBits, Canonical, Zeros;
    var a, b, c := AddressBits(was[..whole]), AddressBits(was[whole..used]), AddressBits(was[used..]);
    ThreeParts(was, whole, used);
    ThreeParts(now, whole, used);
    CanonicalOfParts(a, b, c, 8 * whole + remainder);
  }

  lemma ThreeParts(bytes: seq<bv8>, whole: nat, used: nat)
    requires whole <= used <= |bytes|
    ensures AddressBits(bytes) == AddressBits(bytes[..whole]) + AddressBits(bytes[whole..used]) + AddressBits(bytes[used..])
  {
    hide AddressBits;
    var a, b, c := bytes[..whole], bytes[whole..used], bytes[used..];
    assert bytes[..used] == a + b;
    assert bytes == bytes[..used] + c;
    BitsConcat(bytes[..used], c);
    BitsConcat(a, b);
  }

  lemma MaskedPart(was: seq<bv8>, now: seq<bv8>, whole: nat, remainder: nat)
    requires remainder < 8 && |now| == |was| && whole + (if remainder > 0 then 1 else 0) <= |was|
    requires remainder > 0 ==> now[whole] == MaskByte(was[whole], remainder)
    ensures var used := if remainder > 0 then whole + 1 else whole;
            AddressBits(now[whole..used]) == Canonical(AddressBits(was[whole..used]), remainder)
  {
    hide ByteBits, KeepMask;
    if remainder > 0 {
      MaskByteBits(was[whole], remainder);
      OneByte(was[whole]);
      OneByte(now[whole]);
      assert now[whole..whole + 1] == [now[whole]] && was[whole..whole + 1] == [was[whole]];
    } else {
      assert now[whole..whole] == [] && was[whole..whole] == [];
    }
  }

  lemma OneByte(b: bv8)
    ensures AddressBits([b]) == ByteBits(b)
  {
  }

  /** The IPv6 branch of canonicalize_prefix, in place. */
  method CanonicalizeInPlace(bytes: array<bv8>, prefixLen: nat)
    requires bytes.Length == 16 && prefixLen <= 128
    modifies bytes
    ensures AddressBits(bytes[..]) == Canonical(AddressBits(old(bytes[..])), prefixLen)
  {
    ghost var was := bytes[..];
    var whole, remainder := prefixLen / 8, prefixLen % 8;
    if whole < 16 && remainder > 0 {
      bytes[whole] := MaskByte(bytes[whole], remainder);
      whole := whole + 1;
    }
    for i := whole to 16
      invariant bytes[..whole] == was[..prefixLen / 8] + if remainder > 0 then [MaskByte(was[prefixLen / 8], remainder)] else []
      invariant forall k :: whole <= k < i ==> bytes[k] == 0
    {
      bytes[i] := 0;
    }
    ghost var now := bytes[..];
    assert now[..whole] == bytes[..whole];
    assert now[..prefixLen / 8] == now[..whole][..prefixLen / 8];
    if remainder > 0 { assert now[prefixLen / 8] == now[..whole][prefixLen / 8]; }
    MaskedAddress(was, now, prefixLen / 8, remainder);
  }

  /** Canonical addresses stay as they are, so equal prefixes have equal keys. */
  lemma CanonicalIdempotent(bits: seq<bool>, prefixLen: nat)
    requires prefixLen <= |bits|
    ensures Canonical(Canonical(bits, prefixLen), prefixLen) == Canonical(bits, prefixLen)
  {
  }

  /** Two addresses have the same canonical form exactly when they agree on the prefix. */
  lemma CanonicalDecidesPrefix(a: seq<bool>, b: seq<bool>, prefixLen: nat)
    requires prefixLen <= |a| == |b|
    ensures Canonical(a, prefixLen) == Canonical(b, prefixLen) <==> a[..prefixLen] == b[..prefixLen]
  {
    assert Canonical(a, prefixLen)[..prefixLen] == a[..prefixLen];
    assert Canonical(b, prefixLen)[..prefixLen] == b[..prefixLen];
  }
}
