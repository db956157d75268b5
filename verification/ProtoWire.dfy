/**
 The Protocol Buffers wire format as the generated Go code reads and writes it:
 base-128 varints, tags, length-delimited payloads, and the skipping of unknown
 fields, including nested groups.  Both generated files of the repository
 (x/dynamicfee/types/genesis.pb.go and x/coredaos/types/tx.pb.go) repeat this code
 under different names; it is modelled once here.

 A reader is an index-based function over a whole buffer; the methods are the Go
 loops and are proved equal to the readers.  `Within` says that one buffer occurs
 inside another; the embedding lemmas carry a successful read from a buffer to any
 larger buffer around it, which is what makes concatenation and round trips work.
 */
module ProtoWire {
  const TWO_TO_31: int := 0x8000_0000
  const TWO_TO_32: int := 0x1_0000_0000
  const TWO_TO_63: int := 0x8000_0000_0000_0000
  const TWO_TO_64: int := 0x1_0000_0000_0000_0000

  type byte = x: int | 0 <= x < 256
  type uint64 = x: int | 0 <= x < TWO_TO_64

  /** A Go byte slice: its length is an int, hence below 2^63. */
  type Buffer = b: seq<byte> | |b| < TWO_TO_63

  /** The conversion int(x) of a uint64; also the wrap-around of the sum of two ints. */
  function ToInt64(x: uint64): int {
    if x < TWO_TO_63 then x else x - TWO_TO_64
  }

  /** The conversion int32(x). */
  function ToInt32(x: nat): int {
    var r := x % TWO_TO_32;
    if r < TWO_TO_31 then r else r - TWO_TO_32
  }

  datatype Error =
    | IntOverflow
    | UnexpectedEOF
    | InvalidLength
    | UnexpectedEndOfGroup
    | IllegalWireType
    | EndGroupForNonGroup
    | IllegalTag
    | WrongWireType
    | BadDecimal

  /** A number read, and the index after it. */
  datatype Scan = Found(value: nat, next: nat) | Bad(error: Error)

  // ---------------------------------------------------------------- embedding

  /** d occurs in big at offset off. */
  ghost predicate Within(d: seq<byte>, big: seq<byte>, off: nat) {
    && off + |d| <= |big|
    && forall x :: 0 <= x < |d| ==> big[off + x] == d[x]
  }

  lemma WithinSlice(d: seq<byte>, big: seq<byte>, off: nat, i: nat, j: nat)
    requires Within(d, big, off) && i <= j <= |d|
    ensures big[off + i..off + j] == d[i..j]
  {
  }

  lemma WithinConcat(a: seq<byte>, d: seq<byte>, b: seq<byte>)
    ensures Within(d, a + d + b, |a|)
  {
  }

  // ---------------------------------------------------------------- base-128 varints

  /** The encoding: seven bits a byte, least significant first, high bit set on all but the last. */
  function EncodeVarint(v: nat): (s: seq<byte>)
    ensures |s| >= 1
  {
    if v < 128 then [v] else [v % 128 + 128] + EncodeVarint(v / 128)
  }

  /** bits.Len64: the number of bits of x. */
  function Len64(x: nat): nat {
    if x == 0 then 0 else 1 + Len64(x / 2)
  }

  /** sov: the encoded size, computed without encoding; x|1 sets the lowest bit. */
  function Sov(x: nat): nat {
    (Len64(if x % 2 == 0 then x + 1 else x) + 6) / 7
  }

  lemma Len64Half(x: nat)
    requires x >= 1
    ensures Len64(x) == 1 + Len64(x / 2)
  {
  }

  lemma Len64Eighth(x: nat)
    requires x >= 8
    ensures Len64(x) == 3 + Len64(x / 8)
  {
    Len64Half(x);
    Len64Half(x / 2);
    Len64Half(x / 4);
    assert x / 2 / 2 == x / 4 && x / 4 / 2 == x / 8;
  }

  lemma Len64Shift7(x: nat)
    requires x >= 128
    ensures Len64(x) == 7 + Len64(x / 128)
  {
    Len64Eighth(x);
    Len64Eighth(x / 8);
    Len64Half(x / 64);
    assert x / 8 / 8 == x / 64 && x / 64 / 2 == x / 128;
  }

  lemma Len64LowBit(x: nat)
    requires x >= 1
    ensures Len64(if x % 2 == 0 then x + 1 else x) == Len64(x)
  {
    assert (x + 1) / 2 == x / 2 || x % 2 == 1;
  }

  lemma Len64Small(x: nat)
    requires 1 <= x < 128
    ensures 1 <= Len64(x) <= 7
  {
    Len64Half(x);
    if x >= 16 {
      Len64Eighth(x);
      Len64Half(x / 8);
      Len64Under8(x / 16);
    } else if x >= 2 {
      Len64Under8(x / 2);
    }
  }

  lemma Len64Under8(x: nat)
    requires x < 8
    ensures Len64(x) <= 3
  {
    if x >= 4 { Len64Half(x); Len64Half(x / 2); Len64Half(x / 4); }
  }

  /** sov(v) = (Len64(v|1)+6)/7 is exactly the number of bytes the encoder writes. */
  lemma {:induction false} SovIsLength(v: nat)
    ensures Sov(v) == |EncodeVarint(v)|
  {
    if v < 128 {
      Len64Small(if v % 2 == 0 then v + 1 else v);
    } else {
      Len64LowBit(v);
      Len64Shift7(v);
      Len64LowBit(v / 128);
      SovIsLength(v / 128);
    }
  }

  function Pow128(k: nat): (p: nat)
    ensures p >= 1
  {
    if k == 0 then 1 else 128 * Pow128(k - 1)
  }

  lemma Pow128Nine()
    ensures Pow128(9) == TWO_TO_63 && Pow128(10) == 128 * TWO_TO_63
    ensures forall k: nat :: k <= 8 ==> Pow128(k) * 128 <= TWO_TO_63
  {
    assert Pow128(4) == 0x1000_0000;
    assert Pow128(8) == 0x100_0000_0000_0000;
    forall k: nat | k <= 8 ensures Pow128(k) * 128 <= TWO_TO_63 {
      Pow128Mono(k, 8);
    }
  }

  lemma Pow128Mono(j: nat, k: nat)
    requires j <= k
    ensures Pow128(j) <= Pow128(k)
    decreases k - j
  {
    if j < k { Pow128Mono(j, k - 1); }
  }

  lemma {:induction false} EncodeVarintShort(v: nat, n: nat)
    requires n >= 1 && v < Pow128(n)
    ensures |EncodeVarint(v)| <= n
  {
    if v >= 128 {
      assert n > 1;
      EncodeVarintShort(v / 128, n - 1);
    }
  }

  /** uint64(b) << 7k for a seven-bit b: at k == 9 only the lowest bit is not shifted out. */
  function ShiftLeft(b: nat, k: nat): (r: nat) {
    if k == 9 then (b % 2) * TWO_TO_63 else b * Pow128(k)
  }

  /** ShiftLeft is the product truncated to 64 bits. */
  lemma ShiftLeftTruncates(b: nat, k: nat)
    requires b < 128 && k <= 9
    ensures ShiftLeft(b, k) == (b * Pow128(k)) % TWO_TO_64
  {
    Pow128Nine();
    if k == 9 {
      assert b * TWO_TO_63 == (b / 2) * TWO_TO_64 + (b % 2) * TWO_TO_63;
    } else {
      MulMono(b, 128, Pow128(k));
    }
  }

  lemma MulMono(b: nat, c: nat, p: nat)
    requires b < c && p >= 1
    ensures b * p < c * p
  {
  }

  /**
   The number the bytes from i on denote, in units of 128^k, and the index after its last byte.
   k is the number of bytes already read: Go's `shift` is 7k, and it overflows at shift >= 64.
   The tenth byte (k == 9) keeps only the bit that fits in a uint64.
   */
  function ReadDigits(d: seq<byte>, i: nat, k: nat): (r: Scan)
    ensures r.Found? ==> i < r.next <= |d| && k <= 9 && r.value < 2 * Pow128(9 - k)
    decreases 10 - k
  {
    if k >= 10 then Bad(IntOverflow)
    else if i >= |d| then Bad(UnexpectedEOF)
    else if d[i] < 128 then
      Pow128Positive(9 - k);
      Found(if k == 9 then d[i] % 2 else d[i], i + 1)
    else
      match ReadDigits(d, i + 1, k + 1)
      case Found(v, j) => Found(d[i] - 128 + 128 * v, j)
      case Bad(e) => Bad(e)
  }

  lemma Pow128Positive(k: nat)
    ensures k >= 1 ==> Pow128(k) >= 128
  {
  }

  /** The varint at i, as the shift loop leaves it in a uint64. */
  function ReadVarint(d: seq<byte>, i: nat): (r: Scan)
    ensures r.Found? ==> i < r.next <= |d| && r.value < TWO_TO_64
  {
    Pow128Nine();
    ReadDigits(d, i, 0)
  }

  lemma {:induction false} ReadDigitsEmbeds(d: seq<byte>, big: seq<byte>, off: nat, i: nat, k: nat)
    requires Within(d, big, off) && ReadDigits(d, i, k).Found?
    ensures ReadDigits(big, off + i, k) == Found(ReadDigits(d, i, k).value, off + ReadDigits(d, i, k).next)
    decreases 10 - k
  {
    if d[i] >= 128 {
      ReadDigitsEmbeds(d, big, off, i + 1, k + 1);
      assert off + i + 1 == off + (i + 1);
    }
  }

  lemma ReadVarintEmbeds(d: seq<byte>, big: seq<byte>, off: nat, i: nat)
    requires Within(d, big, off) && ReadVarint(d, i).Found?
    ensures ReadVarint(big, off + i) == Found(ReadVarint(d, i).value, off + ReadVarint(d, i).next)
  {
    ReadDigitsEmbeds(d, big, off, i, 0);
  }

  lemma {:induction false} ReadDigitsOfEncode(v: nat, k: nat)
    requires k <= 9 && v < 2 * Pow128(9 - k)
    ensures ReadDigits(EncodeVarint(v), 0, k) == Found(v, |EncodeVarint(v)|)
    decreases v
  {
    if v >= 128 {
      var s := EncodeVarint(v);
      var t := EncodeVarint(v / 128);
      assert k < 9;
      ReadDigitsOfEncode(v / 128, k + 1);
      assert Within(t, s, 1);
      ReadDigitsEmbeds(t, s, 1, 0, k + 1);
    }
  }

  lemma EncodeVarintAtMostTen(v: uint64)
    ensures |EncodeVarint(v)| <= 10
  {
    Pow128Nine();
    EncodeVarintShort(v, 10);
  }

  /** The encoder's bytes read back as v, consuming exactly those bytes, wherever they stand. */
  lemma VarintRoundTrip(v: uint64, before: seq<byte>, after: seq<byte>)
    ensures |EncodeVarint(v)| <= 10
    ensures ReadVarint(before + EncodeVarint(v) + after, |before|) == Found(v, |before| + |EncodeVarint(v)|)
  {
    EncodeVarintAtMostTen(v);
    Pow128Nine();
    var s := EncodeVarint(v);
    ReadDigitsOfEncode(v, 0);
    WithinConcat(before, s, after);
    ReadDigitsEmbeds(s, before + s + after, |before|, 0, 0);
  }

  lemma EncodedSuffix(code: seq<byte>, c: nat, u: nat)
    requires c <= |code| && code[c..] == EncodeVarint(u)
    ensures c < |code|
    ensures u >= 128 ==> code[c] == u % 128 + 128 && code[c + 1..] == EncodeVarint(u / 128)
    ensures u < 128 ==> code[c] == u && c + 1 == |code|
  {
    assert code[c] == code[c..][0] && code[c + 1..] == code[c..][1..];
  }

  /** encodeVarint: writes v just below offset and returns the index of its first byte. */
  method EncodeVarintAt(buf: array<byte>, offset: nat, v: uint64) returns (base: nat)
    requires Sov(v) <= offset <= buf.Length
    modifies buf
    ensures base == offset - |EncodeVarint(v)|
    ensures buf[base..offset] == EncodeVarint(v)
    ensures forall x | 0 <= x < base || offset <= x < buf.Length :: buf[x] == old(buf[x])
  {
    SovIsLength(v);
    ghost var code, c: nat := EncodeVarint(v), 0;
    var o: nat := offset - Sov(v);
    base := o;
    var u: nat := v;
    while u >= 128
      invariant o == base + c && c <= |code| && EncodeVarint(u) == code[c..]
      invariant forall x | 0 <= x < buf.Length :: buf[x] == if base <= x < o then code[x - base] else old(buf[x])
      decreases u
    {
      EncodedSuffix(code, c, u);
      buf[o] := u % 128 + 128;
      u := u / 128;
      o, c := o + 1, c + 1;
    }
    EncodedSuffix(code, c, u);
    buf[o] := u;
  }

  /** The shift loop. `acc |= term` is written as a sum: acc stays below 128^k, term is a multiple of it. */
  method ReadVarintLoop(d: seq<byte>, i: nat) returns (r: Scan)
    ensures r == ReadVarint(d, i)
  {
    var acc: nat := 0;
    var j, k := i, 0;
    assert Pow128(0) == 1;
    hide Pow128, ShiftLeft;
    while true
      invariant k <= 10 && i <= j
      invariant ReadVarint(d, i).Bad? ==> ReadDigits(d, j, k) == ReadVarint(d, i)
      invariant ReadVarint(d, i).Found? ==> Continues(d, j, k, acc, ReadVarint(d, i).value, ReadVarint(d, i).next)
      decreases 10 - k
    {
      if k >= 10 { return Bad(IntOverflow); }
      if j >= |d| { return Bad(UnexpectedEOF); }
      ContinuesStep(d, j, k, acc);
      var b := d[j];
      j := j + 1;
      acc := acc + ShiftLeft(b % 128, k);
      if b < 128 { return Found(acc, j); }
      k := k + 1;
    }
  }

  /** With acc accumulated so far, reading on from j yields v and stops at n. */
  ghost predicate Continues(d: seq<byte>, j: nat, k: nat, acc: nat, v: nat, n: nat) {
    var r := ReadDigits(d, j, k);
    r.Found? && n == r.next && v == acc + r.value * Pow128(k)
  }

  lemma ContinuesStep(d: seq<byte>, j: nat, k: nat, acc: nat)
    requires k <= 9 && j < |d|
    ensures forall v, n :: Continues(d, j, k, acc, v, n) ==>
              if d[j] < 128 then v == acc + ShiftLeft(d[j] % 128, k) && n == j + 1
              else Continues(d, j + 1, k + 1, acc + ShiftLeft(d[j] % 128, k), v, n)
    ensures d[j] >= 128 && ReadDigits(d, j, k).Bad? ==> ReadDigits(d, j + 1, k + 1) == ReadDigits(d, j, k)
  {
    if d[j] < 128 {
      if k == 9 { Pow128Nine(); }
    } else if ReadDigits(d, j, k).Found? {
      assert ReadDigits(d, j + 1, k + 1).Found? && k < 9;
      Regroup(d[j] - 128, ReadDigits(d, j + 1, k + 1).value, Pow128(k));
    }
  }

  lemma Regroup(b: nat, v: nat, p: nat)
    ensures (b + 128 * v) * p == b * p + v * (128 * p)
  {
  }
}
