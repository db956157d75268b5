/**
 What the varints, tags and skipped fields of ProtoWire and WireFields mean, independently of
 how they are read and written: base-128 digits, the least significant first (section
 "Base 128 Varints" of "Encoding"), the wire type in the low three bits of a tag, and the
 number of bytes that each wire type takes.
 */
module WireNumbers {
  import opened ProtoWire
  import opened WireFields

  /** Seven bits a byte, the least significant byte first. */
  function Digits(s: seq<byte>): nat {
    if s == [] then 0 else s[0] % 128 + 128 * Digits(s[1..])
  }

  lemma OneDigit(d: seq<byte>, i: nat)
    requires i < |d| && d[i] < 128
    ensures Digits(d[i..i + 1]) == d[i]
  {
    assert d[i..i + 1] == [d[i]] && [d[i]][1..] == [];
  }

  lemma FirstDigit(d: seq<byte>, i: nat, n: nat)
    requires i < n <= |d|
    ensures Digits(d[i..n]) == d[i] % 128 + 128 * Digits(d[i + 1..n])
  {
    assert d[i..n][1..] == d[i + 1..n];
  }

  // ---------------------------------------------------------------- reading

  /** Where the varint at i ends if at most k bytes of it are left to read, or why it does not. */
  ghost predicate Ends(d: seq<byte>, i: nat, k: nat, r: Scan) {
    match r
    case Found(_, n) => i < n <= |d| && n - i <= k && (forall x | i <= x < n - 1 :: d[x] >= 128) && d[n - 1] < 128
    case Bad(e) =>
      if e == IntOverflow then i + k <= |d| && forall x | i <= x < i + k :: d[x] >= 128
      else e == UnexpectedEOF && |d| < i + k && forall x | i <= x < |d| :: d[x] >= 128
  }

  lemma {:induction false} ReadEnds(d: seq<byte>, i: nat, k: nat)
    requires k <= 10 && i <= |d|
    ensures Ends(d, i, 10 - k, ReadDigits(d, i, k))
    decreases 10 - k
  {
    if k < 10 && i < |d| && d[i] >= 128 {
      ReadEnds(d, i + 1, k + 1);
      EndsOneLater(d, i, 9 - k, ReadDigits(d, i + 1, k + 1), ReadDigits(d, i, k));
      hide Ends;
    }
  }

  lemma EndsOneLater(d: seq<byte>, i: nat, k: nat, r: Scan, r': Scan)
    requires i < |d| && d[i] >= 128 && Ends(d, i + 1, k, r)
    requires if r.Found? then r'.Found? && r'.next == r.next else r' == r
    ensures Ends(d, i, k + 1, r')
  {
  }

  lemma SmallMod(b: nat, p: nat)
    requires b < p
    ensures b % p == b
  {
  }

  lemma SmallMultiple(x: int, m: int)
    requires m > 0 && -m < x * m < m
    ensures x == 0
  {
    if x >= 1 { BigMultiple(x, m); }
    if x <= -1 { BigMultiple(-x, m); }
  }

  lemma BigMultiple(x: int, m: int)
    requires x >= 1 && m > 0
    ensures x * m >= m && -x * m == -(x * m)
  {
    NonNegative(x - 1, m);
    assert x * m == (x - 1) * m + m;
  }

  lemma NonNegative(x: int, m: int)
    requires x >= 0 && m >= 0
    ensures x * m >= 0
  {
  }

  lemma ModOf(q: int, m: int, r: int)
    requires 0 <= r < m
    ensures (q * m + r) % m == r
  {
    var d, e := (q * m + r) / m, (q * m + r) % m;
    assert q * m + r == d * m + e;
    assert (d - q) * m == d * m - q * m;
    SmallMultiple(d - q, m);
  }

  /** One more digit in front of a number taken modulo 2p. */
  lemma DigitMod(b: nat, v: nat, p: nat)
    requires b < 128 && p >= 1
    ensures b + 128 * (v % (2 * p)) == (b + 128 * v) % (2 * (128 * p))
  {
    var q, r := v / (2 * p), v % (2 * p);
    assert v == q * (2 * p) + r;
    assert b + 128 * v == q * (2 * (128 * p)) + (b + 128 * r) by {
      assert 128 * (q * (2 * p)) == q * (2 * (128 * p));
    }
    ModOf(q, 2 * (128 * p), b + 128 * r);
  }

  /** One byte of a varint that goes on. */
  lemma ReadStep(d: seq<byte>, i: nat, k: nat)
    requires ReadDigits(d, i, k).Found? && d[i] >= 128
    ensures k < 9 && Pow128(9 - k) == 128 * Pow128(8 - k)
    ensures var r := ReadDigits(d, i + 1, k + 1);
            r.Found? && ReadDigits(d, i, k) == Found(d[i] - 128 + 128 * r.value, r.next)
  {
  }

  lemma ReadLast(d: seq<byte>, i: nat, k: nat)
    requires ReadDigits(d, i, k).Found? && d[i] < 128
    ensures k <= 9 && Pow128(9 - k) >= (if k < 9 then 128 else 1)
    ensures ReadDigits(d, i, k) == Found(if k == 9 then d[i] % 2 else d[i], i + 1)
    ensures k == 9 ==> Pow128(9 - k) == 1
  {
    Pow128Positive(9 - k);
  }

  lemma {:induction false} ReadValue(d: seq<byte>, i: nat, k: nat)
    requires ReadDigits(d, i, k).Found?
    ensures k <= 9
    ensures ReadDigits(d, i, k).value == Digits(d[i..ReadDigits(d, i, k).next]) % (2 * Pow128(9 - k))
    decreases 10 - k
  {
    hide ReadDigits, Digits, Pow128;
    var n := ReadDigits(d, i, k).next;
    if d[i] < 128 {
      OneDigit(d, i);
      ReadLast(d, i, k);
      if k < 9 { SmallMod(d[i], 2 * Pow128(9 - k)); }
    } else {
      ReadStep(d, i, k);
      ReadValue(d, i + 1, k + 1);
      FirstDigit(d, i, n);
      DigitMod(d[i] - 128, Digits(d[i + 1..n]), Pow128(8 - k));
    }
  }

  /**
   What a varint is: up to ten bytes, all but the last with the high bit set, seven bits each,
   the least significant first, modulo 2^64.  It fails exactly where ten bytes have the high
   bit set, or the buffer ends before one has it clear.
   */
  lemma VarintMeaning(d: seq<byte>, i: nat)
    requires i <= |d|
    ensures match ReadVarint(d, i)
            case Found(v, n) =>
              && n - i <= 10 && (forall x | i <= x < n - 1 :: d[x] >= 128) && d[n - 1] < 128
              && v == Digits(d[i..n]) % 0x1_0000_0000_0000_0000
            case Bad(e) =>
              if e == IntOverflow then i + 10 <= |d| && forall x | i <= x < i + 10 :: d[x] >= 128
              else e == UnexpectedEOF && |d| < i + 10 && forall x | i <= x < |d| :: d[x] >= 128
  {
    Pow128Nine();
    ReadEnds(d, i, 0);
    if ReadVarint(d, i).Found? { ReadValue(d, i, 0); }
    hide ReadDigits, Digits;
  }

  // ---------------------------------------------------------------- writing

  /** The bytes of a number have its digits, the high bit on all but the last, and no digit too many. */
  lemma {:induction false} EncodingMeaning(v: nat)
    ensures var s := EncodeVarint(v);
            && Digits(s) == v && (forall x | 0 <= x < |s| - 1 :: s[x] >= 128) && s[|s| - 1] < 128
            && (|s| > 1 ==> s[|s| - 1] > 0)
    decreases v
  {
    var s := EncodeVarint(v);
    if v < 128 {
      assert s[1..] == [];
    } else {
      EncodingMeaning(v / 128);
      assert s[1..] == EncodeVarint(v / 128);
      forall x | 0 <= x < |s| - 1 ensures s[x] >= 128 {
        if x > 0 { assert s[x] == s[1..][x - 1]; }
      }
      assert s[|s| - 1] == s[1..][|s| - 2];
    }
  }

  // ---------------------------------------------------------------- tags and skipping

  /** The head of a field in one byte: five bits of number and three of wire type; 4 closes no group here, and 0 is no number. */
  lemma TagByte(d: Buffer, i: nat)
    requires i < |d| && d[i] < 0x80
    ensures ReadTag(d, i) ==
            if d[i] % 8 == 4 then NoTag(EndGroupForNonGroup)
            else if d[i] < 8 then NoTag(IllegalTag)
            else Tag(d[i] / 8, d[i] % 8, i + 1)
  {
  }

  /** The head of a field in any number of bytes: the wire type is the low three bits, and the field number the rest cut to a signed 32-bit number, which must be positive. */
  lemma TagMeaning(d: Buffer, i: nat)
    ensures match ReadVarint(d, i)
            case Bad(e) => ReadTag(d, i) == NoTag(e)
            case Found(wire, j) =>
              var low := wire / 8 % 0x1_0000_0000;
              if wire % 8 == 4 then ReadTag(d, i) == NoTag(EndGroupForNonGroup)
              else if low == 0 || low >= 0x8000_0000 then ReadTag(d, i) == NoTag(IllegalTag)
              else ReadTag(d, i) == Tag(low, wire % 8, j)
  {
    hide ReadVarint;
  }

  /** A payload's bounds: its length and its end must both be below 2^63, and its end within the buffer. */
  lemma BoundsMeaning(d: Buffer, i: nat)
    ensures match ReadVarint(d, i)
            case Bad(e) => ReadBounds(d, i) == NoSpan(e)
            case Found(n, j) =>
              if n >= 0x8000_0000_0000_0000 || j + n >= 0x8000_0000_0000_0000 then ReadBounds(d, i) == NoSpan(InvalidLength)
              else if j + n > |d| then ReadBounds(d, i) == NoSpan(UnexpectedEOF)
              else ReadBounds(d, i) == Span(j, j + n)
  {
    hide ReadDigits;
  }

  /** What is skipped after a one-byte tag, by wire type: a varint, eight bytes, a length and as many bytes, a group, four bytes. */
  lemma SkipByWireType(d: Buffer, i: nat, depth: nat)
    requires i < |d| && d[i] < 0x80 && i + 9 < 0x8000_0000_0000_0000
    ensures var t, r, v := d[i] % 8, Skip(d, i, depth), ReadVarint(d, i + 1);
            && (t == 0 ==> if v.Found? then Leaves(d, i, depth, v.next) else r == Stuck(v.error))
            && (t == 1 ==> Leaves(d, i, depth, i + 9))
            && (t == 2 ==> if v.Bad? then r == Stuck(v.error)
                           else if v.value >= 0x8000_0000_0000_0000 || v.next + v.value >= 0x8000_0000_0000_0000
                           then r == Stuck(InvalidLength)
                           else Leaves(d, i, depth, v.next + v.value))
            && (t == 3 ==> r == Skip(d, i + 1, depth + 1))
            && (t == 4 ==> if depth == 0 then r == Stuck(UnexpectedEndOfGroup)
                           else if depth == 1 then r == To(i + 1) else r == Skip(d, i + 1, depth - 1))
            && (t == 5 ==> Leaves(d, i, depth, i + 5))
            && (t == 6 || t == 7 ==> r == Stuck(IllegalWireType))
  {
    hide ReadVarint, ReadDigits, Skip, SkipPayload;
    OneByte(d, i);
    SkipPayloads(d, i + 1, d[i] % 8, depth);
    SkipTurns(d, i, depth, d[i], i + 1);
  }

  lemma OneByte(d: Buffer, i: nat)
    requires i < |d| && d[i] < 128
    ensures ReadVarint(d, i) == Found(d[i], i + 1)
  {
  }

  /** One turn of Skip, whatever it reads. */
  lemma SkipTurns(d: Buffer, i: nat, depth: nat, wire: nat, j: nat)
    requires ReadVarint(d, i) == Found(wire, j)
    ensures Skip(d, i, depth) ==
            match SkipPayload(d, j, wire % 8, depth)
            case Bad(e) => Stuck(e)
            case Found(depth', next) =>
              if next >= 0x8000_0000_0000_0000 then Stuck(InvalidLength)
              else if depth' == 0 then To(next) else Skip(d, next, depth')
  {
    hide ReadVarint, SkipPayload;
  }

  lemma SkipPayloads(d: Buffer, i: nat, t: nat, depth: nat)
    requires i <= |d|
    ensures var p, v := SkipPayload(d, i, t, depth), ReadVarint(d, i);
            && (t == 0 ==> p == if v.Found? then Found(depth, v.next) else v)
            && (t == 1 ==> p == Found(depth, i + 8))
            && (t == 2 ==> p == if v.Bad? then v else if v.value >= 0x8000_0000_0000_0000 then Bad(InvalidLength)
                                else Found(depth, v.next + v.value))
            && (t == 3 ==> p == Found(depth + 1, i))
            && (t == 4 ==> p == if depth == 0 then Bad(UnexpectedEndOfGroup) else Found(depth - 1, i))
            && (t == 5 ==> p == Found(depth, i + 4))
            && (t == 6 || t == 7 ==> p == Bad(IllegalWireType))
  {
    hide ReadDigits;
  }
}
