/**
 The backwards-filling writers of the generated Marshal code.  A message is written
 from the end of its buffer towards the front; every writer returns the index of the
 first byte it wrote, and says that the buffer from there on is what it wrote followed
 by what was written before.
 */
module WireWriter {
  import opened ProtoWire
  import WireFields

  /** i -= len(src); copy(buf[i:], src). */
  method PutBytes(buf: array<byte>, offset: nat, src: seq<byte>) returns (base: nat)
    requires |src| <= offset <= buf.Length
    modifies buf
    ensures base + |src| == offset
    ensures buf[base..] == src + old(buf[offset..])
    ensures buf[..base] == old(buf[..base])
  {
    base := offset - |src|;
    for c := 0 to |src|
      invariant forall x | 0 <= x < buf.Length :: buf[x] == if base <= x < base + c then src[x - base] else old(buf[x])
    {
      buf[base + c] := src[c];
    }
  }

  /** i = encodeVarint(buf, i, v). */
  method PutVarint(buf: array<byte>, offset: nat, v: uint64) returns (base: nat)
    requires |EncodeVarint(v)| <= offset <= buf.Length
    modifies buf
    ensures base + |EncodeVarint(v)| == offset
    ensures buf[base..] == EncodeVarint(v) + old(buf[offset..])
    ensures buf[..base] == old(buf[..base])
  {
    hide EncodeVarint;
    SovIsLength(v);
    base := EncodeVarintAt(buf, offset, v);
    assert buf[base..] == buf[base..offset] + buf[offset..];
  }

  /** i--; buf[i] = b. */
  method PutByte(buf: array<byte>, offset: nat, b: byte) returns (base: nat)
    requires 1 <= offset <= buf.Length
    modifies buf
    ensures base + 1 == offset
    ensures buf[base..] == [b] + old(buf[offset..])
    ensures buf[..base] == old(buf[..base])
  {
    base := offset - 1;
    buf[base] := b;
  }

  /** A length-delimited field: tag byte, varint length, payload. */
  function DelimitedField(tag: byte, payload: seq<byte>): (s: seq<byte>)
    ensures |s| >= 1 + |payload|
  {
    [tag] + (EncodeVarint(|payload|) + payload)
  }

  /** Bounds of a length-delimited field that stands at i. */
  lemma DelimitedAt(tag: byte, payload: seq<byte>, d: Buffer, i: nat)
    requires Within(DelimitedField(tag, payload), d, i)
    ensures var lo := i + 1 + |EncodeVarint(|payload|)|;
            && d[i] == tag
            && WireFields.ReadBounds(d, i + 1) == WireFields.Span.Span(lo, lo + |payload|)
            && lo + |payload| == i + |DelimitedField(tag, payload)|
            && d[lo..lo + |payload|] == payload
  {
    hide EncodeVarint, ReadVarint;
    var len := EncodeVarint(|payload|);
    WireFields.WithinParts([tag], len + payload, d, i);
    WireFields.WithinParts(len, payload, d, i + 1);
    WireFields.VarintAt(|payload|, d, i + 1);
    WithinSlice(payload, d, i + 1 + |len|, 0, |payload|);
    assert payload[..|payload|] == payload;
    assert d[i + 0] == [tag][0];
  }

  /** Payload, then its length, then the tag byte: the order the Go code writes them in. */
  method PutDelimited(buf: array<byte>, offset: nat, tag: byte, payload: seq<byte>) returns (base: nat)
    requires |payload| < TWO_TO_63 && |DelimitedField(tag, payload)| <= offset <= buf.Length
    modifies buf
    ensures base + |DelimitedField(tag, payload)| == offset
    ensures buf[base..] == DelimitedField(tag, payload) + old(buf[offset..])
    ensures buf[..base] == old(buf[..base])
  {
    hide EncodeVarint;
    ghost var before := buf[..];
    var i := PutBytes(buf, offset, payload);
    ghost var first := buf[..];
    var j := PutVarint(buf, i, |payload|);
    ghost var second := buf[..];
    base := PutByte(buf, j, tag);
    assert buf[..base] == second[..j][..base] && second[..j][..base] == first[..i][..base];
    assert first[..i][..base] == before[..base];
    assert [tag] + (EncodeVarint(|payload|) + (payload + old(buf[offset..]))) ==
           DelimitedField(tag, payload) + old(buf[offset..]);
  }

  /** A varint field: tag byte, value. */
  function VarintField(tag: byte, v: uint64): (s: seq<byte>)
    ensures |s| >= 2
  {
    [tag] + EncodeVarint(v)
  }

  method PutVarintField(buf: array<byte>, offset: nat, tag: byte, v: uint64) returns (base: nat)
    requires |VarintField(tag, v)| <= offset <= buf.Length
    modifies buf
    ensures base + |VarintField(tag, v)| == offset
    ensures buf[base..] == VarintField(tag, v) + old(buf[offset..])
    ensures buf[..base] == old(buf[..base])
  {
    hide EncodeVarint;
    var j := PutVarint(buf, offset, v);
    base := PutByte(buf, j, tag);
    assert [tag] + (EncodeVarint(v) + old(buf[offset..])) == VarintField(tag, v) + old(buf[offset..]);
  }

  /** The concatenated varints of a packed repeated field. */
  function Packed(ws: seq<uint64>): seq<byte> {
    if ws == [] then [] else EncodeVarint(ws[0]) + Packed(ws[1..])
  }

  lemma {:induction false} PackedConcat(a: seq<uint64>, b: seq<uint64>)
    ensures Packed(a + b) == Packed(a) + Packed(b)
  {
    hide EncodeVarint;
    if a == [] {
      assert a + b == b;
    } else {
      PackedConcat(a[1..], b);
      assert (a + b)[1..] == a[1..] + b;
    }
  }

  lemma PackedSnoc(ws: seq<uint64>, k: nat)
    requires k < |ws|
    ensures Packed(ws[..k + 1]) == Packed(ws[..k]) + EncodeVarint(ws[k])
  {
    hide EncodeVarint;
    assert ws[..k + 1] == ws[..k] + [ws[k]];
    PackedConcat(ws[..k], [ws[k]]);
    assert Packed([ws[k]]) == EncodeVarint(ws[k]) + [];
  }

  /** The scratch buffer of ten bytes an element never overflows. */
  lemma {:induction false} PackedFitsScratch(ws: seq<uint64>)
    ensures |Packed(ws)| <= 10 * |ws|
  {
    if ws != [] {
      EncodeVarintAtMostTen(ws[0]);
      PackedFitsScratch(ws[1..]);
    }
  }

  /** One element written into the scratch buffer at j. */
  method PutScratch(scratch: array<byte>, j: nat, num: uint64) returns (end: nat)
    requires j + |EncodeVarint(num)| <= scratch.Length
    modifies scratch
    ensures end == j + |EncodeVarint(num)|
    ensures scratch[..end] == old(scratch[..j]) + EncodeVarint(num)
  {
    ghost var code, c: nat := EncodeVarint(num), 0;
    end := j;
    var u: nat := num;
    while u >= 128
      invariant end == j + c && c <= |code| && EncodeVarint(u) == code[c..]
      invariant forall x | 0 <= x < end :: scratch[x] == if x < j then old(scratch[x]) else code[x - j]
      decreases u
    {
      EncodedSuffix(code, c, u);
      scratch[end] := u % 128 + 128;
      u := u / 128;
      end, c := end + 1, c + 1;
    }
    EncodedSuffix(code, c, u);
    scratch[end] := u;
    end := end + 1;
  }

  /** The packed field: elements forwards into a scratch buffer of 10 bytes each, copied below offset. */
  method PutPacked(buf: array<byte>, offset: nat, tag: byte, ws: seq<uint64>) returns (base: nat)
    requires |Packed(ws)| < TWO_TO_63 && |DelimitedField(tag, Packed(ws))| <= offset <= buf.Length
    modifies buf
    ensures base + |DelimitedField(tag, Packed(ws))| == offset
    ensures buf[base..] == DelimitedField(tag, Packed(ws)) + old(buf[offset..])
    ensures buf[..base] == old(buf[..base])
  {
    hide EncodeVarint, DelimitedField;
    var scratch := new byte[|ws| * 10];
    var j: nat := 0;
    for k := 0 to |ws|
      invariant j <= 10 * k && scratch[..j] == Packed(ws[..k])
      invariant buf[..] == old(buf[..])
    {
      PackedSnoc(ws, k);
      EncodeVarintAtMostTen(ws[k]);
      j := PutScratch(scratch, j, ws[k]);
    }
    assert ws[..|ws|] == ws;
    assert buf[offset..] == old(buf[offset..]);
    base := PutDelimited(buf, offset, tag, scratch[..j]);
  }
}
