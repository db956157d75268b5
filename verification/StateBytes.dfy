/**
 The bytes of the State message, field by field: which tag byte belongs to which field,
 wherever the field stands, and in what order Marshal writes them.
 */
module StateBytes {
  import opened Options
  import opened ProtoWire
  import opened WireFields
  import opened WireWriter
  import WireNumbers
  import opened DynamicFeeState

  /** At i stands a field of n bytes, and reading it makes m' of m. */
  ghost predicate Turns<D(!new)>(c: DecCodec<D>, d: Buffer, i: nat, n: nat, m: State<D>, m': State<D>) {
    var r := NextField(c, d, i);
    r.Item? && r.next == i + n && Assign(m, r.field) == m'
  }

  /** The bytes after the tag of a length-delimited field. */
  function Payload(p: seq<byte>): (s: seq<byte>)
    ensures |s| >= |p|
  {
    EncodeVarint(|p|) + p
  }

  /** 0x0a and a payload assign the base gas price, 0x12 the learning rate; an empty payload changes nothing. */
  lemma DecimalByTag<D(!new)>(c: DecCodec<D>, d: Buffer, i: nat, p: seq<byte>, m: State<D>)
    ensures Within([0x0a] + Payload(p), d, i) ==>
              if p == [] then Turns(c, d, i, |[0x0a] + Payload(p)|, m, m)
              else match c.unmarshal(p)
                   case None => NextField(c, d, i) == NoItem(BadDecimal)
                   case Some(v) => Turns(c, d, i, |[0x0a] + Payload(p)|, m, m.(baseGasPrice := v))
    ensures Within([0x12] + Payload(p), d, i) ==>
              if p == [] then Turns(c, d, i, |[0x12] + Payload(p)|, m, m)
              else match c.unmarshal(p)
                   case None => NextField(c, d, i) == NoItem(BadDecimal)
                   case Some(v) => Turns(c, d, i, |[0x12] + Payload(p)|, m, m.(learningRate := v))
  {
    if Within([0x0a] + Payload(p), d, i) { ByTag(c, d, i, 0x0a, p); }
    if Within([0x12] + Payload(p), d, i) { ByTag(c, d, i, 0x12, p); }
    hide Payload, NextField;
  }

  lemma ByTag<D(!new)>(c: DecCodec<D>, d: Buffer, i: nat, tag: byte, p: seq<byte>)
    requires (tag == 0x0a || tag == 0x12) && Within([tag] + Payload(p), d, i)
    ensures var n := i + |[tag] + Payload(p)|;
            NextField(c, d, i) ==
            if p == [] then Item(Nothing, n)
            else match c.unmarshal(p)
                 case None => NoItem(BadDecimal)
                 case Some(v) => Item(if tag == 0x0a then BaseGasPrice(v) else LearningRate(v), n)
  {
    hide EncodeVarint, ReadVarint, ReadBounds, ReadPacked, ReadTag, SkipField;
    assert [tag] + Payload(p) == DelimitedField(tag, p);
    DelimitedAt(tag, p, d, i);
    hide DelimitedField, Payload;
    SmallTag(d, i);
  }

  /** 0x1a and a packed payload append its elements to the window, and so does 0x18 and one element. */
  lemma WindowByTag<D(!new)>(c: DecCodec<D>, d: Buffer, i: nat, ws: seq<uint64>, n: uint64, m: State<D>)
    ensures Within([0x1a] + Payload(Packed(ws)), d, i) ==>
              Turns(c, d, i, |[0x1a] + Payload(Packed(ws))|, m, m.(window := m.window + ws))
    ensures Within([0x18] + EncodeVarint(n), d, i) ==>
              Turns(c, d, i, |[0x18] + EncodeVarint(n)|, m, m.(window := m.window + [n]))
  {
    if Within([0x1a] + Payload(Packed(ws)), d, i) { PackedByTag(c, d, i, ws); }
    if Within([0x18] + EncodeVarint(n), d, i) { NumberAt(c, d, i, 0x18, n); }
    hide Payload, NextField, Packed, EncodeVarint;
  }

  lemma PackedByTag<D(!new)>(c: DecCodec<D>, d: Buffer, i: nat, ws: seq<uint64>)
    requires Within([0x1a] + Payload(Packed(ws)), d, i)
    ensures NextField(c, d, i) == Item(Window(ws), i + |[0x1a] + Payload(Packed(ws))|)
  {
    hide EncodeVarint, ReadVarint, ReadBounds, ReadDec, ReadElements, Packed, ReadTag, SkipField;
    var p := Packed(ws);
    assert [0x1a] + Payload(p) == DelimitedField(0x1a, p);
    DelimitedAt(0x1a, p, d, i);
    hide DelimitedField, Payload;
    var lo := ReadBounds(d, i + 1).lo;
    assert Within(p, d, lo) by {
      forall x | 0 <= x < |p| ensures d[lo + x] == p[x] {
        assert d[lo..lo + |p|][x] == d[lo + x];
      }
    }
    PackedReads(ws, d, lo);
    SmallTag(d, i);
  }

  lemma NumberAt<D(!new)>(c: DecCodec<D>, d: Buffer, i: nat, tag: byte, n: uint64)
    requires (tag == 0x18 || tag == 0x20) && Within([tag] + EncodeVarint(n), d, i)
    ensures NextField(c, d, i) == Item(if tag == 0x18 then Window([n]) else Index(n), i + |[tag] + EncodeVarint(n)|)
  {
    hide EncodeVarint, ReadVarint, ReadDec, ReadPacked, ReadTag, SkipField;
    WithinParts([tag], EncodeVarint(n), d, i);
    assert d[i + 0] == [tag][0];
    VarintAt(n, d, i + 1);
    SmallTag(d, i);
  }

  /** 0x20 and a number assign the index. */
  lemma IndexByTag<D(!new)>(c: DecCodec<D>, d: Buffer, i: nat, n: uint64, m: State<D>)
    ensures Within([0x20] + EncodeVarint(n), d, i) ==>
              Turns(c, d, i, |[0x20] + EncodeVarint(n)|, m, m.(index := n))
  {
    if Within([0x20] + EncodeVarint(n), d, i) { NumberAt(c, d, i, 0x20, n); }
    hide NextField, EncodeVarint;
  }

  /** Fields 1 and 2 have wire type 2, field 3 has 0 or 2, field 4 has 0; with another one they are refused, and a group does not end here. */
  lemma WrongWireTypes<D(!new)>(c: DecCodec<D>, d: Buffer, i: nat)
    requires i < |d|
    ensures d[i] in {0x08, 0x09, 0x0b, 0x0d, 0x0e, 0x0f, 0x10, 0x11, 0x13, 0x15, 0x16, 0x17,
                     0x19, 0x1b, 0x1d, 0x1e, 0x1f, 0x21, 0x22, 0x23, 0x25, 0x26, 0x27} ==>
              NextField(c, d, i) == NoItem(WrongWireType)
    ensures d[i] in {0x0c, 0x14, 0x1c, 0x24} ==> NextField(c, d, i) == NoItem(EndGroupForNonGroup)
    ensures d[i] in {0x00, 0x01, 0x02, 0x03, 0x05, 0x06, 0x07} ==> NextField(c, d, i) == NoItem(IllegalTag)
  {
    if d[i] < 0x80 { WireNumbers.TagByte(d, i); }
    hide ReadTag, ReadDec, ReadPacked, ReadVarint, SkipField;
  }

  /** A field between two decodable inputs does to the message what it does alone, and nothing else changes. */
  lemma FieldBetween<D(!new)>(c: DecCodec<D>, a: Buffer, f: Buffer, b: Buffer, m: State<D>, m': State<D>)
    requires |a + f + b| < TWO_TO_63 && f != []
    requires Unmarshal(c, a, m).Decoded? && Unmarshal(c, b, m).Decoded?
    requires Turns(c, f, 0, |f|, Unmarshal(c, a, m).message, m')
    ensures Unmarshal(c, a + f + b, m) == Unmarshal(c, b, m')
  {
    var x := NextField(c, f, 0).field;
    assert ReadFields(c, f, 0) == Fields([x]) by {
      ReadFieldsStep(c, f, 0);
      ReadFieldsAtEnd(c, f);
      assert [x] + [] == [x];
    }
    hide ReadFields, NextField;
    var fa, fb := ReadFields(c, a, 0).fields, ReadFields(c, b, 0).fields;
    ReadFieldsConcat(c, a, f);
    ReadFieldsConcat(c, a + f, b);
    AssignAllConcat(m, fa + [x], fb);
    AssignAllConcat(m, fa, [x]);
    assert AssignAll(AssignAll(m, fa), [x]) == Assign(AssignAll(m, fa), x);
  }

  /** The bytes of a State, in the order Marshal writes them: both decimals always, the window if it is not empty, the index if it is not zero. */
  lemma StateInBytes<D(!new)>(c: DecCodec<D>, m: State<D>)
    ensures EncodeState(c, m) ==
            [0x0a] + Payload(c.marshal(m.baseGasPrice)) + [0x12] + Payload(c.marshal(m.learningRate))
            + (if m.window == [] then [] else [0x1a] + Payload(Packed(m.window)))
            + (if m.index == 0 then [] else [0x20] + EncodeVarint(m.index))
  {
    hide EncodeVarint, Packed;
    var e1, e2: seq<byte> := Payload(c.marshal(m.baseGasPrice)), Payload(c.marshal(m.learningRate));
    var e3: seq<byte> := if m.window == [] then [] else [0x1a] + Payload(Packed(m.window));
    var e4: seq<byte> := if m.index == 0 then [] else [0x20] + EncodeVarint(m.index);
    assert EncodeState(c, m) == ([0x0a] + e1) + (([0x12] + e2) + (e3 + e4));
    hide EncodeState, Payload;
    assert ([0x0a] + e1) + (([0x12] + e2) + (e3 + e4)) == [0x0a] + e1 + [0x12] + e2 + e3 + e4;
  }
}
