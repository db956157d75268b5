/**
 The bytes of MsgAnnotateProposal, field by field: which tag byte belongs to which field,
 wherever the field stands, and in what order Marshal writes them.
 */
module AnnotateBytes {
  import opened ProtoWire
  import opened WireFields
  import opened WireWriter
  import WireNumbers
  import opened AnnotateProposal

  /** At i stands a field of n bytes, and reading it makes m' of m. */
  ghost predicate Turns(d: Buffer, i: nat, n: nat, m: Msg, m': Msg) {
    var r := NextField(d, i);
    r.Item? && r.next == i + n && Assign(m, r.field) == m'
  }

  /** The bytes after the tag of a length-delimited field. */
  function Payload(p: seq<byte>): (s: seq<byte>)
    ensures |s| >= |p|
  {
    EncodeVarint(|p|) + p
  }

  /** 0x0a and a payload assign the annotator, 0x1a the annotation. */
  lemma StringByTag(d: Buffer, i: nat, p: seq<byte>, m: Msg)
    ensures Within([0x0a] + Payload(p), d, i) ==> Turns(d, i, |[0x0a] + Payload(p)|, m, m.(annotator := p))
    ensures Within([0x1a] + Payload(p), d, i) ==> Turns(d, i, |[0x1a] + Payload(p)|, m, m.(annotation := p))
  {
    if Within([0x0a] + Payload(p), d, i) { StringAt(d, i, 0x0a, p); }
    if Within([0x1a] + Payload(p), d, i) { StringAt(d, i, 0x1a, p); }
    hide Payload, NextField;
  }

  lemma StringAt(d: Buffer, i: nat, tag: byte, p: seq<byte>)
    requires (tag == 0x0a || tag == 0x1a) && Within([tag] + Payload(p), d, i)
    ensures NextField(d, i) == Item(if tag == 0x0a then Annotator(p) else Annotation(p), i + |[tag] + Payload(p)|)
  {
    hide EncodeVarint, ReadVarint, ReadBounds, ReadTag, SkipField;
    assert [tag] + Payload(p) == DelimitedField(tag, p);
    DelimitedAt(tag, p, d, i);
    hide DelimitedField, Payload;
    SmallTag(d, i);
  }

  /** 0x10 and a number assign the proposal id, 0x20 whether it is not zero to the overwrite flag. */
  lemma NumberByTag(d: Buffer, i: nat, n: uint64, m: Msg)
    ensures Within([0x10] + EncodeVarint(n), d, i) ==> Turns(d, i, |[0x10] + EncodeVarint(n)|, m, m.(proposalId := n))
    ensures Within([0x20] + EncodeVarint(n), d, i) ==> Turns(d, i, |[0x20] + EncodeVarint(n)|, m, m.(overwrite := n != 0))
  {
    if Within([0x10] + EncodeVarint(n), d, i) { NumberAt(d, i, 0x10, n); }
    if Within([0x20] + EncodeVarint(n), d, i) { NumberAt(d, i, 0x20, n); }
    hide NextField, EncodeVarint;
  }

  lemma NumberAt(d: Buffer, i: nat, tag: byte, n: uint64)
    requires (tag == 0x10 || tag == 0x20) && Within([tag] + EncodeVarint(n), d, i)
    ensures NextField(d, i) == Item(if tag == 0x10 then ProposalId(n) else Overwrite(n != 0), i + |[tag] + EncodeVarint(n)|)
  {
    hide EncodeVarint, ReadVarint, ReadTag, SkipField;
    WithinParts([tag], EncodeVarint(n), d, i);
    assert d[i + 0] == [tag][0];
    VarintAt(n, d, i + 1);
    SmallTag(d, i);
  }

  /** Fields 1 and 3 have wire type 2, fields 2 and 4 have 0; with another one they are refused, and a group does not end here. */
  lemma WrongWireTypes(d: Buffer, i: nat)
    requires i < |d|
    ensures d[i] in {0x08, 0x09, 0x0b, 0x0d, 0x0e, 0x0f, 0x11, 0x12, 0x13, 0x15, 0x16, 0x17,
                     0x18, 0x19, 0x1b, 0x1d, 0x1e, 0x1f, 0x21, 0x22, 0x23, 0x25, 0x26, 0x27} ==>
              NextField(d, i) == NoItem(WrongWireType)
    ensures d[i] in {0x0c, 0x14, 0x1c, 0x24} ==> NextField(d, i) == NoItem(EndGroupForNonGroup)
    ensures d[i] in {0x00, 0x01, 0x02, 0x03, 0x05, 0x06, 0x07} ==> NextField(d, i) == NoItem(IllegalTag)
  {
    if d[i] < 0x80 { WireNumbers.TagByte(d, i); }
    hide ReadTag, ReadString, ReadNumber, SkipField;
  }

  /** A field between two decodable inputs does to the message what it does alone, and nothing else changes. */
  lemma FieldBetween(a: Buffer, f: Buffer, b: Buffer, m: Msg, m': Msg)
    requires |a + f + b| < TWO_TO_63 && f != []
    requires Unmarshal(a, m).Decoded? && Unmarshal(b, m).Decoded?
    requires Turns(f, 0, |f|, Unmarshal(a, m).message, m')
    ensures Unmarshal(a + f + b, m) == Unmarshal(b, m')
  {
    var x := NextField(f, 0).field;
    assert ReadFields(f, 0) == Fields([x]) by {
      ReadFieldsStep(f, 0);
      ReadFieldsAtEnd(f);
      assert [x] + [] == [x];
    }
    hide ReadFields, NextField;
    var fa, fb := ReadFields(a, 0).fields, ReadFields(b, 0).fields;
    ReadFieldsConcat(a, f);
    ReadFieldsConcat(a + f, b);
    AssignAllConcat(m, fa + [x], fb);
    AssignAllConcat(m, fa, [x]);
    assert AssignAll(AssignAll(m, fa), [x]) == Assign(AssignAll(m, fa), x);
  }

  /** The bytes of a message, in the order Marshal writes them: every field that is not empty, zero or false. */
  lemma MsgInBytes(m: Msg)
    ensures EncodeMsg(m) ==
            (if m.annotator == [] then [] else [0x0a] + Payload(m.annotator))
            + (if m.proposalId == 0 then [] else [0x10] + EncodeVarint(m.proposalId))
            + (if m.annotation == [] then [] else [0x1a] + Payload(m.annotation))
            + (if m.overwrite then [0x20, 0x01] else [])
  {
    var e1: seq<byte> := if m.annotator == [] then [] else [0x0a] + Payload(m.annotator);
    var e2: seq<byte> := if m.proposalId == 0 then [] else [0x10] + EncodeVarint(m.proposalId);
    var e3: seq<byte> := if m.annotation == [] then [] else [0x1a] + Payload(m.annotation);
    var e4: seq<byte> := if m.overwrite then [0x20, 0x01] else [];
    StringInBytes(0x0a, m.annotator);
    StringInBytes(0x1a, m.annotation);
    assert EncodeVarint(1) == [0x01] && [0x20] + [0x01] == [0x20, 0x01];
    hide EncodeVarint, Payload, EncodeString;
    assert EncodeMsg(m) == e1 + (e2 + (e3 + e4));
    hide EncodeMsg;
    Associated(e1, e2, e3, e4);
  }

  lemma StringInBytes(tag: byte, s: seq<byte>)
    ensures EncodeString(tag, s) == if s == [] then [] else [tag] + Payload(s)
  {
    hide EncodeVarint;
  }

  lemma Associated(a: seq<byte>, b: seq<byte>, c: seq<byte>, d: seq<byte>)
    ensures a + (b + (c + d)) == a + b + c + d
  {
  }
}
