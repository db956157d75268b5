/**
 The MsgAnnotateProposal message of x/coredaos (x/coredaos/types/tx.pb.go): its decoder
 as a sequence of assignments, its encoding, the round trip, and the generated methods
 proved against them.  Strings are their bytes.
 */
module AnnotateProposal {
  import opened Options
  import opened ProtoWire
  import opened WireFields
  import opened WireWriter

  datatype Msg = Msg(annotator: seq<byte>, proposalId: uint64, annotation: seq<byte>, overwrite: bool)

  datatype Field =
    | Annotator(s: seq<byte>)
    | ProposalId(n: uint64)
    | Annotation(s: seq<byte>)
    | Overwrite(b: bool)
    | Nothing

  datatype Item = Item(field: Field, next: nat) | NoItem(error: Error)
  datatype Fields = Fields(fields: seq<Field>) | NoFields(error: Error)

  function Assign(m: Msg, f: Field): Msg {
    match f
    case Annotator(s) => m.(annotator := s)
    case ProposalId(n) => m.(proposalId := n)
    case Annotation(s) => m.(annotation := s)
    case Overwrite(b) => m.(overwrite := b)
    case Nothing => m
  }

  function AssignAll(m: Msg, fs: seq<Field>): Msg
    decreases |fs|
  {
    if fs == [] then m else AssignAll(Assign(m, fs[0]), fs[1..])
  }

  // ---------------------------------------------------------------- reading

  function ReadString(d: Buffer, i: nat): (r: Item)
    ensures r.Item? ==> r.field.Annotation? && i < r.next <= |d|
  {
    match ReadBounds(d, i)
    case NoSpan(e) => NoItem(e)
    case Span(lo, hi) => Item(Annotation(d[lo..hi]), hi)
  }

  /** Overwrite is an int accumulated by the shift loop and compared with zero. */
  function ReadNumber(d: Buffer, i: nat, isBool: bool): (r: Item)
    ensures r.Item? ==> i < r.next <= |d|
  {
    match ReadVarint(d, i)
    case Bad(e) => NoItem(e)
    case Found(v, n) => Item(if isBool then Overwrite(v != 0) else ProposalId(v), n)
  }

  function ReadField(d: Buffer, start: nat, t: TagRead): (r: Item)
    requires t.Tag? && start < t.next <= |d|
    ensures r.Item? ==> start < r.next <= |d|
  {
    if t.num == 1 then
      if t.wireType != 2 then NoItem(WrongWireType)
      else match ReadString(d, t.next)
           case Item(f, n) => Item(Annotator(f.s), n)
           case r => r
    else if t.num == 2 then
      if t.wireType != 0 then NoItem(WrongWireType) else ReadNumber(d, t.next, false)
    else if t.num == 3 then
      if t.wireType != 2 then NoItem(WrongWireType) else ReadString(d, t.next)
    else if t.num == 4 then
      if t.wireType != 0 then NoItem(WrongWireType) else ReadNumber(d, t.next, true)
    else
      match SkipField(d, start)
      case Stuck(e) => NoItem(e)
      case To(n) => Item(Nothing, n)
  }

  function NextField(d: Buffer, i: nat): (r: Item)
    ensures r.Item? ==> i < r.next <= |d|
  {
    match ReadTag(d, i)
    case NoTag(e) => NoItem(e)
    case Tag(num, wt, n) => ReadField(d, i, Tag(num, wt, n))
  }

  function ReadFields(d: Buffer, i: nat): Fields
    decreases |d| - i
  {
    if i >= |d| then Fields([])
    else
      match NextField(d, i)
      case NoItem(e) => NoFields(e)
      case Item(f, n) =>
        match ReadFields(d, n)
        case NoFields(e) => NoFields(e)
        case Fields(fs) => Fields([f] + fs)
  }

  datatype Decoded = Decoded(message: Msg) | Refused(error: Error)

  function Unmarshal(d: Buffer, m: Msg): Decoded {
    match ReadFields(d, 0)
    case NoFields(e) => Refused(e)
    case Fields(fs) => Decoded(AssignAll(m, fs))
  }

  // ---------------------------------------------------------------- concatenation

  lemma NextFieldEmbeds(d: Buffer, big: Buffer, off: nat, i: nat)
    requires Within(d, big, off) && NextField(d, i).Item?
    ensures NextField(big, off + i) == NextField(d, i).(next := off + NextField(d, i).next)
  {
    hide ReadTag, ReadBounds, ReadVarint, SkipField;
    ReadTagEmbeds(d, big, off, i);
    var t := ReadTag(d, i);
    if t.num == 1 || t.num == 3 {
      ReadBoundsEmbeds(d, big, off, t.next);
    } else if t.num == 2 || t.num == 4 {
      ReadVarintEmbeds(d, big, off, t.next);
    } else {
      SkipFieldEmbeds(d, big, off, i);
    }
  }

  lemma {:induction false} ReadFieldsEmbeds(d: Buffer, big: Buffer, off: nat, i: nat)
    requires Within(d, big, off) && i <= |d| && ReadFields(d, i).Fields?
    ensures ReadFields(big, off + i) ==
            match ReadFields(big, off + |d|)
            case NoFields(e) => NoFields(e)
            case Fields(fs) => Fields(ReadFields(d, i).fields + fs)
    decreases |d| - i
  {
    hide NextField, ReadFields;
    if i < |d| {
      ReadFieldsStep(d, i);
      NextFieldEmbeds(d, big, off, i);
      ReadFieldsStep(big, off + i);
      ReadFieldsEmbeds(d, big, off, NextField(d, i).next);
    } else {
      ReadFieldsAtEnd(d);
      Appended(ReadFields(big, off + |d|));
    }
  }

  /** Reading from i on is reading one field and then the rest, whatever is appended. */
  lemma ReadFieldsStep(d: Buffer, i: nat)
    requires i < |d|
    ensures ReadFields(d, i) ==
            match NextField(d, i)
            case NoItem(e) => NoFields(e)
            case Item(f, n) =>
              match ReadFields(d, n)
              case NoFields(e) => NoFields(e)
              case Fields(fs) => Fields([f] + fs)
    ensures NextField(d, i).Item? && ReadFields(d, i).Fields? ==>
              && ReadFields(d, NextField(d, i).next).Fields?
              && forall fs: seq<Field> :: ReadFields(d, i).fields + fs ==
                   [NextField(d, i).field] + (ReadFields(d, NextField(d, i).next).fields + fs)
  {
    hide NextField;
  }

  lemma Appended(r: Fields)
    ensures r.Fields? ==> [] + r.fields == r.fields
  {
  }

  lemma ReadFieldsAtEnd(d: Buffer)
    ensures ReadFields(d, |d|) == Fields([])
  {
  }

  lemma ReadFieldsConcat(a: Buffer, b: Buffer)
    requires |a + b| < TWO_TO_63
    requires ReadFields(a, 0).Fields? && ReadFields(b, 0).Fields?
    ensures ReadFields(a + b, 0) == Fields(ReadFields(a, 0).fields + ReadFields(b, 0).fields)
  {
    hide ReadFields;
    assert Within(a, a + b, 0) && Within(b, a + b, |a|);
    ReadFieldsEmbeds(a, a + b, 0, 0);
    ReadFieldsEmbeds(b, a + b, |a|, 0);
    ReadFieldsAtEnd(a + b);
    assert ReadFields(b, 0).fields + [] == ReadFields(b, 0).fields;
  }

  lemma {:induction false} AssignAllConcat(m: Msg, a: seq<Field>, b: seq<Field>)
    ensures AssignAll(m, a + b) == AssignAll(AssignAll(m, a), b)
    decreases |a|
  {
    if a == [] {
      assert a + b == b;
    } else {
      AssignAllConcat(Assign(m, a[0]), a[1..], b);
      assert (a + b)[1..] == a[1..] + b;
    }
  }

  /** Reading a concatenation is reading the first part, then the second into its result. */
  lemma UnmarshalConcat(a: Buffer, b: Buffer, m: Msg)
    requires |a + b| < TWO_TO_63
    requires Unmarshal(a, m).Decoded? && Unmarshal(b, m).Decoded?
    ensures Unmarshal(a + b, m) == Unmarshal(b, Unmarshal(a, m).message)
  {
    hide ReadFields;
    ReadFieldsConcat(a, b);
    AssignAllConcat(m, ReadFields(a, 0).fields, ReadFields(b, 0).fields);
  }

  // ---------------------------------------------------------------- merging

  /** What an input says about a message, whatever message it is read into: each field's last value. */
  datatype Delta = Delta(
    annotator: Option<seq<byte>>, proposalId: Option<uint64>, annotation: Option<seq<byte>>, overwrite: Option<bool>)
  {
    /** Last one wins. */
    function Then(later: Delta): Delta {
      Delta(Later(annotator, later.annotator), Later(proposalId, later.proposalId),
            Later(annotation, later.annotation), Later(overwrite, later.overwrite))
    }
  }

  const NO_CHANGE := Delta(None, None, None, None)

  function Later<T>(a: Option<T>, b: Option<T>): Option<T> {
    if b.Some? then b else a
  }

  function OrOld<T>(a: Option<T>, before: T): T {
    if a.Some? then a.value else before
  }

  /** m with the fields that the input sets. */
  function Merged(m: Msg, delta: Delta): Msg {
    Msg(OrOld(delta.annotator, m.annotator), OrOld(delta.proposalId, m.proposalId),
        OrOld(delta.annotation, m.annotation), OrOld(delta.overwrite, m.overwrite))
  }

  function DeltaOfField(f: Field): Delta {
    match f
    case Annotator(s) => NO_CHANGE.(annotator := Some(s))
    case ProposalId(n) => NO_CHANGE.(proposalId := Some(n))
    case Annotation(s) => NO_CHANGE.(annotation := Some(s))
    case Overwrite(b) => NO_CHANGE.(overwrite := Some(b))
    case Nothing => NO_CHANGE
  }

  function DeltaOf(fs: seq<Field>): Delta
    decreases |fs|
  {
    if fs == [] then NO_CHANGE else DeltaOfField(fs[0]).Then(DeltaOf(fs[1..]))
  }

  lemma {:induction false} AssignAllMerges(m: Msg, fs: seq<Field>)
    ensures AssignAll(m, fs) == Merged(m, DeltaOf(fs))
    decreases |fs|
  {
    if fs != [] { AssignAllMerges(Assign(m, fs[0]), fs[1..]); }
  }

  lemma {:induction false} DeltaOfConcat(a: seq<Field>, b: seq<Field>)
    ensures DeltaOf(a + b) == DeltaOf(a).Then(DeltaOf(b))
    decreases |a|
  {
    if a == [] {
      assert a + b == b;
    } else {
      DeltaOfConcat(a[1..], b);
      assert (a + b)[1..] == a[1..] + b;
    }
  }

  /**
   The merge law: each decodable input has one effect whatever message it is read into, and in
   a concatenation the second input's fields win over the first one's.
   */
  lemma UnmarshalMerges(a: Buffer, b: Buffer, m: Msg)
    requires |a + b| < TWO_TO_63
    requires Unmarshal(a, m).Decoded? && Unmarshal(b, m).Decoded?
    ensures var da, db := DeltaOf(ReadFields(a, 0).fields), DeltaOf(ReadFields(b, 0).fields);
            && Unmarshal(a, m) == Decoded(Merged(m, da)) && Unmarshal(b, m) == Decoded(Merged(m, db))
            && Unmarshal(a + b, m) == Decoded(Merged(m, da.Then(db)))
  {
    hide ReadFields, Merged;
    ReadFieldsConcat(a, b);
    var fa, fb := ReadFields(a, 0).fields, ReadFields(b, 0).fields;
    DeltaOfConcat(fa, fb);
    AssignAllMerges(m, fa);
    AssignAllMerges(m, fb);
    AssignAllMerges(m, fa + fb);
  }

  // ---------------------------------------------------------------- unknown fields

  lemma UnknownReads(u: Unknown)
    requires WellFormed(u) && ToInt32(u.num) > 4 && |Encode(u)| < TWO_TO_63
    ensures ReadFields(Encode(u), 0) == Fields([Nothing])
  {
    hide SkipField;
    var d := Encode(u);
    UnknownTag(u);
    SkipFieldUnknown(u, d, 0);
    assert NextField(d, 0) == Item(Nothing, |d|);
    ReadFieldsAtEnd(d);
    assert [Nothing] + [] == [Nothing];
  }

  /** A well-formed unknown field between two decodable inputs changes nothing. */
  lemma UnknownFieldIgnored(a: Buffer, u: Unknown, b: Buffer, m: Msg)
    requires WellFormed(u) && ToInt32(u.num) > 4 && |a + Encode(u) + b| < TWO_TO_63
    requires Unmarshal(a, m).Decoded? && Unmarshal(b, m).Decoded?
    ensures Unmarshal(a + Encode(u) + b, m) == Unmarshal(a + b, m)
  {
    hide ReadFields, Encode;
    var fa, fb := ReadFields(a, 0).fields, ReadFields(b, 0).fields;
    UnknownReads(u);
    ReadFieldsConcat(a, Encode(u));
    ReadFieldsConcat(a + Encode(u), b);
    ReadFieldsConcat(a, b);
    AssignAllConcat(m, fa + [Nothing], fb);
    AssignAllConcat(m, fa, [Nothing]);
    AssignAllConcat(m, fa, fb);
    assert AssignAll(AssignAll(m, fa), [Nothing]) == AssignAll(m, fa);
  }

  // ---------------------------------------------------------------- writing

  function EncodeString(tag: byte, s: seq<byte>): (r: seq<byte>)
    ensures |r| >= |s|
  {
    if s == [] then [] else DelimitedField(tag, s)
  }

  function EncodeNumber(tag: byte, n: uint64): seq<byte> {
    if n == 0 then [] else VarintField(tag, n)
  }

  /** The bytes Marshal produces: default values are omitted. */
  function EncodeMsg(m: Msg): seq<byte> {
    EncodeString(0x0a, m.annotator) +
    (EncodeNumber(0x10, m.proposalId) +
     (EncodeString(0x1a, m.annotation) + EncodeNumber(0x20, if m.overwrite then 1 else 0)))
  }

  function FieldsOf(m: Msg): seq<Field> {
    (if m.annotator == [] then [] else [Annotator(m.annotator)]) +
    ((if m.proposalId == 0 then [] else [ProposalId(m.proposalId)]) +
     ((if m.annotation == [] then [] else [Annotation(m.annotation)]) +
      (if m.overwrite then [Overwrite(true)] else [])))
  }

  lemma StringReads(first: bool, s: seq<byte>)
    requires |EncodeString(if first then 0x0a else 0x1a, s)| < TWO_TO_63
    ensures ReadFields(EncodeString(if first then 0x0a else 0x1a, s), 0) ==
            Fields(if s == [] then [] else [if first then Annotator(s) else Annotation(s)])
  {
    hide EncodeVarint, ReadVarint, ReadBounds, DelimitedField, ReadTag;
    if s != [] {
      var tag: byte := if first then 0x0a else 0x1a;
      var d := DelimitedField(tag, s);
      DelimitedAt(tag, s, d, 0);
      SmallTag(d, 0);
      var f := if first then Annotator(s) else Annotation(s);
      assert NextField(d, 0) == Item(f, |d|);
      ReadFieldsAtEnd(d);
      assert [f] + [] == [f];
    }
  }

  lemma NumberReads(isBool: bool, n: uint64)
    requires |EncodeNumber(if isBool then 0x20 else 0x10, n)| < TWO_TO_63
    ensures ReadFields(EncodeNumber(if isBool then 0x20 else 0x10, n), 0) ==
            Fields(if n == 0 then [] else [if isBool then Overwrite(true) else ProposalId(n)])
  {
    hide EncodeVarint, ReadVarint, ReadTag;
    if n != 0 {
      var tag: byte := if isBool then 0x20 else 0x10;
      var d := VarintField(tag, n);
      VarintAt(n, d, 1);
      SmallTag(d, 0);
      var f := if isBool then Overwrite(true) else ProposalId(n);
      assert NextField(d, 0) == Item(f, |d|);
      ReadFieldsAtEnd(d);
      assert [f] + [] == [f];
    }
  }

  lemma EncodedMsgReads(m: Msg)
    requires |EncodeMsg(m)| < TWO_TO_63
    ensures ReadFields(EncodeMsg(m), 0) == Fields(FieldsOf(m))
  {
    hide ReadFields, EncodeString, EncodeNumber;
    var e1, e2 := EncodeString(0x0a, m.annotator), EncodeNumber(0x10, m.proposalId);
    var e3, e4 := EncodeString(0x1a, m.annotation), EncodeNumber(0x20, if m.overwrite then 1 else 0);
    StringReads(true, m.annotator);
    NumberReads(false, m.proposalId);
    StringReads(false, m.annotation);
    NumberReads(true, if m.overwrite then 1 else 0);
    ReadFieldsConcat(e3, e4);
    ReadFieldsConcat(e2, e3 + e4);
    ReadFieldsConcat(e1, e2 + (e3 + e4));
  }

  /** The round trip: Unmarshal of Marshal into the zero message gives the message back. */
  lemma RoundTrip(m: Msg)
    requires |EncodeMsg(m)| < TWO_TO_63
    ensures Unmarshal(EncodeMsg(m), Msg([], 0, [], false)) == Decoded(m)
  {
    hide ReadFields, EncodeMsg;
    EncodedMsgReads(m);
    var f1: seq<Field> := if m.annotator == [] then [] else [Annotator(m.annotator)];
    var f2: seq<Field> := if m.proposalId == 0 then [] else [ProposalId(m.proposalId)];
    var f3: seq<Field> := if m.annotation == [] then [] else [Annotation(m.annotation)];
    var f4: seq<Field> := if m.overwrite then [Overwrite(true)] else [];
    var zero := Msg([], 0, [], false);
    AssignAllConcat(zero, f1, f2 + (f3 + f4));
    AssignAllConcat(AssignAll(zero, f1), f2, f3 + f4);
    AssignAllConcat(AssignAll(AssignAll(zero, f1), f2), f3, f4);
  }

  // ---------------------------------------------------------------- the generated methods

  class MsgAnnotateProposal {
    var annotator: seq<byte>
    var proposalId: uint64
    var annotation: seq<byte>
    var overwrite: bool

    constructor (m: Msg)
      ensures Value() == m
    {
      annotator, proposalId, annotation, overwrite := m.annotator, m.proposalId, m.annotation, m.overwrite;
    }

    function Value(): Msg
      reads this
    {
      Msg(annotator, proposalId, annotation, overwrite)
    }

    method Size() returns (n: nat)
      requires |EncodeMsg(Value())| < TWO_TO_63
      ensures n == |EncodeMsg(Value())|
    {
      hide EncodeVarint;
      n := 0;
      var l := |annotator|;
      if l > 0 {
        SovIsLength(l);
        n := n + 1 + l + Sov(l);
      }
      if proposalId != 0 {
        SovIsLength(proposalId);
        n := n + 1 + Sov(proposalId);
      }
      l := |annotation|;
      if l > 0 {
        SovIsLength(l);
        n := n + 1 + l + Sov(l);
      }
      if overwrite {
        SovIsLength(1);
        assert Sov(1) == 1 by { assert Len64(1) == 1 + Len64(0); }
        n := n + 2;
      }
    }

    method MarshalToSizedBuffer(buf: array<byte>) returns (n: nat)
      requires |EncodeMsg(Value())| <= buf.Length < TWO_TO_63
      modifies buf
      ensures n == |EncodeMsg(Value())|
      ensures buf[buf.Length - n..] == EncodeMsg(Value())
      ensures buf[..buf.Length - n] == old(buf[..buf.Length - n])
    {
      hide EncodeString, EncodeNumber;
      var i := PutFlag(buf, buf.Length, overwrite);
      ghost var e := EncodeNumber(0x20, if overwrite then 1 else 0);
      assert buf[i..] == e;
      i := PutString(buf, i, 0x1a, annotation);
      i := PutNumber(buf, i, 0x10, proposalId);
      assert buf[..i] == old(buf[..i]);
      i := PutString(buf, i, 0x0a, annotator);
      n := buf.Length - i;
    }

    method Marshal() returns (buf: array<byte>)
      requires |EncodeMsg(Value())| < TWO_TO_63
      ensures fresh(buf) && buf[..] == EncodeMsg(Value())
    {
      hide EncodeMsg;
      var size := Size();
      buf := new byte[size];
      var n := MarshalToSizedBuffer(buf);
      assert buf[..] == buf[buf.Length - n..];
    }

    method Unmarshal(d: Buffer) returns (err: Option<Error>)
      modifies this
      ensures match ReadFields(d, 0)
              case Fields(fs) => err == None && Value() == AssignAll(old(Value()), fs)
              case NoFields(e) => err == Some(e)
    {
      hide NextField, Assign;
      var i: nat := 0;
      while i < |d|
        invariant i <= |d|
        invariant ReadFields(d, 0).NoFields? ==> ReadFields(d, i) == ReadFields(d, 0)
        invariant ReadFields(d, 0).Fields? ==>
                    ReadFields(d, i).Fields? &&
                    AssignAll(Value(), ReadFields(d, i).fields) == AssignAll(old(Value()), ReadFields(d, 0).fields)
        decreases |d| - i
      {
        ghost var before, item := Value(), NextField(d, i);
        var n, e := UnmarshalField(d, i);
        if e.Some? { return e; }
        if ReadFields(d, n).Fields? {
          assert ([item.field] + ReadFields(d, n).fields)[1..] == ReadFields(d, n).fields;
        }
        i := n;
      }
      if i > |d| { return Some(UnexpectedEOF); }
      return None;
    }

    method UnmarshalField(d: Buffer, i: nat) returns (n: nat, err: Option<Error>)
      requires i < |d|
      modifies this
      ensures match NextField(d, i)
              case Item(f, next) => err == None && n == next && Value() == Assign(old(Value()), f)
              case NoItem(e) => err == Some(e)
    {
      hide ReadBounds, SkipField, ReadVarint;
      n := i;
      var t := ReadTagLoop(d, i);
      if t.NoTag? { return i, Some(t.error); }
      n := t.next;
      if t.num == 1 || t.num == 3 {
        if t.wireType != 2 { return n, Some(WrongWireType); }
        var b := ReadBoundsLoop(d, n);
        if b.NoSpan? { return n, Some(b.error); }
        if t.num == 1 { annotator := d[b.lo..b.hi]; } else { annotation := d[b.lo..b.hi]; }
        n := b.hi;
      } else if t.num == 2 || t.num == 4 {
        if t.wireType != 0 { return n, Some(WrongWireType); }
        var v := ReadVarintLoop(d, n);
        if v.Bad? { return n, Some(v.error); }
        if t.num == 2 { proposalId := v.value; } else { overwrite := v.value != 0; }
        n := v.next;
      } else {
        var r := SkipFieldLoop(d, i);
        if r.Stuck? { return n, Some(r.error); }
        n := r.next;
      }
      return n, None;
    }
  }

  /** A string field, left out when empty. */
  method PutString(buf: array<byte>, offset: nat, tag: byte, s: seq<byte>) returns (base: nat)
    requires |EncodeString(tag, s)| <= offset <= buf.Length < TWO_TO_63
    modifies buf
    ensures base + |EncodeString(tag, s)| == offset
    ensures buf[base..] == EncodeString(tag, s) + old(buf[offset..])
    ensures buf[..base] == old(buf[..base])
  {
    hide DelimitedField;
    base := offset;
    if |s| > 0 { base := PutDelimited(buf, offset, tag, s); }
  }

  /** A varint field, left out when zero. */
  method PutNumber(buf: array<byte>, offset: nat, tag: byte, n: uint64) returns (base: nat)
    requires |EncodeNumber(tag, n)| <= offset <= buf.Length
    modifies buf
    ensures base + |EncodeNumber(tag, n)| == offset
    ensures buf[base..] == EncodeNumber(tag, n) + old(buf[offset..])
    ensures buf[..base] == old(buf[..base])
  {
    hide VarintField;
    base := offset;
    if n != 0 { base := PutVarintField(buf, offset, tag, n); }
  }

  /** The bool field: the byte 1, then its tag, and nothing for false. */
  method PutFlag(buf: array<byte>, offset: nat, flag: bool) returns (base: nat)
    requires |EncodeNumber(0x20, if flag then 1 else 0)| <= offset <= buf.Length
    modifies buf
    ensures base + |EncodeNumber(0x20, if flag then 1 else 0)| == offset
    ensures buf[base..] == EncodeNumber(0x20, if flag then 1 else 0) + old(buf[offset..])
    ensures buf[..base] == old(buf[..base])
  {
    base := offset;
    if flag {
      OneByteField();
      base := PutByte(buf, base, if flag then 1 else 0);
      base := PutByte(buf, base, 0x20);
    }
  }

  lemma OneByteField()
    ensures EncodeNumber(0x20, 1) == [0x20, 1]
  {
    assert EncodeVarint(1) == [1];
  }
}
