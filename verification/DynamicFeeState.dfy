/**
 The State message of x/dynamicfee (x/dynamicfee/types/genesis.pb.go): a decoder that
 reads a buffer as a sequence of field assignments, the generated Marshal, Size and
 Unmarshal methods proved against it, and the laws of the format: round trip,
 concatenation as merge, and indifference to unknown fields and to packing.
 */
module DynamicFeeState {
  import opened Options
  import opened ProtoWire
  import opened WireFields
  import opened WireWriter

  /** LegacyDec's own Marshal and Unmarshal, which are not part of this repository. */
  datatype DecCodec<!D> = DecCodec(marshal: D -> seq<byte>, unmarshal: seq<byte> -> Option<D>)

  /** A decimal never has an empty encoding, and reads back from its encoding. */
  ghost predicate Lawful<D(!new)>(c: DecCodec<D>) {
    forall x: D :: 0 < |c.marshal(x)| < TWO_TO_63 && c.unmarshal(c.marshal(x)) == Some(x)
  }

  datatype State<D> = State(baseGasPrice: D, learningRate: D, window: seq<uint64>, index: uint64)

  /** What one field of the wire format does to the message. */
  datatype Field<D> =
    | BaseGasPrice(v: D)
    | LearningRate(v: D)
    | Window(ws: seq<uint64>)
    | Index(n: uint64)
    | Nothing

  datatype Item<D> = Item(field: Field<D>, next: nat) | NoItem(error: Error)
  datatype Fields<D> = Fields(fields: seq<Field<D>>) | NoFields(error: Error)
  datatype Elements = Elements(ws: seq<uint64>, next: nat) | NoElements(error: Error)

  function Assign<D>(m: State<D>, f: Field<D>): State<D> {
    match f
    case BaseGasPrice(v) => m.(baseGasPrice := v)
    case LearningRate(v) => m.(learningRate := v)
    case Window(ws) => m.(window := m.window + ws)
    case Index(n) => m.(index := n)
    case Nothing => m
  }

  function AssignAll<D>(m: State<D>, fs: seq<Field<D>>): State<D>
    decreases |fs|
  {
    if fs == [] then m else AssignAll(Assign(m, fs[0]), fs[1..])
  }

  // ---------------------------------------------------------------- reading

  /** The payload of a decimal; LegacyDec.Unmarshal leaves the old value for an empty payload. */
  function ReadDec<D>(c: DecCodec<D>, d: Buffer, i: nat): (r: Item<D>)
    ensures r.Item? ==> i < r.next <= |d| && (r.field.BaseGasPrice? || r.field.Nothing?)
  {
    match ReadBounds(d, i)
    case NoSpan(e) => NoItem(e)
    case Span(lo, hi) =>
      if lo == hi then Item(Nothing, hi)
      else match c.unmarshal(d[lo..hi])
           case None => NoItem(BadDecimal)
           case Some(v) => Item(BaseGasPrice(v), hi)
  }

  /** Packed elements from i up to hi; as in the source, the last one may run past hi. */
  function ReadElements(d: Buffer, i: nat, hi: nat): (r: Elements)
    requires hi <= |d|
    ensures r.Elements? ==> i <= r.next && hi <= r.next && (i <= |d| ==> r.next <= |d|)
    decreases hi - i
  {
    if i >= hi then Elements([], i)
    else
      match ReadVarint(d, i)
      case Bad(e) => NoElements(e)
      case Found(v, j) =>
        match ReadElements(d, j, hi)
        case NoElements(e) => NoElements(e)
        case Elements(ws, n) => Elements([v] + ws, n)
  }

  function ReadPacked<D>(d: Buffer, i: nat): (r: Item<D>)
    ensures r.Item? ==> i < r.next <= |d|
  {
    match ReadBounds(d, i)
    case NoSpan(e) => NoItem(e)
    case Span(lo, hi) =>
      match ReadElements(d, lo, hi)
      case NoElements(e) => NoItem(e)
      case Elements(ws, n) => Item(Window(ws), n)
  }

  /** The switch on the field number, after the tag. */
  function ReadField<D>(c: DecCodec<D>, d: Buffer, start: nat, t: TagRead): (r: Item<D>)
    requires t.Tag? && start < t.next <= |d|
    ensures r.Item? ==> start < r.next <= |d|
  {
    if t.num == 1 then
      if t.wireType != 2 then NoItem(WrongWireType) else ReadDec(c, d, t.next)
    else if t.num == 2 then
      if t.wireType != 2 then NoItem(WrongWireType)
      else match ReadDec(c, d, t.next)
           case Item(BaseGasPrice(v), n) => Item(LearningRate(v), n)
           case r => r
    else if t.num == 3 then
      if t.wireType == 0 then
        match ReadVarint(d, t.next)
        case Bad(e) => NoItem(e)
        case Found(v, n) => Item(Window([v]), n)
      else if t.wireType == 2 then ReadPacked(d, t.next)
      else NoItem(WrongWireType)
    else if t.num == 4 then
      if t.wireType != 0 then NoItem(WrongWireType)
      else match ReadVarint(d, t.next)
           case Bad(e) => NoItem(e)
           case Found(v, n) => Item(Index(v), n)
    else
      match SkipField(d, start)
      case Stuck(e) => NoItem(e)
      case To(n) => Item(Nothing, n)
  }

  function NextField<D>(c: DecCodec<D>, d: Buffer, i: nat): (r: Item<D>)
    ensures r.Item? ==> i < r.next <= |d|
  {
    match ReadTag(d, i)
    case NoTag(e) => NoItem(e)
    case Tag(num, wt, n) => ReadField(c, d, i, Tag(num, wt, n))
  }

  /** The whole buffer from i on, as the sequence of assignments it makes. */
  function ReadFields<D>(c: DecCodec<D>, d: Buffer, i: nat): Fields<D>
    decreases |d| - i
  {
    if i >= |d| then Fields([])
    else
      match NextField(c, d, i)
      case NoItem(e) => NoFields(e)
      case Item(f, n) =>
        match ReadFields(c, d, n)
        case NoFields(e) => NoFields(e)
        case Fields(fs) => Fields([f] + fs)
  }

  // ---------------------------------------------------------------- embedding

  lemma {:induction false} ReadElementsEmbeds(d: Buffer, big: Buffer, off: nat, i: nat, hi: nat)
    requires Within(d, big, off) && hi <= |d| && ReadElements(d, i, hi).Elements?
    ensures ReadElements(big, off + i, off + hi) ==
            ReadElements(d, i, hi).(next := off + ReadElements(d, i, hi).next)
    decreases hi - i
  {
    hide ReadVarint;
    if i < hi {
      ReadVarintEmbeds(d, big, off, i);
      ReadElementsEmbeds(d, big, off, ReadVarint(d, i).next, hi);
    }
  }

  lemma ReadDecEmbeds<D>(c: DecCodec<D>, d: Buffer, big: Buffer, off: nat, i: nat)
    requires Within(d, big, off) && ReadDec(c, d, i).Item?
    ensures ReadDec(c, big, off + i) == ReadDec(c, d, i).(next := off + ReadDec(c, d, i).next)
  {
    hide ReadBounds;
    ReadBoundsEmbeds(d, big, off, i);
  }

  lemma ReadPackedEmbeds<D>(d: Buffer, big: Buffer, off: nat, i: nat)
    requires Within(d, big, off) && ReadPacked<D>(d, i).Item?
    ensures ReadPacked<D>(big, off + i) == ReadPacked<D>(d, i).(next := off + ReadPacked<D>(d, i).next)
  {
    hide ReadBounds, ReadElements;
    ReadBoundsEmbeds(d, big, off, i);
    var b := ReadBounds(d, i);
    ReadElementsEmbeds(d, big, off, b.lo, b.hi);
  }

  lemma NextFieldEmbeds<D>(c: DecCodec<D>, d: Buffer, big: Buffer, off: nat, i: nat)
    requires Within(d, big, off) && NextField(c, d, i).Item?
    ensures NextField(c, big, off + i) == NextField(c, d, i).(next := off + NextField(c, d, i).next)
  {
    hide ReadTag, ReadDec, ReadPacked, ReadVarint, SkipField;
    ReadTagEmbeds(d, big, off, i);
    var t := ReadTag(d, i);
    if t.num == 1 || t.num == 2 {
      ReadDecEmbeds(c, d, big, off, t.next);
    } else if t.num == 3 && t.wireType == 2 {
      ReadPackedEmbeds<D>(d, big, off, t.next);
    } else if t.num == 3 || t.num == 4 {
      ReadVarintEmbeds(d, big, off, t.next);
    } else {
      SkipFieldEmbeds(d, big, off, i);
    }
  }

  /** A decodable buffer inside a larger one makes its assignments there, then the rest is read. */
  lemma {:induction false} ReadFieldsEmbeds<D>(c: DecCodec<D>, d: Buffer, big: Buffer, off: nat, i: nat)
    requires Within(d, big, off) && i <= |d| && ReadFields(c, d, i).Fields?
    ensures ReadFields(c, big, off + i) ==
            match ReadFields(c, big, off + |d|)
            case NoFields(e) => NoFields(e)
            case Fields(fs) => Fields(ReadFields(c, d, i).fields + fs)
    decreases |d| - i
  {
    hide NextField, ReadFields;
    if i < |d| {
      ReadFieldsStep(c, d, i);
      NextFieldEmbeds(c, d, big, off, i);
      ReadFieldsStep(c, big, off + i);
      ReadFieldsEmbeds(c, d, big, off, NextField(c, d, i).next);
    } else {
      ReadFieldsAtEnd(c, d);
      Appended(ReadFields(c, big, off + |d|));
    }
  }

  /** Reading from i on is reading one field and then the rest, whatever is appended. */
  lemma ReadFieldsStep<D>(c: DecCodec<D>, d: Buffer, i: nat)
    requires i < |d|
    ensures ReadFields(c, d, i) ==
            match NextField(c, d, i)
            case NoItem(e) => NoFields(e)
            case Item(f, n) =>
              match ReadFields(c, d, n)
              case NoFields(e) => NoFields(e)
              case Fields(fs) => Fields([f] + fs)
    ensures NextField(c, d, i).Item? && ReadFields(c, d, i).Fields? ==>
              && ReadFields(c, d, NextField(c, d, i).next).Fields?
              && forall fs: seq<Field<D>> :: ReadFields(c, d, i).fields + fs ==
                   [NextField(c, d, i).field] + (ReadFields(c, d, NextField(c, d, i).next).fields + fs)
  {
    hide NextField;
  }

  lemma Appended<D>(r: Fields<D>)
    ensures r.Fields? ==> [] + r.fields == r.fields
  {
  }

  /** Two decodable inputs, one after the other, make the assignments of both, in order. */
  lemma ReadFieldsConcat<D>(c: DecCodec<D>, a: Buffer, b: Buffer)
    requires |a + b| < TWO_TO_63
    requires ReadFields(c, a, 0).Fields? && ReadFields(c, b, 0).Fields?
    ensures ReadFields(c, a + b, 0) == Fields(ReadFields(c, a, 0).fields + ReadFields(c, b, 0).fields)
  {
    hide ReadFields;
    assert Within(a, a + b, 0) && Within(b, a + b, |a|);
    ReadFieldsEmbeds(c, a, a + b, 0, 0);
    ReadFieldsEmbeds(c, b, a + b, |a|, 0);
    ReadFieldsAtEnd(c, a + b);
    assert ReadFields(c, b, 0).fields + [] == ReadFields(c, b, 0).fields;
  }

  lemma ReadFieldsAtEnd<D>(c: DecCodec<D>, d: Buffer)
    ensures ReadFields(c, d, |d|) == Fields([])
  {
  }

  // ---------------------------------------------------------------- merging

  lemma {:induction false} AssignAllConcat<D>(m: State<D>, a: seq<Field<D>>, b: seq<Field<D>>)
    ensures AssignAll(m, a + b) == AssignAll(AssignAll(m, a), b)
    decreases |a|
  {
    if a == [] {
      assert a + b == b;
    } else {
      AssignAllConcat(Assign(m, a[0]), a[1..], b);
      assert (a + b)[1..] == a[1..] + b;
    }
  }

  /** Unmarshal as a function: the message after reading d into m. */
  datatype Decoded<D> = Decoded(message: State<D>) | Refused(error: Error)

  function Unmarshal<D>(c: DecCodec<D>, d: Buffer, m: State<D>): Decoded<D> {
    match ReadFields(c, d, 0)
    case NoFields(e) => Refused(e)
    case Fields(fs) => Decoded(AssignAll(m, fs))
  }

  /** Reading a concatenation is reading the first part, then the second into its result. */
  lemma UnmarshalConcat<D>(c: DecCodec<D>, a: Buffer, b: Buffer, m: State<D>)
    requires |a + b| < TWO_TO_63
    requires Unmarshal(c, a, m).Decoded? && Unmarshal(c, b, m).Decoded?
    ensures Unmarshal(c, a + b, m) == Unmarshal(c, b, Unmarshal(c, a, m).message)
  {
    hide ReadFields;
    ReadFieldsConcat(c, a, b);
    AssignAllConcat(m, ReadFields(c, a, 0).fields, ReadFields(c, b, 0).fields);
  }

  /** The scalar a sequence of assignments leaves: the last one assigned, or the old one. */
  ghost predicate MergesInto<D>(m: State<D>, delta: Delta<D>, m': State<D>) {
    && m'.window == m.window + delta.window
    && m'.index == (if delta.index.Some? then delta.index.value else m.index)
    && m'.baseGasPrice == (if delta.baseGasPrice.Some? then delta.baseGasPrice.value else m.baseGasPrice)
    && m'.learningRate == (if delta.learningRate.Some? then delta.learningRate.value else m.learningRate)
  }

  /** What an input says about a message, independently of the message it is read into. */
  datatype Delta<D> =
    Delta(baseGasPrice: Option<D>, learningRate: Option<D>, window: seq<uint64>, index: Option<uint64>)
  {
    /** Last one wins for scalars, repeated elements are appended (section "Last One Wins"). */
    function Then(later: Delta<D>): Delta<D> {
      Delta(if later.baseGasPrice.Some? then later.baseGasPrice else baseGasPrice,
            if later.learningRate.Some? then later.learningRate else learningRate,
            window + later.window,
            if later.index.Some? then later.index else index)
    }
  }

  function DeltaOfField<D>(f: Field<D>): Delta<D> {
    match f
    case BaseGasPrice(v) => Delta(Some(v), None, [], None)
    case LearningRate(v) => Delta(None, Some(v), [], None)
    case Window(ws) => Delta(None, None, ws, None)
    case Index(n) => Delta(None, None, [], Some(n))
    case Nothing => Delta(None, None, [], None)
  }

  function DeltaOf<D>(fs: seq<Field<D>>): Delta<D> {
    if fs == [] then Delta(None, None, [], None) else DeltaOfField(fs[0]).Then(DeltaOf(fs[1..]))
  }

  lemma ThenAssociates<D>(a: Delta<D>, b: Delta<D>, c: Delta<D>)
    ensures a.Then(b).Then(c) == a.Then(b.Then(c))
  {
    assert a.window + b.window + c.window == a.window + (b.window + c.window);
  }

  lemma {:induction false} AssignAllMerges<D>(m: State<D>, fs: seq<Field<D>>)
    ensures MergesInto(m, DeltaOf(fs), AssignAll(m, fs))
    decreases |fs|
  {
    if fs != [] { AssignAllMerges(Assign(m, fs[0]), fs[1..]); }
  }

  lemma {:induction false} DeltaOfConcat<D>(a: seq<Field<D>>, b: seq<Field<D>>)
    ensures DeltaOf(a + b) == DeltaOf(a).Then(DeltaOf(b))
  {
    if a == [] {
      assert a + b == b;
      assert [] + DeltaOf(b).window == DeltaOf(b).window;
    } else {
      DeltaOfConcat(a[1..], b);
      assert (a + b)[1..] == a[1..] + b;
      ThenAssociates(DeltaOfField(a[0]), DeltaOf(a[1..]), DeltaOf(b));
    }
  }

  /**
   The merge law.  Each decodable input has one effect, a delta, whatever message it is
   read into; the effect of a concatenation is the effect of the first, overridden by the
   second in its scalars and with the second's elements appended.
   */
  lemma UnmarshalMerges<D>(c: DecCodec<D>, a: Buffer, b: Buffer, m: State<D>)
    requires |a + b| < TWO_TO_63
    requires Unmarshal(c, a, m).Decoded? && Unmarshal(c, b, m).Decoded?
    ensures var da, db := DeltaOf(ReadFields(c, a, 0).fields), DeltaOf(ReadFields(c, b, 0).fields);
            && Unmarshal(c, a + b, m).Decoded?
            && MergesInto(m, da, Unmarshal(c, a, m).message)
            && MergesInto(m, db, Unmarshal(c, b, m).message)
            && MergesInto(m, da.Then(db), Unmarshal(c, a + b, m).message)
  {
    hide ReadFields, MergesInto;
    ReadFieldsConcat(c, a, b);
    var fa, fb := ReadFields(c, a, 0).fields, ReadFields(c, b, 0).fields;
    DeltaOfConcat(fa, fb);
    AssignAllMerges(m, fa);
    AssignAllMerges(m, fb);
    AssignAllMerges(m, fa + fb);
  }

  // ---------------------------------------------------------------- unknown fields and packing

  /** An encoded unknown field is one field that does nothing. */
  lemma UnknownReads<D>(c: DecCodec<D>, u: Unknown)
    requires WellFormed(u) && |Encode(u)| < TWO_TO_63
    requires ToInt32(u.num) > 4
    ensures ReadFields(c, Encode(u), 0) == Fields([Nothing])
  {
    hide SkipField;
    var d := Encode(u);
    UnknownTag(u);
    SkipFieldUnknown(u, d, 0);
    assert NextField(c, d, 0) == Item(Nothing, |d|);
    ReadFieldsAtEnd(c, d);
    var f: Field<D> := Nothing;
    assert [f] + [] == [f];
  }

  /** A well-formed unknown field between two decodable inputs changes nothing. */
  lemma UnknownFieldIgnored<D>(c: DecCodec<D>, a: Buffer, u: Unknown, b: Buffer, m: State<D>)
    requires WellFormed(u) && ToInt32(u.num) > 4 && |a + Encode(u) + b| < TWO_TO_63
    requires Unmarshal(c, a, m).Decoded? && Unmarshal(c, b, m).Decoded?
    ensures Unmarshal(c, a + Encode(u) + b, m) == Unmarshal(c, a + b, m)
  {
    hide ReadFields, Encode;
    var fa, fb := ReadFields(c, a, 0).fields, ReadFields(c, b, 0).fields;
    UnknownReads(c, u);
    ReadFieldsConcat(c, a, Encode(u));
    ReadFieldsConcat(c, a + Encode(u), b);
    ReadFieldsConcat(c, a, b);
    AssignAllConcat(m, fa + [Nothing], fb);
    AssignAllConcat(m, fa, [Nothing]);
    AssignAllConcat(m, fa, fb);
    assert AssignAll(AssignAll(m, fa), [Nothing]) == AssignAll(m, fa);
  }

  // ---------------------------------------------------------------- writing

  const BASE_GAS_PRICE_TAG: byte := 0x0a
  const LEARNING_RATE_TAG: byte := 0x12
  const WINDOW_TAG: byte := 0x1a
  const INDEX_TAG: byte := 0x20

  function EncodeWindow(ws: seq<uint64>): seq<byte> {
    if ws == [] then [] else DelimitedField(WINDOW_TAG, Packed(ws))
  }

  function EncodeIndex(n: uint64): seq<byte> {
    if n == 0 then [] else VarintField(INDEX_TAG, n)
  }

  /** The bytes Marshal produces. */
  function EncodeState<D>(c: DecCodec<D>, m: State<D>): seq<byte> {
    DelimitedField(BASE_GAS_PRICE_TAG, c.marshal(m.baseGasPrice)) +
    (DelimitedField(LEARNING_RATE_TAG, c.marshal(m.learningRate)) +
     (EncodeWindow(m.window) + EncodeIndex(m.index)))
  }

  lemma DecReads<D(!new)>(c: DecCodec<D>, v: D, rate: bool)
    requires Lawful(c)
    requires |DelimitedField(if rate then LEARNING_RATE_TAG else BASE_GAS_PRICE_TAG, c.marshal(v))| < TWO_TO_63
    ensures ReadFields(c, DelimitedField(if rate then LEARNING_RATE_TAG else BASE_GAS_PRICE_TAG, c.marshal(v)), 0)
            == Fields([if rate then LearningRate(v) else BaseGasPrice(v)])
  {
    hide EncodeVarint, ReadVarint, ReadBounds, DelimitedField, ReadPacked, ReadTag;
    var tag := if rate then LEARNING_RATE_TAG else BASE_GAS_PRICE_TAG;
    var d := DelimitedField(tag, c.marshal(v));
    DelimitedAt(tag, c.marshal(v), d, 0);
    SmallTag(d, 0);
    var f := if rate then LearningRate(v) else BaseGasPrice(v);
    assert NextField(c, d, 0) == Item(f, |d|);
    ReadFieldsAtEnd(c, d);
    assert [f] + [] == [f];
  }

  lemma {:induction false} PackedReads(ws: seq<uint64>, d: Buffer, i: nat)
    requires Within(Packed(ws), d, i)
    ensures ReadElements(d, i, i + |Packed(ws)|) == Elements(ws, i + |Packed(ws)|)
    decreases ws
  {
    hide EncodeVarint, ReadVarint;
    if ws != [] {
      var code := EncodeVarint(ws[0]);
      WithinParts(code, Packed(ws[1..]), d, i);
      VarintAt(ws[0], d, i);
      PackedReads(ws[1..], d, i + |code|);
      assert [ws[0]] + ws[1..] == ws;
    }
  }

  /** A packed window field appends exactly its elements. */
  lemma WindowReads<D>(c: DecCodec<D>, ws: seq<uint64>)
    requires |DelimitedField(WINDOW_TAG, Packed(ws))| < TWO_TO_63
    ensures ReadFields(c, DelimitedField(WINDOW_TAG, Packed(ws)), 0) == Fields([Window(ws)])
  {
    hide EncodeVarint, ReadVarint, ReadBounds, DelimitedField, ReadDec, ReadElements, Packed, ReadTag;
    var d := DelimitedField(WINDOW_TAG, Packed(ws));
    DelimitedAt(WINDOW_TAG, Packed(ws), d, 0);
    var lo := ReadBounds(d, 1).lo;
    assert Within(Packed(ws), d, lo) by {
      forall x | 0 <= x < |Packed(ws)| ensures d[lo + x] == Packed(ws)[x] {
        assert d[lo..lo + |Packed(ws)|][x] == d[lo + x];
      }
    }
    PackedReads(ws, d, lo);
    SmallTag(d, 0);
    assert NextField(c, d, 0) == Item(Window(ws), |d|);
    ReadFieldsAtEnd(c, d);
    var f: Field<D> := Window(ws);
    assert [f] + [] == [f];
  }

  /** A varint field with tag 0x18 (one unpacked element) or 0x20 (the index). */
  lemma VarintFieldReads<D>(c: DecCodec<D>, v: uint64, unpacked: bool)
    requires |VarintField(if unpacked then 0x18 else INDEX_TAG, v)| < TWO_TO_63
    ensures ReadFields(c, VarintField(if unpacked then 0x18 else INDEX_TAG, v), 0)
            == Fields([if unpacked then Window([v]) else Index(v)])
  {
    hide EncodeVarint, ReadVarint, ReadDec, ReadPacked, ReadTag;
    var tag: byte := if unpacked then 0x18 else INDEX_TAG;
    var d := VarintField(tag, v);
    VarintAt(v, d, 1);
    SmallTag(d, 0);
    var f: Field<D> := if unpacked then Window([v]) else Index(v);
    assert NextField(c, d, 0) == Item(f, |d|);
    ReadFieldsAtEnd(c, d);
    assert [f] + [] == [f];
  }

  /** Before byte e nothing ends a varint: a varint read from i <= e ends no later than e when d[e] < 128. */
  lemma {:induction false} DigitsEndBy(d: Buffer, i: nat, k: nat, e: nat)
    requires i <= e < |d| && d[e] < 128 && ReadDigits(d, i, k).Found?
    ensures ReadDigits(d, i, k).next <= e + 1
    decreases e - i
  {
    if d[i] >= 128 { DigitsEndBy(d, i + 1, k + 1, e); }
  }

  lemma {:induction false} DigitsEndLow(d: Buffer, i: nat, k: nat)
    requires ReadDigits(d, i, k).Found?
    ensures d[ReadDigits(d, i, k).next - 1] < 128
    decreases 10 - k
  {
    if d[i] >= 128 { DigitsEndLow(d, i + 1, k + 1); }
  }

  /**
   The element loop of a packed field checks the end of the buffer, not the end of the field:
   it stops exactly at the field's end if and only if the field's last byte ends a varint.
   */
  lemma {:induction false} PackedEndsInBounds(d: Buffer, i: nat, hi: nat)
    requires i < hi <= |d| && ReadElements(d, i, hi).Elements?
    ensures ReadElements(d, i, hi).next == hi <==> d[hi - 1] < 128
    decreases hi - i
  {
    DigitsEndLow(d, i, 0);
    var j := ReadVarint(d, i).next;
    if d[hi - 1] < 128 { DigitsEndBy(d, i, 0, hi - 1); }
    if j < hi { PackedEndsInBounds(d, j, hi); }
  }

  /** A packed field of one byte, 0x80, takes the byte after the field as the end of its element. */
  lemma PackedOverrun<D>(c: DecCodec<D>)
    ensures NextField(c, [0x1a, 0x01, 0x80, 0x01], 0) == Item(Window([128]), 4)
  {
    var d: Buffer := [0x1a, 0x01, 0x80, 0x01];
    SmallTag(d, 0);
    assert ReadDigits(d, 1, 0) == Found(1, 2);
    assert ReadBounds(d, 1) == Span(2, 3);
    assert ReadDigits(d, 3, 1) == Found(1, 4);
    assert ReadDigits(d, 2, 0) == Found(128, 4);
    assert ReadElements(d, 4, 3) == Elements([], 4);
    assert ReadElements(d, 2, 3) == Elements([128], 4) by { assert [128] + [] == [128]; }
  }

  /** The elements of ws written unpacked, one varint field each. */
  function Unpacked(ws: seq<uint64>): seq<byte> {
    if ws == [] then [] else VarintField(0x18, ws[0]) + Unpacked(ws[1..])
  }

  lemma {:induction false} UnpackedReads<D>(c: DecCodec<D>, ws: seq<uint64>, m: State<D>)
    requires |Unpacked(ws)| < TWO_TO_63
    ensures Unmarshal(c, Unpacked(ws), m) == Decoded(m.(window := m.window + ws))
    decreases ws
  {
    hide ReadFields, VarintField;
    if ws == [] {
      ReadFieldsAtEnd(c, []);
      assert m.window + [] == m.window;
    } else {
      VarintFieldReads(c, ws[0], true);
      var m' := m.(window := m.window + [ws[0]]);
      UnpackedReads(c, ws[1..], m');
      UnpackedReads(c, ws[1..], m);
      UnmarshalConcat(c, VarintField(0x18, ws[0]), Unpacked(ws[1..]), m);
      assert AssignAll(m, [Window([ws[0]])]) == m';
      assert m'.window + ws[1..] == m.window + ws;
    }
  }

  lemma AssignWindow<D>(m: State<D>, ws: seq<uint64>)
    ensures AssignAll(m, [Window(ws)]) == m.(window := m.window + ws)
  {
  }

  /** Packed, split into two packed fields, and unpacked encodings of a window decode alike. */
  lemma PackingIrrelevant<D>(c: DecCodec<D>, ws1: seq<uint64>, ws2: seq<uint64>, m: State<D>)
    requires |DelimitedField(WINDOW_TAG, Packed(ws1)) + DelimitedField(WINDOW_TAG, Packed(ws2))| < TWO_TO_63
    requires |DelimitedField(WINDOW_TAG, Packed(ws1 + ws2))| < TWO_TO_63
    requires |Unpacked(ws1 + ws2)| < TWO_TO_63
    ensures var whole := Decoded(m.(window := m.window + (ws1 + ws2)));
            && Unmarshal(c, DelimitedField(WINDOW_TAG, Packed(ws1 + ws2)), m) == whole
            && Unmarshal(c, DelimitedField(WINDOW_TAG, Packed(ws1)) + DelimitedField(WINDOW_TAG, Packed(ws2)), m) == whole
            && Unmarshal(c, Unpacked(ws1 + ws2), m) == whole
  {
    hide ReadFields, DelimitedField, Packed, Unpacked;
    var e1, e2 := DelimitedField(WINDOW_TAG, Packed(ws1)), DelimitedField(WINDOW_TAG, Packed(ws2));
    WindowReads(c, ws1);
    WindowReads(c, ws2);
    WindowReads(c, ws1 + ws2);
    ReadFieldsConcat(c, e1, e2);
    AssignAllConcat(m, [Window(ws1)], [Window(ws2)]);
    AssignWindow(m, ws1);
    AssignWindow(m, ws1 + ws2);
    AssignWindow(m.(window := m.window + ws1), ws2);
    assert m.window + ws1 + ws2 == m.window + (ws1 + ws2);
    UnpackedReads(c, ws1 + ws2, m);
  }

  /** The assignments Marshal's output makes. */
  function FieldsOf<D>(m: State<D>): seq<Field<D>> {
    [BaseGasPrice(m.baseGasPrice)] +
    ([LearningRate(m.learningRate)] +
     ((if m.window == [] then [] else [Window(m.window)]) + (if m.index == 0 then [] else [Index(m.index)])))
  }

  lemma EncodedStateReads<D(!new)>(c: DecCodec<D>, m: State<D>)
    requires Lawful(c) && |EncodeState(c, m)| < TWO_TO_63
    ensures ReadFields(c, EncodeState(c, m), 0) == Fields(FieldsOf(m))
  {
    hide ReadFields, DelimitedField, VarintField, Packed;
    var e1 := DelimitedField(BASE_GAS_PRICE_TAG, c.marshal(m.baseGasPrice));
    var e2 := DelimitedField(LEARNING_RATE_TAG, c.marshal(m.learningRate));
    var e3, e4 := EncodeWindow(m.window), EncodeIndex(m.index);
    ReadFieldsAtEnd(c, []);
    DecReads(c, m.baseGasPrice, false);
    DecReads(c, m.learningRate, true);
    if m.window != [] { WindowReads(c, m.window); }
    if m.index != 0 { VarintFieldReads(c, m.index, false); }
    ReadFieldsConcat(c, e3, e4);
    ReadFieldsConcat(c, e2, e3 + e4);
    ReadFieldsConcat(c, e1, e2 + (e3 + e4));
  }

  /**
   The round trip.  Unmarshal of Marshal restores every field of m: into a zero State it
   gives m back, into any other one the window is appended and an unset index is kept.
   */
  lemma RoundTrip<D(!new)>(c: DecCodec<D>, m: State<D>, into: State<D>)
    requires Lawful(c) && |EncodeState(c, m)| < TWO_TO_63
    ensures Unmarshal(c, EncodeState(c, m), into) ==
            Decoded(m.(window := into.window + m.window, index := if m.index == 0 then into.index else m.index))
    ensures into.window == [] && into.index == 0 ==> Unmarshal(c, EncodeState(c, m), into) == Decoded(m)
  {
    hide ReadFields, EncodeState;
    EncodedStateReads(c, m);
    var f1, f2: seq<Field<D>> := [BaseGasPrice(m.baseGasPrice)], [LearningRate(m.learningRate)];
    var f3: seq<Field<D>> := if m.window == [] then [] else [Window(m.window)];
    var f4: seq<Field<D>> := if m.index == 0 then [] else [Index(m.index)];
    AssignAllConcat(into, f1, f2 + (f3 + f4));
    AssignAllConcat(AssignAll(into, f1), f2, f3 + f4);
    AssignAllConcat(AssignAll(AssignAll(into, f1), f2), f3, f4);
    assert into.window + [] == into.window && [] + m.window == m.window;
  }
}
