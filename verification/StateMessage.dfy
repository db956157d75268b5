/**
 The generated methods of the State message (x/dynamicfee/types/genesis.pb.go), in the
 form of the source: fields assigned while an index moves over the input, and a buffer
 filled from its end.  Each is proved against the functions of DynamicFeeState.
 */
module StateMessage {
  import opened Options
  import opened ProtoWire
  import opened WireFields
  import opened WireWriter
  import opened DynamicFeeState

  class StateMessage<D> {
    var baseGasPrice: D
    var learningRate: D
    var window: seq<uint64>
    var index: uint64

    constructor (m: State<D>)
      ensures Value() == m
    {
      baseGasPrice, learningRate, window, index := m.baseGasPrice, m.learningRate, m.window, m.index;
    }

    function Value(): State<D>
      reads this
    {
      State(baseGasPrice, learningRate, window, index)
    }

    /** Size: the sum of the field sizes, computed with sov, equals the encoded length. */
    method Size(c: DecCodec<D>) returns (n: nat)
      requires |EncodeState(c, Value())| < TWO_TO_63
      ensures n == |EncodeState(c, Value())|
    {
      hide EncodeVarint, Packed;
      var l := |c.marshal(baseGasPrice)|;
      SovIsLength(l);
      n := 1 + l + Sov(l);
      l := |c.marshal(learningRate)|;
      SovIsLength(l);
      n := n + 1 + l + Sov(l);
      if |window| > 0 {
        l := PackedSize(window);
        SovIsLength(l);
        n := n + 1 + Sov(l) + l;
      }
      if index != 0 {
        SovIsLength(index);
        n := n + 1 + Sov(index);
      }
    }

    /** MarshalToSizedBuffer: the encoding ends up at the end of buf, and nothing before it is touched. */
    method MarshalToSizedBuffer(c: DecCodec<D>, buf: array<byte>) returns (n: nat)
      requires |EncodeState(c, Value())| <= buf.Length < TWO_TO_63
      modifies buf
      ensures n == |EncodeState(c, Value())|
      ensures buf[buf.Length - n..] == EncodeState(c, Value())
      ensures buf[..buf.Length - n] == old(buf[..buf.Length - n])
    {
      hide EncodeIndex, EncodeWindow, DelimitedField;
      var i := PutIndex(buf, buf.Length, index);
      i := PutWindow(buf, i, window);
      assert buf[i..] == EncodeWindow(window) + EncodeIndex(index);
      i := PutDelimited(buf, i, LEARNING_RATE_TAG, c.marshal(learningRate));
      assert buf[..i] == old(buf[..i]);
      i := PutDelimited(buf, i, BASE_GAS_PRICE_TAG, c.marshal(baseGasPrice));
      n := buf.Length - i;
    }

    /** Marshal: a buffer of exactly the computed size, filled completely. */
    method Marshal(c: DecCodec<D>) returns (buf: array<byte>)
      requires |EncodeState(c, Value())| < TWO_TO_63
      ensures fresh(buf) && buf[..] == EncodeState(c, Value())
    {
      hide EncodeVarint, Packed, DelimitedField, VarintField;
      var size := Size(c);
      buf := new byte[size];
      var n := MarshalToSizedBuffer(c, buf);
      assert buf[..] == buf[buf.Length - n..];
    }

    /** Unmarshal: on success the fields are those of the decoder; on failure its error is returned. */
    method Unmarshal(c: DecCodec<D>, d: Buffer) returns (err: Option<Error>)
      modifies this
      ensures match ReadFields(c, d, 0)
              case Fields(fs) => err == None && Value() == AssignAll(old(Value()), fs)
              case NoFields(e) => err == Some(e)
    {
      hide NextField, Assign;
      var i: nat := 0;
      while i < |d|
        invariant i <= |d|
        invariant ReadFields(c, d, 0).NoFields? ==> ReadFields(c, d, i) == ReadFields(c, d, 0)
        invariant ReadFields(c, d, 0).Fields? ==>
                    ReadFields(c, d, i).Fields? &&
                    AssignAll(Value(), ReadFields(c, d, i).fields) == AssignAll(old(Value()), ReadFields(c, d, 0).fields)
        decreases |d| - i
      {
        ghost var item := NextField(c, d, i);
        var n, e := UnmarshalField(c, d, i);
        if e.Some? { return e; }
        if ReadFields(c, d, n).Fields? {
          assert ([item.field] + ReadFields(c, d, n).fields)[1..] == ReadFields(c, d, n).fields;
        }
        i := n;
      }
      if i > |d| { return Some(UnexpectedEOF); }
      return None;
    }

    /** One turn of the field loop: tag, then the switch on the field number. */
    method UnmarshalField(c: DecCodec<D>, d: Buffer, i: nat) returns (n: nat, err: Option<Error>)
      requires i < |d|
      modifies this
      ensures match NextField(c, d, i)
              case Item(f, next) => err == None && n == next && Value() == Assign(old(Value()), f)
              case NoItem(e) => err == Some(e)
    {
      hide ReadDec, ReadPacked, SkipField, ReadVarint;
      n := i;
      var t := ReadTagLoop(d, i);
      if t.NoTag? { return i, Some(t.error); }
      n := t.next;
      if t.num == 1 || t.num == 2 {
        if t.wireType != 2 { return n, Some(WrongWireType); }
        var r := UnmarshalDec(c, d, n);
        if r.NoItem? { return n, Some(r.error); }
        n := r.next;
        match r.field {
          case BaseGasPrice(v) => if t.num == 1 { baseGasPrice := v; } else { learningRate := v; }
          case _ =>
        }
      } else if t.num == 3 {
        if t.wireType == 0 {
          var r := ReadVarintLoop(d, n);
          if r.Bad? { return n, Some(r.error); }
          window := window + [r.value];
          n := r.next;
        } else if t.wireType == 2 {
          n, err := UnmarshalPacked(c, d, n);
          return n, err;
        } else {
          return n, Some(WrongWireType);
        }
      } else if t.num == 4 {
        if t.wireType != 0 { return n, Some(WrongWireType); }
        var r := ReadVarintLoop(d, n);
        if r.Bad? { return n, Some(r.error); }
        index := r.value;
        n := r.next;
      } else {
        var r := SkipFieldLoop(d, i);
        if r.Stuck? { return n, Some(r.error); }
        n := r.next;
      }
      return n, None;
    }

    /** The packed case: elements are appended one by one until the index reaches the field's end. */
    method UnmarshalPacked(c: DecCodec<D>, d: Buffer, i: nat) returns (n: nat, err: Option<Error>)
      modifies this
      ensures match ReadPacked<D>(d, i)
              case Item(f, next) => err == None && n == next && Value() == Assign(old(Value()), f)
              case NoItem(e) => err == Some(e)
    {
      hide ReadBounds, ReadVarint;
      n := i;
      var b := ReadBoundsLoop(d, i);
      if b.NoSpan? { return n, Some(b.error); }
      n := b.lo;
      ghost var read: seq<uint64> := [];
      while n < b.hi
        invariant n <= |d| && Value() == old(Value()).(window := old(window) + read)
        invariant match ReadElements(d, n, b.hi)
                  case Elements(ws, next) => ReadElements(d, b.lo, b.hi) == Elements(read + ws, next)
                  case NoElements(e) => ReadElements(d, b.lo, b.hi) == NoElements(e)
        decreases |d| - n
      {
        var r := ReadVarintLoop(d, n);
        if r.Bad? { return n, Some(r.error); }
        if ReadElements(d, r.next, b.hi).Elements? {
          ghost var ws := ReadElements(d, r.next, b.hi).ws;
          assert read + ([r.value] + ws) == read + [r.value] + ws;
        }
        window := window + [r.value];
        read := read + [r.value];
        n := r.next;
        assert old(window) + read == window;
      }
      assert read + [] == read;
      return n, None;
    }
  }

  /** The index field, left out when zero. */
  method PutIndex(buf: array<byte>, offset: nat, n: uint64) returns (base: nat)
    requires |EncodeIndex(n)| <= offset <= buf.Length
    modifies buf
    ensures base + |EncodeIndex(n)| == offset
    ensures buf[base..] == EncodeIndex(n) + old(buf[offset..])
    ensures buf[..base] == old(buf[..base])
  {
    hide VarintField;
    base := offset;
    if n != 0 { base := PutVarintField(buf, offset, INDEX_TAG, n); }
  }

  /** The window field, left out when empty. */
  method PutWindow(buf: array<byte>, offset: nat, ws: seq<uint64>) returns (base: nat)
    requires |EncodeWindow(ws)| <= offset <= buf.Length < TWO_TO_63
    modifies buf
    ensures base + |EncodeWindow(ws)| == offset
    ensures buf[base..] == EncodeWindow(ws) + old(buf[offset..])
    ensures buf[..base] == old(buf[..base])
  {
    hide Packed, DelimitedField;
    base := offset;
    if |ws| > 0 { base := PutPacked(buf, offset, WINDOW_TAG, ws); }
  }

  /** The element sizes of a packed field, added up. */
  method PackedSize(ws: seq<uint64>) returns (l: nat)
    ensures l == |Packed(ws)|
  {
    hide EncodeVarint, Sov;
    l := 0;
    for k := 0 to |ws|
      invariant l == |Packed(ws[..k])|
    {
      PackedSnoc(ws, k);
      SovIsLength(ws[k]);
      l := l + Sov(ws[k]);
    }
    assert ws[..|ws|] == ws;
  }

  method UnmarshalDec<D>(c: DecCodec<D>, d: Buffer, i: nat) returns (r: Item<D>)
    ensures r == ReadDec(c, d, i)
  {
    hide ReadBounds;
    var b := ReadBoundsLoop(d, i);
    if b.NoSpan? { return NoItem(b.error); }
    if b.lo == b.hi { return Item(Nothing, b.hi); }
    var v := c.unmarshal(d[b.lo..b.hi]);
    if v.None? { return NoItem(BadDecimal); }
    return Item(BaseGasPrice(v.value), b.hi);
  }
}
