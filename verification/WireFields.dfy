/**
 Tags, length-delimited payloads and unknown fields, on top of the varints of
 ProtoWire: the parts of the generated Unmarshal code that do not depend on the
 message.  `Skip` is skipGenesis / skipTx: it leaves the field it starts at,
 following nested groups to the matching end tag.
 */
module WireFields {
  import opened Options
  import opened ProtoWire

  datatype TagRead = Tag(num: nat, wireType: nat, next: nat) | NoTag(error: Error)
  datatype Span = Span(lo: nat, hi: nat) | NoSpan(error: Error)
  datatype Skipped = To(next: nat) | Stuck(error: Error)

  /** The head of the field loop: field number (int32 of wire >> 3), wire type, and the next index. */
  function ReadTag(d: Buffer, i: nat): (r: TagRead)
    ensures r.Tag? ==> r.num > 0 && r.wireType < 8 && r.wireType != 4 && i < r.next <= |d|
  {
    match ReadVarint(d, i)
    case Bad(e) => NoTag(e)
    case Found(wire, j) =>
      if wire % 8 == 4 then NoTag(EndGroupForNonGroup)
      else if ToInt32(wire / 8) <= 0 then NoTag(IllegalTag)
      else Tag(ToInt32(wire / 8), wire % 8, j)
  }

  /** The bounds of a length-delimited payload; the int conversions can both turn negative. */
  function ReadBounds(d: Buffer, i: nat): (r: Span)
    ensures r.Span? ==> i < r.lo <= r.hi <= |d|
  {
    match ReadVarint(d, i)
    case Bad(e) => NoSpan(e)
    case Found(n, j) =>
      if ToInt64(n) < 0 then NoSpan(InvalidLength)
      else if ToInt64(j + n) < 0 then NoSpan(InvalidLength)
      else if j + n > |d| then NoSpan(UnexpectedEOF)
      else Span(j, j + n)
  }

  /** One payload of the given wire type inside Skip: the new group depth and the index after it. */
  function SkipPayload(d: Buffer, i: nat, wireType: nat, depth: nat): (r: Scan)
    requires i <= |d|
    ensures r.Found? ==> i <= r.next < TWO_TO_64
  {
    match wireType
    case 0 => (match ReadDigits(d, i, 0) case Found(_, j) => Found(depth, j) case Bad(e) => Bad(e))
    case 1 => Found(depth, i + 8)
    case 2 =>
      (match ReadVarint(d, i)
       case Bad(e) => Bad(e)
       case Found(n, j) => if ToInt64(n) < 0 then Bad(InvalidLength) else Found(depth, j + n))
    case 3 => Found(depth + 1, i)
    case 4 => if depth == 0 then Bad(UnexpectedEndOfGroup) else Found(depth - 1, i)
    case 5 => Found(depth, i + 4)
    case _ => Bad(IllegalWireType)
  }

  /** skipGenesis / skipTx from index i at group depth `depth`; the result may lie past the end. */
  function Skip(d: Buffer, i: nat, depth: nat): (r: Skipped)
    ensures r.To? ==> i < r.next < TWO_TO_63
    decreases |d| - i
  {
    if i >= |d| then Stuck(UnexpectedEOF)
    else
      match ReadVarint(d, i)
      case Bad(e) => Stuck(e)
      case Found(wire, j) =>
        match SkipPayload(d, j, wire % 8, depth)
        case Bad(e) => Stuck(e)
        case Found(depth', next) =>
          if ToInt64(next) < 0 then Stuck(InvalidLength)
          else if depth' == 0 then To(next)
          else Skip(d, next, depth')
  }

  /** The default case of the field loop: skip the whole field that starts at i. */
  function SkipField(d: Buffer, i: nat): (r: Skipped)
    requires i <= |d|
    ensures r.To? ==> i < r.next <= |d|
  {
    match Skip(d[i..], 0, 0)
    case Stuck(e) => Stuck(e)
    case To(n) =>
      if ToInt64(i + n) < 0 then Stuck(InvalidLength)
      else if i + n > |d| then Stuck(UnexpectedEOF)
      else To(i + n)
  }

  /** One turn of Skip, given what it reads. */
  lemma SkipTurn(d: Buffer, i: nat, depth: nat, wire: nat, j: nat, depth': nat, next: nat)
    requires ReadVarint(d, i) == Found(wire, j) && next < TWO_TO_63
    requires SkipPayload(d, j, wire % 8, depth) == Found(depth', next)
    ensures Skip(d, i, depth) == if depth' == 0 then To(next) else Skip(d, next, depth')
  {
  }

  // ---------------------------------------------------------------- embedding

  lemma ReadTagEmbeds(d: Buffer, big: Buffer, off: nat, i: nat)
    requires Within(d, big, off) && ReadTag(d, i).Tag?
    ensures ReadTag(big, off + i) == ReadTag(d, i).(next := off + ReadTag(d, i).next)
  {
    ReadVarintEmbeds(d, big, off, i);
  }

  lemma ReadBoundsEmbeds(d: Buffer, big: Buffer, off: nat, i: nat)
    requires Within(d, big, off) && ReadBounds(d, i).Span?
    ensures var b := ReadBounds(d, i);
            && ReadBounds(big, off + i) == Span(off + b.lo, off + b.hi)
            && big[off + b.lo..off + b.hi] == d[b.lo..b.hi]
  {
    ReadVarintEmbeds(d, big, off, i);
    var b := ReadBounds(d, i);
    WithinSlice(d, big, off, b.lo, b.hi);
  }

  lemma SkipPayloadEmbeds(d: Buffer, big: Buffer, i: nat, wireType: nat, depth: nat)
    requires Within(d, big, 0) && i <= |d| && SkipPayload(d, i, wireType, depth).Found?
    ensures SkipPayload(big, i, wireType, depth) == SkipPayload(d, i, wireType, depth)
  {
    if wireType == 0 { ReadDigitsEmbeds(d, big, 0, i, 0); }
    if wireType == 2 { ReadVarintEmbeds(d, big, 0, i); }
  }

  lemma {:induction false} SkipEmbeds(d: Buffer, big: Buffer, i: nat, depth: nat)
    requires Within(d, big, 0) && Skip(d, i, depth).To?
    ensures Skip(big, i, depth) == Skip(d, i, depth)
    decreases |d| - i
  {
    ReadVarintEmbeds(d, big, 0, i);
    var tag := ReadVarint(d, i);
    SkipPayloadEmbeds(d, big, tag.next, tag.value % 8, depth);
    var after := SkipPayload(d, tag.next, tag.value % 8, depth);
    SkipTurn(big, i, depth, tag.value, tag.next, after.value, after.next);
    if after.value != 0 { SkipEmbeds(d, big, after.next, after.value); }
  }

  lemma SkipFieldEmbeds(d: Buffer, big: Buffer, off: nat, i: nat)
    requires Within(d, big, off) && i <= |d| && SkipField(d, i).To?
    ensures SkipField(big, off + i) == To(off + SkipField(d, i).next)
  {
    forall x | 0 <= x < |d| - i ensures big[off + i..][x] == d[i..][x] {
      assert big[off + (i + x)] == d[i + x];
    }
    SkipEmbeds(d[i..], big[off + i..], 0, 0);
  }

  /** The one-byte tags the generated code writes are varints. */
  lemma SmallTag(d: Buffer, i: nat)
    requires i < |d| && 8 <= d[i] < 128 && d[i] % 8 != 4
    ensures ReadTag(d, i) == Tag(d[i] / 8, d[i] % 8, i + 1)
  {
  }

  // ---------------------------------------------------------------- unknown fields

  /** A well-formed field this version of the message does not know; groups nest (section "Groups"). */
  datatype Unknown =
    | Varint(num: nat, v: uint64)
    | Fixed64(num: nat, bytes: seq<byte>)
    | Delimited(num: nat, bytes: seq<byte>)
    | Group(num: nat, body: seq<Unknown>, endNum: nat)
    | Fixed32(num: nat, bytes: seq<byte>)

  /** num fits the tag, and fixed-size payloads have their size. */
  ghost predicate WellFormed(u: Unknown) {
    && 8 * u.num + 7 < TWO_TO_64
    && match u
       case Varint(_, _) => true
       case Fixed64(_, bytes) => |bytes| == 8
       case Delimited(_, bytes) => |bytes| < TWO_TO_63
       case Group(_, body, endNum) => 8 * endNum + 7 < TWO_TO_64 && forall x | x in body :: WellFormed(x)
       case Fixed32(_, bytes) => |bytes| == 4
  }

  function Encode(u: Unknown): (s: seq<byte>)
    ensures |s| >= 1
    decreases u, 0
  {
    match u
    case Varint(num, v) => EncodeVarint(8 * num) + EncodeVarint(v)
    case Fixed64(num, bytes) => EncodeVarint(8 * num + 1) + bytes
    case Delimited(num, bytes) => EncodeVarint(8 * num + 2) + (EncodeVarint(|bytes|) + bytes)
    case Group(num, body, endNum) => EncodeVarint(8 * num + 3) + (EncodeAll(body) + EncodeVarint(8 * endNum + 4))
    case Fixed32(num, bytes) => EncodeVarint(8 * num + 5) + bytes
  }

  function EncodeAll(us: seq<Unknown>): seq<byte>
    decreases us, 1
  {
    if us == [] then [] else Encode(us[0]) + EncodeAll(us[1..])
  }

  lemma VarintAt(v: uint64, d: seq<byte>, i: nat)
    requires Within(EncodeVarint(v), d, i)
    ensures ReadDigits(d, i, 0) == Found(v, i + |EncodeVarint(v)|)
    ensures ReadVarint(d, i) == Found(v, i + |EncodeVarint(v)|)
  {
    Pow128Nine();
    hide EncodeVarint, ReadDigits, Pow128;
    ReadDigitsOfEncode(v, 0);
    ReadDigitsEmbeds(EncodeVarint(v), d, i, 0, 0);
  }

  lemma WithinParts(a: seq<byte>, b: seq<byte>, big: seq<byte>, off: nat)
    requires Within(a + b, big, off)
    ensures Within(a, big, off) && Within(b, big, off + |a|)
  {
    forall x | 0 <= x < |a| ensures big[off + x] == a[x] { assert (a + b)[x] == a[x]; }
    forall x | 0 <= x < |b| ensures big[off + |a| + x] == b[x] { assert big[off + (|a| + x)] == (a + b)[|a| + x]; }
  }

  /** The tag of number num and wire type wt, followed by rest, stands at i. */
  lemma TagAt(num: nat, wt: nat, rest: seq<byte>, d: Buffer, i: nat) returns (j: nat)
    requires wt < 8 && 8 * num + 7 < TWO_TO_64
    requires Within(EncodeVarint(8 * num + wt) + rest, d, i)
    ensures ReadVarint(d, i) == Found(8 * num + wt, j) && (8 * num + wt) % 8 == wt
    ensures j == i + |EncodeVarint(8 * num + wt)| && Within(rest, d, j)
  {
    WithinParts(EncodeVarint(8 * num + wt), rest, d, i);
    VarintAt(8 * num + wt, d, i);
    j := i + |EncodeVarint(8 * num + wt)|;
  }

  /** From i, Skip at this depth leaves at n: it returns there, or inside a group it goes on there. */
  ghost predicate Leaves(d: Buffer, i: nat, depth: nat, n: nat) {
    Skip(d, i, depth) == if depth == 0 then To(n) else Skip(d, n, depth)
  }

  lemma SkipDelimited(num: nat, bytes: seq<byte>, d: Buffer, i: nat, depth: nat)
    requires 8 * num + 7 < TWO_TO_64 && |bytes| < TWO_TO_63
    requires Within(EncodeVarint(8 * num + 2) + (EncodeVarint(|bytes|) + bytes), d, i)
    ensures Leaves(d, i, depth, i + |EncodeVarint(8 * num + 2)| + |EncodeVarint(|bytes|)| + |bytes|)
  {
    hide EncodeVarint;
    var len := EncodeVarint(|bytes|);
    var j := TagAt(num, 2, len + bytes, d, i);
    WithinParts(len, bytes, d, j);
    VarintAt(|bytes|, d, j);
    SkipTurn(d, i, depth, 8 * num + 2, j, depth, j + |len| + |bytes|);
  }

  lemma SkipVarint(num: nat, v: uint64, d: Buffer, i: nat, depth: nat)
    requires 8 * num + 7 < TWO_TO_64
    requires Within(EncodeVarint(8 * num) + EncodeVarint(v), d, i)
    ensures Leaves(d, i, depth, i + |EncodeVarint(8 * num)| + |EncodeVarint(v)|)
  {
    hide EncodeVarint;
    var j := TagAt(num, 0, EncodeVarint(v), d, i);
    VarintAt(v, d, j);
    SkipTurn(d, i, depth, 8 * num, j, depth, j + |EncodeVarint(v)|);
  }

  lemma SkipFixed(num: nat, wt: nat, bytes: seq<byte>, d: Buffer, i: nat, depth: nat)
    requires 8 * num + 7 < TWO_TO_64 && ((wt == 1 && |bytes| == 8) || (wt == 5 && |bytes| == 4))
    requires Within(EncodeVarint(8 * num + wt) + bytes, d, i)
    ensures Leaves(d, i, depth, i + |EncodeVarint(8 * num + wt)| + |bytes|)
  {
    hide EncodeVarint;
    var j := TagAt(num, wt, bytes, d, i);
    SkipTurn(d, i, depth, 8 * num + wt, j, depth, j + |bytes|);
  }

  lemma GroupOpens(num: nat, rest: seq<byte>, d: Buffer, i: nat, depth: nat) returns (j: nat)
    requires 8 * num + 7 < TWO_TO_64 && Within(EncodeVarint(8 * num + 3) + rest, d, i)
    ensures j == i + |EncodeVarint(8 * num + 3)| && Within(rest, d, j)
    ensures Skip(d, i, depth) == Skip(d, j, depth + 1)
  {
    hide EncodeVarint;
    j := TagAt(num, 3, rest, d, i);
    SkipTurn(d, i, depth, 8 * num + 3, j, depth + 1, j);
  }

  lemma GroupCloses(num: nat, d: Buffer, i: nat, depth: nat)
    requires 8 * num + 7 < TWO_TO_64 && Within(EncodeVarint(8 * num + 4), d, i)
    ensures var n := i + |EncodeVarint(8 * num + 4)|;
            Skip(d, i, depth + 1) == if depth == 0 then To(n) else Skip(d, n, depth)
  {
    hide EncodeVarint;
    assert EncodeVarint(8 * num + 4) == EncodeVarint(8 * num + 4) + [];
    var n := TagAt(num, 4, [], d, i);
    SkipTurn(d, i, depth + 1, 8 * num + 4, n, depth, n);
  }

  /**
   Skip steps over exactly one encoded unknown field: at depth 0 it returns just after it,
   inside a group it goes on just after it.  A group is left exactly at its own end tag,
   whatever groups its body holds.
   */
  lemma {:induction false} SkipUnknown(u: Unknown, d: Buffer, i: nat, depth: nat)
    requires WellFormed(u) && Within(Encode(u), d, i)
    ensures Leaves(d, i, depth, i + |Encode(u)|)
    decreases u, 0
  {
    hide Skip, EncodeVarint;
    match u {
      case Varint(num, v) => SkipVarint(num, v, d, i, depth);
      case Fixed64(num, bytes) => SkipFixed(num, 1, bytes, d, i, depth);
      case Delimited(num, bytes) => SkipDelimited(num, bytes, d, i, depth);
      case Fixed32(num, bytes) => SkipFixed(num, 5, bytes, d, i, depth);
      case Group(num, body, endNum) =>
        var end := EncodeVarint(8 * endNum + 4);
        var j := GroupOpens(num, EncodeAll(body) + end, d, i, depth);
        WithinParts(EncodeAll(body), end, d, j);
        SkipUnknowns(body, d, j, depth + 1);
        GroupCloses(endNum, d, j + |EncodeAll(body)|, depth);
    }
  }

  lemma {:induction false} SkipUnknowns(us: seq<Unknown>, d: Buffer, i: nat, depth: nat)
    requires depth >= 1 && (forall x | x in us :: WellFormed(x)) && Within(EncodeAll(us), d, i)
    ensures Skip(d, i, depth) == Skip(d, i + |EncodeAll(us)|, depth)
    decreases us, 1
  {
    hide Skip, Encode;
    if us != [] {
      WithinParts(Encode(us[0]), EncodeAll(us[1..]), d, i);
      SkipUnknown(us[0], d, i, depth);
      SkipUnknowns(us[1..], d, i + |Encode(us[0])|, depth);
    }
  }

  /** The field loop skips a whole well-formed unknown field, however deeply its groups nest. */
  lemma SkipFieldUnknown(u: Unknown, d: Buffer, i: nat)
    requires WellFormed(u) && Within(Encode(u), d, i)
    ensures SkipField(d, i) == To(i + |Encode(u)|)
  {
    assert Within(Encode(u), d[i..], 0);
    SkipUnknown(u, d[i..], 0, 0);
  }

  lemma UnknownTag(u: Unknown)
    requires WellFormed(u) && ToInt32(u.num) > 0
    requires |Encode(u)| < TWO_TO_63
    ensures ReadTag(Encode(u), 0).Tag? && ReadTag(Encode(u), 0).num == ToInt32(u.num)
  {
    hide EncodeVarint, ReadVarint, ToInt32;
    var d := Encode(u);
    match u {
      case Varint(num, v) => var j := TagAt(num, 0, EncodeVarint(v), d, 0);
      case Fixed64(num, bytes) => var j := TagAt(num, 1, bytes, d, 0);
      case Delimited(num, bytes) => var j := TagAt(num, 2, EncodeVarint(|bytes|) + bytes, d, 0);
      case Group(num, body, e) => var j := TagAt(num, 3, EncodeAll(body) + EncodeVarint(8 * e + 4), d, 0);
      case Fixed32(num, bytes) => var j := TagAt(num, 5, bytes, d, 0);
    }
  }

  // ---------------------------------------------------------------- the Go loops

  /** The wire-type-0 case of skipGenesis: step over a varint without computing it. */
  method SkipVarintLoop(d: Buffer, i: nat) returns (r: Scan)
    ensures r == match ReadDigits(d, i, 0) case Found(_, j) => Found(0, j) case Bad(e) => Bad(e)
  {
    hide Pow128;
    var next, k := i, 0;
    while true
      invariant k <= 10 && i <= next
      invariant ReadDigits(d, i, 0).Bad? ==> ReadDigits(d, next, k) == ReadDigits(d, i, 0)
      invariant ReadDigits(d, i, 0).Found? ==>
                  ReadDigits(d, next, k).Found? && ReadDigits(d, next, k).next == ReadDigits(d, i, 0).next
      decreases 10 - k
    {
      if k >= 10 { return Bad(IntOverflow); }
      if next >= |d| { return Bad(UnexpectedEOF); }
      next := next + 1;
      if d[next - 1] < 128 { return Found(0, next); }
      k := k + 1;
    }
  }

  /** skipGenesis / skipTx: one loop over tags, with an int index that can wrap and a depth counter. */
  method SkipLoop(d: Buffer) returns (r: Skipped)
    ensures r == Skip(d, 0, 0)
  {
    var i, depth: nat := 0, 0;
    while i < |d|
      invariant Skip(d, 0, 0) == Skip(d, i, depth)
      decreases |d| - i
    {
      var tag := ReadVarintLoop(d, i);
      if tag.Bad? { return Stuck(tag.error); }
      var after := SkipPayloadLoop(d, tag.next, tag.value % 8, depth);
      if after.Bad? { return Stuck(after.error); }
      if ToInt64(after.next) < 0 { return Stuck(InvalidLength); }
      SkipTurn(d, i, depth, tag.value, tag.next, after.value, after.next);
      i, depth := after.next, after.value;
      if depth == 0 { return To(i); }
    }
    return Stuck(UnexpectedEOF);
  }

  /** The switch on the wire type in skipGenesis / skipTx. */
  method SkipPayloadLoop(d: Buffer, i: nat, wireType: nat, depth: nat) returns (r: Scan)
    requires i <= |d| && wireType < 8
    ensures r == SkipPayload(d, i, wireType, depth)
  {
    if wireType == 0 {
      var s := SkipVarintLoop(d, i);
      return match s case Found(_, j) => Found(depth, j) case Bad(e) => Bad(e);
    } else if wireType == 1 {
      return Found(depth, i + 8);
    } else if wireType == 2 {
      var s := ReadVarintLoop(d, i);
      if s.Bad? { return s; }
      if ToInt64(s.value) < 0 { return Bad(InvalidLength); }
      return Found(depth, s.next + s.value);
    } else if wireType == 3 {
      return Found(depth + 1, i);
    } else if wireType == 4 {
      if depth == 0 { return Bad(UnexpectedEndOfGroup); }
      return Found(depth - 1, i);
    } else if wireType == 5 {
      return Found(depth, i + 4);
    } else {
      return Bad(IllegalWireType);
    }
  }

  method ReadTagLoop(d: Buffer, i: nat) returns (r: TagRead)
    ensures r == ReadTag(d, i)
  {
    hide ReadVarint;
    var s := ReadVarintLoop(d, i);
    if s.Bad? { return NoTag(s.error); }
    var fieldNum, wireType := ToInt32(s.value / 8), s.value % 8;
    if wireType == 4 { return NoTag(EndGroupForNonGroup); }
    if fieldNum <= 0 { return NoTag(IllegalTag); }
    return Tag(fieldNum, wireType, s.next);
  }

  /** Length varint, then postIndex := iNdEx + int(length), with the three checks of the source. */
  method ReadBoundsLoop(d: Buffer, i: nat) returns (r: Span)
    ensures r == ReadBounds(d, i)
  {
    hide ReadVarint;
    var s := ReadVarintLoop(d, i);
    if s.Bad? { return NoSpan(s.error); }
    var len := ToInt64(s.value);
    if len < 0 { return NoSpan(InvalidLength); }
    var postIndex := ToInt64(s.next + len);
    if postIndex < 0 { return NoSpan(InvalidLength); }
    if postIndex > |d| { return NoSpan(UnexpectedEOF); }
    return Span(s.next, postIndex);
  }

  method SkipFieldLoop(d: Buffer, i: nat) returns (r: Skipped)
    requires i <= |d|
    ensures r == SkipField(d, i)
  {
    hide Skip;
    var skippy := SkipLoop(d[i..]);
    if skippy.Stuck? { return skippy; }
    var sum := ToInt64(i + skippy.next);
    if sum < 0 { return Stuck(InvalidLength); }
    if sum > |d| { return Stuck(UnexpectedEOF); }
    return To(sum);
  }
}
