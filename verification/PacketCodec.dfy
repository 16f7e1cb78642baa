/** The Packet message: the outer frame of the transfer protocol, with a nested Stat. */
module PacketCodec {
  import opened Bytes
  import opened Stats
  import opened Wire
  import opened StatCodec

  type int32 = x: int | -0x8000_0000 <= x < 0x8000_0000

  const PACKET_STAT: int32 := 0
  const PACKET_REQ: int32 := 1
  const PACKET_DATA: int32 := 2
  const PACKET_FIN: int32 := 3
  const PACKET_ERR: int32 := 4

  /** A missing stat and an empty one are different packets: the first ends the STAT stream. */
  datatype Packet = Packet(kind: int32, stat: Option<Stat>, id: uint32, data: Str)

  const EMPTY_PACKET := Packet(PACKET_STAT, None, 0, [])

  // ---------------------------------------------------------------- format

  /** uint64(m.Type): negative values are sign-extended. */
  function KindBits(k: int32): (v: nat)
    ensures v < TWO64
  {
    if k < 0 then k + TWO64 else k
  }

  function KindOf(v: nat): int32
    requires v < TWO32
  {
    if v >= TWO31 then v - TWO32 else v
  }

  function StatOrder(p: Packet): map<Str, Str> { if p.stat.Some? then p.stat.value.xattrs else map[] }

  /** The nested stat: present when there is one, even an empty one. */
  function StatField(p: Packet, order: seq<Str>): Str
    requires forall k :: k in order ==> k in StatOrder(p)
  {
    if p.stat.None? then []
    else
      assert StatOrder(p) == p.stat.value.xattrs;
      [0x12] + LengthPrefixed(StatBytes(p.stat.value, order))
  }

  function PacketBytes(p: Packet, order: seq<Str>): Str
    requires forall k :: k in order ==> k in StatOrder(p)
  {
    VarintField(0x08, KindBits(p.kind))
    + (StatField(p, order) + (VarintField(0x18, p.id) + BytesField(0x22, p.data)))
  }

  /** The packet as its schema has it. */
  function PacketRecords(p: Packet, order: seq<Str>): seq<Record>
    requires forall k :: k in order ==> k in StatOrder(p)
  {
    NumberRecord(1, p.kind)
    + ((if p.stat.None? then []
        else
          assert StatOrder(p) == p.stat.value.xattrs;
          [Piece(2, MessageBytes(StatRecords(p.stat.value, order)))])
       + (NumberRecord(3, p.id) + PieceRecord(4, p.data)))
  }

  /** An encoding is the message of the schema: the kind and the id as numbers, the stat, if there is one, as a
      message of its own. */
  lemma PacketIsMessage(p: Packet, order: seq<Str>)
    requires forall k :: k in order ==> k in StatOrder(p)
    ensures PacketBytes(p, order) == MessageBytes(PacketRecords(p, order))
  {
    hide MessageBytes, RecordBytes, VarintField, BytesField, NumberRecord, PieceRecord, StatBytes, StatRecords;
    NumberField(1, 0x08, p.kind, KindBits(p.kind));
    NumberField(3, 0x18, p.id, p.id);
    PieceField(4, 0x22, p.data);
    var last := NumberRecord(3, p.id) + PieceRecord(4, p.data);
    MessageConcat(NumberRecord(3, p.id), PieceRecord(4, p.data));
    if p.stat.Some? {
      var stat := [Piece(2, MessageBytes(StatRecords(p.stat.value, order)))];
      StatIsMessage(p.stat.value, order);
      PieceField(2, 0x12, StatBytes(p.stat.value, order));
      MessageConcat(stat, last);
      MessageConcat(NumberRecord(1, p.kind), stat + last);
    } else {
      assert [] + last == last && StatField(p, order) == [];
      MessageConcat(NumberRecord(1, p.kind), last);
    }
  }

  // ---------------------------------------------------------------- size and marshalling

  lemma NestedSize(stat: Stat, order: seq<Str>, n: nat)
    requires IsOrder(stat.xattrs, order) && n == |StatBytes(stat, order)|
    ensures |[0x12] + LengthPrefixed(StatBytes(stat, order))| == 1 + n + SizeOfVarint(n)
  {
    VarintSize(n);
  }

  /** SizeVT: exact under every iteration order of the nested map. */
  method SizeVT(p: Packet) returns (n: nat)
    ensures forall order :: IsOrder(StatOrder(p), order) ==> n == |PacketBytes(p, order)|
  {
    n := SizeOfScalar(KindBits(p.kind));
    var l := 0;
    if p.stat.Some? {
      l := StatCodec.SizeVT(p.stat.value);
      n := n + 1 + l + SizeOfVarint(l);
    }
    n := n + SizeOfScalar(p.id);
    n := n + SizeOfBytes(p.data);
    ScalarSize(0x08, KindBits(p.kind));
    ScalarSize(0x18, p.id);
    BytesSize(0x22, p.data);
    forall order | IsOrder(StatOrder(p), order) ensures n == |PacketBytes(p, order)| {
      if p.stat.Some? {
        NestedSize(p.stat.value, order, l);
      }
    }
  }

  /** A window written inside a window. */
  lemma WindowNest(pre: Str, i: nat, hi: nat, tail: Str, n: nat, s: Str, cur: Str, after: Str)
    requires i + |tail| == hi <= |pre| && cur == Window(pre, i, hi, tail)
    requires |s| == n <= i && after == Window(cur, i - n, i, s)
    ensures after == Window(pre, i - n, hi, s + tail)
  {
    assert cur[i..] == tail + pre[hi..];
    assert cur[..i - n] == pre[..i - n];
  }

  /** Writes the nested stat in front of the tail. */
  method PutStat(dAtA: array<byte>, i: nat, hi: nat, stat: Stat, ghost pre: Str, ghost tail: Str)
    returns (j: nat, ghost order: seq<Str>)
    requires forall o :: IsOrder(stat.xattrs, o) ==> |[0x12] + LengthPrefixed(StatBytes(stat, o))| <= i
    requires i + |tail| == hi <= |pre| && dAtA[..] == Window(pre, i, hi, tail)
    modifies dAtA
    ensures IsOrder(stat.xattrs, order) && j == i - |[0x12] + LengthPrefixed(StatBytes(stat, order))|
    ensures dAtA[..] == Window(pre, j, hi, [0x12] + LengthPrefixed(StatBytes(stat, order)) + tail)
  {
    hide StatBytes, VarintBytes;
    ghost var cur := dAtA[..];
    RoomForStat(stat, i);
    var size;
    size, order := StatCodec.MarshalToSizedBuffer(dAtA, 0, i, stat);
    ghost var bytes := StatBytes(stat, order);
    WindowNest(pre, i, hi, tail, size, bytes, cur, dAtA[..]);
    HeaderInFront(bytes, tail);
    assert |[0x12] + LengthPrefixed(bytes)| <= i;
    j := PutHeader(dAtA, i - size, hi, 0x12, size, pre, bytes + tail);
  }

  lemma HeaderInFront(bytes: Str, tail: Str)
    ensures [0x12] + VarintBytes(|bytes|) + (bytes + tail) == [0x12] + LengthPrefixed(bytes) + tail
  { }

  lemma RoomForStat(stat: Stat, room: nat)
    requires forall o :: IsOrder(stat.xattrs, o) ==> |[0x12] + LengthPrefixed(StatBytes(stat, o))| <= room
    ensures forall o :: IsOrder(stat.xattrs, o) ==> |StatBytes(stat, o)| <= room
  {
    forall o | IsOrder(stat.xattrs, o) ensures |StatBytes(stat, o)| <= room {
      assert |[0x12] + LengthPrefixed(StatBytes(stat, o))| <= room;
    }
  }

  /** MarshalToSizedBufferVT on a buffer of at least the exact size: fills the last n bytes. */
  method MarshalToSizedBuffer(dAtA: array<byte>, p: Packet) returns (n: nat, ghost order: seq<Str>)
    requires forall o :: IsOrder(StatOrder(p), o) ==> |PacketBytes(p, o)| <= dAtA.Length
    modifies dAtA
    ensures IsOrder(StatOrder(p), order) && n == |PacketBytes(p, order)| <= dAtA.Length
    ensures dAtA[..] == Window(old(dAtA[..]), dAtA.Length - n, dAtA.Length, PacketBytes(p, order))
  {
    hide VarintField, BytesField, StatBytes, LengthPrefixed, Window, KindBits;
    ghost var pre := dAtA[..];
    var hi := dAtA.Length;
    RoomForPacket(p, hi);
    NothingWritten(pre);
    var i := PutBytesField(dAtA, hi, hi, 0x22, p.data, pre, []);
    ghost var tail := BytesField(0x22, p.data);
    assert tail + [] == tail;
    i := PutVarintField(dAtA, i, hi, 0x18, p.id, pre, tail);
    tail := VarintField(0x18, p.id) + tail;
    order := [];
    if p.stat.Some? {
      i, order := PutStat(dAtA, i, hi, p.stat.value, pre, tail);
    } else {
      assert StatField(p, order) + tail == tail;
    }
    assert IsOrder(StatOrder(p), order);
    i := PutVarintField(dAtA, i, hi, 0x08, KindBits(p.kind), pre, StatField(p, order) + tail);
    n := hi - i;
  }

  lemma NothingWritten(pre: Str)
    ensures Window(pre, |pre|, |pre|, []) == pre
  { }

  /** Room for the whole packet is room for its parts. */
  lemma RoomForPacket(p: Packet, room: nat)
    requires forall o :: IsOrder(StatOrder(p), o) ==> |PacketBytes(p, o)| <= room
    ensures p.stat.None? ==>
      |BytesField(0x22, p.data)| + |VarintField(0x18, p.id)| + |VarintField(0x08, KindBits(p.kind))| <= room
    ensures p.stat.Some? ==> forall o :: IsOrder(StatOrder(p), o) ==>
      |VarintField(0x08, KindBits(p.kind))| + |[0x12] + LengthPrefixed(StatBytes(p.stat.value, o))|
        <= room - |BytesField(0x22, p.data)| - |VarintField(0x18, p.id)|
    ensures |BytesField(0x22, p.data)| + |VarintField(0x18, p.id)| <= room
  {
    var o := Complete(StatOrder(p), []);
    assert |PacketBytes(p, o)| <= room;
    if p.stat.Some? {
      forall o | IsOrder(StatOrder(p), o)
        ensures |VarintField(0x08, KindBits(p.kind))| + |[0x12] + LengthPrefixed(StatBytes(p.stat.value, o))|
                <= room - |BytesField(0x22, p.data)| - |VarintField(0x18, p.id)|
      {
        assert |PacketBytes(p, o)| <= room;
      }
    }
  }

  method MarshalVT(p: Packet) returns (bytes: Str)
    ensures exists order ::
              IsOrder(StatOrder(p), order) && bytes == PacketBytes(p, order) == MessageBytes(PacketRecords(p, order))
  {
    hide PacketBytes, StatOrder, PacketRecords;
    var size := SizeVT(p);
    var dAtA := new byte[size](_ => 0);
    var n, order := MarshalToSizedBuffer(dAtA, p);
    bytes := dAtA[size - n..];
    assert n == size;
    assert dAtA[..] == PacketBytes(p, order);
    PacketIsMessage(p, order);
  }

  // ---------------------------------------------------------------- parsing

  /** The nested message is merged into the stat so far, or into a new one. */
  function ReadNested(b: Str, i: nat, old': Option<Stat>): (r: Result<(Stat, nat)>)
    ensures r.Ok? ==> i < r.value.1 <= |b|
  {
    var record := ReadBytes(b, i);
    if record.Err? then Err(record.error)
    else
      var s := ReadStat(record.value.0, 0, if old'.Some? then old'.value else EMPTY_STAT);
      if s.Err? then Err(s.error) else Ok((s.value, record.value.1))
  }

  function ReadField(b: Str, i: nat, f: int, wireType: nat, p: Packet): (r: Result<(Packet, nat)>)
    ensures r.Ok? ==> i < r.value.1 <= |b|
  {
    if f == 1 || f == 3 then
      var v := ReadVarint(b, i, W32);
      if wireType != 0 then Err(WrongWireType)
      else if v.Err? then Err(v.error)
      else Ok((if f == 1 then p.(kind := KindOf(v.value.0)) else p.(id := v.value.0), v.value.1))
    else if f == 2 then
      var s := ReadNested(b, i, p.stat);
      if wireType != 2 then Err(WrongWireType)
      else if s.Err? then Err(s.error)
      else Ok((p.(stat := Some(s.value.0)), s.value.1))
    else if f == 4 then
      var v := ReadBytes(b, i);
      if wireType != 2 then Err(WrongWireType)
      else if v.Err? then Err(v.error)
      else Ok((p.(data := v.value.0), v.value.1))
    else Err(Unsupported)
  }

  function ReadNext(b: Str, i: nat, p: Packet): (r: Result<(Packet, nat)>)
    ensures r.Ok? ==> i < r.value.1 <= |b|
  {
    var wire := ReadVarint(b, i, W64);
    if wire.Err? then Err(wire.error)
    else if wire.value.0 % 8 == 4 then Err(EndGroup)
    else if FieldNum(wire.value.0) <= 0 then Err(IllegalTag)
    else ReadField(b, wire.value.1, FieldNum(wire.value.0), wire.value.0 % 8, p)
  }

  /** The rest of the packet from position i, merged into p. */
  function ReadPacket(b: Str, i: nat, p: Packet): Result<Packet>
    requires i <= |b|
    decreases |b| - i
  {
    if i == |b| then Ok(p)
    else
      var next := ReadNext(b, i, p);
      if next.Err? then Err(next.error) else ReadPacket(b, next.value.1, next.value.0)
  }

  /** One case of the field switch. */
  method UnmarshalField(b: Str, iNdEx: nat, f: int, wireType: nat, p: Packet) returns (r: Result<(Packet, nat)>)
    ensures r == ReadField(b, iNdEx, f, wireType, p)
  {
    if f == 1 || f == 3 {
      if wireType != 0 {
        return Err(WrongWireType);
      }
      var v := DecodeVarint(b, iNdEx, W32);
      if v.Err? {
        return Err(v.error);
      }
      return Ok((if f == 1 then p.(kind := KindOf(v.value.0)) else p.(id := v.value.0), v.value.1));
    } else if f == 2 || f == 4 {
      if wireType != 2 {
        return Err(WrongWireType);
      }
      var v := DecodeBytes(b, iNdEx);
      if v.Err? {
        return Err(v.error);
      }
      if f == 4 {
        return Ok((p.(data := v.value.0), v.value.1));
      }
      var s := StatCodec.UnmarshalVT(v.value.0, if p.stat.Some? then p.stat.value else EMPTY_STAT);
      if s.Err? {
        return Err(s.error);
      }
      return Ok((p.(stat := Some(s.value)), v.value.1));
    }
    return Err(Unsupported);
  }

  /** UnmarshalVT: the parsing loop, merging into the packet start. */
  method UnmarshalVT(b: Str, start: Packet) returns (r: Result<Packet>)
    ensures r == ReadPacket(b, 0, start)
  {
    var iNdEx, p := 0, start;
    while iNdEx < |b|
      invariant iNdEx <= |b| && ReadPacket(b, iNdEx, p) == ReadPacket(b, 0, start)
      decreases |b| - iNdEx
    {
      var wire := DecodeVarint(b, iNdEx, W64);
      if wire.Err? {
        return Err(wire.error);
      }
      var fieldNum, wireType := FieldNum(wire.value.0), wire.value.0 % 8;
      if wireType == 4 {
        return Err(EndGroup);
      }
      if fieldNum <= 0 {
        return Err(IllegalTag);
      }
      var next := UnmarshalField(b, wire.value.1, fieldNum, wireType, p);
      if next.Err? {
        return Err(next.error);
      }
      p, iNdEx := next.value.0, next.value.1;
    }
    return Ok(p);
  }

  /** ResetVT: what is left to merge the next packet into. */
  function Reset(p: Packet): Packet { p.(kind := 0, stat := None, id := 0, data := p.data[..0]) }

  // ---------------------------------------------------------------- round trip

  lemma FieldStep(b: Str, i: nat, tag: byte, rest: Str, p: Packet, p': Packet, next: nat)
    requires 8 <= tag < 128 && tag % 8 != 4 && At(b, i, [tag] + rest) && next <= |b|
    requires var r := ReadField(b, i + 1, tag / 8, tag % 8, p); r.Ok? && r.value.0 == p' && r.value.1 == next
    ensures ReadPacket(b, i, p) == ReadPacket(b, next, p')
  {
    hide ReadField;
    TagAt(b, i, tag, rest);
  }

  lemma KindRoundTrip(k: int32)
    ensures KindOf(Wrap(KindBits(k), W32)) == k
    ensures KindBits(k) == 0 <==> k == 0
  { }

  lemma KindRead(b: Str, i: nat, k: int32, p: Packet, rest: Str)
    requires rest == VarintBytes(KindBits(k)) && At(b, i, rest)
    ensures var r := ReadField(b, i, 1, 0, p); r.Ok? && r.value.0 == p.(kind := k) && r.value.1 == i + |rest|
  {
    KindRoundTrip(k);
    ReadVarintAt(b, i, KindBits(k), W32);
  }

  lemma IdRead(b: Str, i: nat, id: uint32, p: Packet, rest: Str)
    requires rest == VarintBytes(id) && At(b, i, rest)
    ensures var r := ReadField(b, i, 3, 0, p); r.Ok? && r.value.0 == p.(id := id) && r.value.1 == i + |rest|
  {
    ReadVarintAt(b, i, id, W32);
  }

  lemma DataRead(b: Str, i: nat, data: Str, p: Packet, rest: Str)
    requires rest == LengthPrefixed(data) && At(b, i, rest) && |b| < TWO63
    ensures var r := ReadField(b, i, 4, 2, p); r.Ok? && r.value.0 == p.(data := data) && r.value.1 == i + |rest|
  {
    ReadBytesAt(b, i, data);
  }

  lemma NestedRead(b: Str, i: nat, stat: Stat, order: seq<Str>, p: Packet, rest: Str)
    requires IsOrder(stat.xattrs, order) && rest == LengthPrefixed(StatBytes(stat, order))
    requires At(b, i, rest) && |b| < TWO63 && p.stat.None?
    ensures var r := ReadField(b, i, 2, 2, p);
            r.Ok? && r.value.0 == p.(stat := Some(stat)) && r.value.1 == i + |rest|
  {
    hide ReadStat, ReadBytes;
    ReadBytesAt(b, i, StatBytes(stat, order));
    StatCodec.RoundTrip(stat, order, StatBytes(stat, order));
  }

  lemma KindStep(b: Str, i: nat, k: int32, p: Packet, bytes: Str)
    requires bytes == VarintField(0x08, KindBits(k)) && At(b, i, bytes) && p.kind == 0
    ensures ReadPacket(b, i, p) == ReadPacket(b, i + |bytes|, p.(kind := k))
  {
    hide ReadPacket, ReadField;
    KindRoundTrip(k);
    if k != 0 {
      var rest := VarintBytes(KindBits(k));
      AtConcat(b, i, [0x08], rest);
      KindRead(b, i + 1, k, p, rest);
      FieldStep(b, i, 0x08, rest, p, p.(kind := k), i + 1 + |rest|);
    }
  }

  lemma IdStep(b: Str, i: nat, id: uint32, p: Packet, bytes: Str)
    requires bytes == VarintField(0x18, id) && At(b, i, bytes) && p.id == 0
    ensures ReadPacket(b, i, p) == ReadPacket(b, i + |bytes|, p.(id := id))
  {
    hide ReadPacket, ReadField;
    if id != 0 {
      var rest := VarintBytes(id);
      AtConcat(b, i, [0x18], rest);
      IdRead(b, i + 1, id, p, rest);
      FieldStep(b, i, 0x18, rest, p, p.(id := id), i + 1 + |rest|);
    }
  }

  lemma DataStep(b: Str, i: nat, data: Str, p: Packet, bytes: Str)
    requires bytes == BytesField(0x22, data) && At(b, i, bytes) && |b| < TWO63 && p.data == []
    ensures ReadPacket(b, i, p) == ReadPacket(b, i + |bytes|, p.(data := data))
  {
    hide ReadPacket, ReadField;
    if data != [] {
      var rest := LengthPrefixed(data);
      AtConcat(b, i, [0x22], rest);
      DataRead(b, i + 1, data, p, rest);
      FieldStep(b, i, 0x22, rest, p, p.(data := data), i + 1 + |rest|);
    }
  }

  lemma StatStep(b: Str, i: nat, q: Packet, order: seq<Str>, p: Packet, bytes: Str)
    requires IsOrder(StatOrder(q), order) && bytes == StatField(q, order)
    requires At(b, i, bytes) && |b| < TWO63 && p.stat.None?
    ensures ReadPacket(b, i, p) == ReadPacket(b, i + |bytes|, p.(stat := q.stat))
  {
    hide ReadPacket, ReadField, At, StatBytes, LengthPrefixed;
    if q.stat.Some? {
      var rest := LengthPrefixed(StatBytes(q.stat.value, order));
      AtConcat(b, i, [0x12], rest);
      NestedRead(b, i + 1, q.stat.value, order, p, rest);
      FieldStep(b, i, 0x12, rest, p, p.(stat := q.stat), i + 1 + |rest|);
    }
  }

  lemma ReadEnd(b: Str, i: nat, p: Packet)
    requires i == |b|
    ensures ReadPacket(b, i, p) == Ok(p)
  { }

  lemma AtStart(b: Str)
    ensures At(b, 0, b)
  { }

  lemma ReadEncoding(q: Packet, order: seq<Str>, b: Str, p: Packet)
    requires IsOrder(StatOrder(q), order) && b == PacketBytes(q, order) && |b| < TWO63
    requires p.kind == 0 && p.stat.None? && p.id == 0 && p.data == []
    ensures ReadPacket(b, 0, p) == Ok(q)
  {
    hide ReadPacket, StatField, VarintField, BytesField, At;
    var f1, f2 := VarintField(0x08, KindBits(q.kind)), StatField(q, order);
    var f3, f4 := VarintField(0x18, q.id), BytesField(0x22, q.data);
    AtStart(b);
    AtConcat(b, 0, f1, f2 + (f3 + f4));
    AtConcat(b, |f1|, f2, f3 + f4);
    AtConcat(b, |f1| + |f2|, f3, f4);
    var p1 := p.(kind := q.kind);
    var p2 := p1.(stat := q.stat);
    var p3 := p2.(id := q.id);
    KindStep(b, 0, q.kind, p, f1);
    StatStep(b, |f1|, q, order, p1, f2);
    IdStep(b, |f1| + |f2|, q.id, p2, f3);
    DataStep(b, |f1| + |f2| + |f3|, q.data, p3, f4);
    ReadEnd(b, |b|, q);
  }

  /** Whatever packet was received before, resetting it and parsing an encoding of q gives q:
      the kind with its sign, a missing stat as missing and an empty one as empty. */
  lemma RoundTrip(q: Packet, order: seq<Str>, b: Str, previous: Packet)
    requires IsOrder(StatOrder(q), order) && b == PacketBytes(q, order) && |b| < TWO63
    ensures ReadPacket(b, 0, Reset(previous)) == Ok(q)
  {
    hide ReadPacket;
    ReadEncoding(q, order, b, Reset(previous));
  }
}
