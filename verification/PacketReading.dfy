/** What the parser makes of any packet of the schema. */
module PacketReading {
  import opened Bytes
  import opened Stats
  import opened Wire
  import opened StatCodec
  import opened PacketCodec
  import S = StatReading

  datatype Part = Kind(value: nat) | Nested(parts: seq<S.Part>) | Id(value: nat) | Data(bytes: Str)

  predicate Legal(p: Part)
  {
    match p
    case Kind(v) => v < TWO64
    case Nested(ps) => forall q :: q in ps ==> S.Legal(q)
    case Id(v) => v < TWO64
    case Data(b) => true
  }

  function RecordOf(p: Part): Record
  {
    match p
    case Kind(v) => Number(1, v)
    case Nested(ps) => Piece(2, MessageBytes(S.RecordsOf(ps)))
    case Id(v) => Number(3, v)
    case Data(b) => Piece(4, b)
  }

  function RecordsOf(ps: seq<Part>): seq<Record>
  {
    if ps == [] then [] else [RecordOf(ps[0])] + RecordsOf(ps[1..])
  }

  /** The signed 32-bit number that is congruent to v modulo 2^32. */
  function Signed32(v: nat): (k: int32)
    ensures (k - v) % TWO32 == 0
  {
    if v % TWO32 < TWO31 then v % TWO32 else v % TWO32 - TWO32
  }

  /** The packet with one field set; a nested stat is merged into the one there was. */
  function Merged(q: Packet, p: Part): Packet
    requires Legal(p)
  {
    match p
    case Kind(v) => q.(kind := Signed32(v))
    case Nested(ps) => q.(stat := Some(S.MergedAll(if q.stat.Some? then q.stat.value else EMPTY_STAT, ps)))
    case Id(v) => q.(id := v % TWO32)
    case Data(b) => q.(data := b)
  }

  function MergedAll(q: Packet, ps: seq<Part>): Packet
    requires forall p :: p in ps ==> Legal(p)
    decreases |ps|
  {
    if ps == [] then q else MergedAll(Merged(q, ps[0]), ps[1..])
  }

  lemma NumberRead(b: Str, i: nat, f: nat, v: nat, q: Packet)
    requires (f == 1 || f == 3) && v < TWO64 && At(b, i, VarintBytes(v))
    ensures (var r := PacketCodec.ReadField(b, i, f, 0, q);
             && r.Ok? && r.value.1 == i + |VarintBytes(v)|
             && r.value.0 == Merged(q, if f == 1 then Kind(v) else Id(v)))
  {
    ReadVarintAt(b, i, v, W32);
  }

  lemma NumberAt(b: Str, i: nat, f: nat, v: nat, q: Packet)
    requires (f == 1 || f == 3) && v < TWO64 && At(b, i, RecordBytes(Number(f, v)))
    ensures i + |RecordBytes(Number(f, v))| <= |b|
    ensures (ReadPacket(b, i, q)
             == ReadPacket(b, i + |RecordBytes(Number(f, v))|, Merged(q, if f == 1 then Kind(v) else Id(v))))
  {
    hide ReadPacket, PacketCodec.ReadField, Merged;
    var tag: byte, rest := 8 * f, VarintBytes(v);
    S.SmallTag(tag);
    assert RecordBytes(Number(f, v)) == [tag] + rest;
    AtConcat(b, i, [tag], rest);
    NumberRead(b, i + 1, f, v, q);
    PacketCodec.FieldStep(b, i, tag, rest, q, Merged(q, if f == 1 then Kind(v) else Id(v)), i + 1 + |rest|);
  }

  lemma NestedRead(b: Str, i: nat, ps: seq<S.Part>, q: Packet, rest: Str)
    requires Legal(Nested(ps)) && rest == LengthPrefixed(MessageBytes(S.RecordsOf(ps))) && At(b, i, rest) && |b| < TWO63
    ensures (var r := PacketCodec.ReadField(b, i, 2, 2, q);
             r.Ok? && r.value.1 == i + |rest| && r.value.0 == Merged(q, Nested(ps)))
  {
    hide ReadStat, ReadBytes;
    var m := MessageBytes(S.RecordsOf(ps));
    ReadBytesAt(b, i, m);
    S.AnyMessage(ps, if q.stat.Some? then q.stat.value else EMPTY_STAT);
  }

  lemma PieceAt(b: Str, i: nat, p: Part, q: Packet)
    requires Legal(p) && (p.Nested? || p.Data?) && At(b, i, RecordBytes(RecordOf(p))) && |b| < TWO63
    ensures i + |RecordBytes(RecordOf(p))| <= |b|
    ensures ReadPacket(b, i, q) == ReadPacket(b, i + |RecordBytes(RecordOf(p))|, Merged(q, p))
  {
    hide ReadPacket, PacketCodec.ReadField, LengthPrefixed, RecordBytes, MessageBytes, At, Legal;
    var r := RecordOf(p);
    var tag: byte, rest := 8 * r.field + 2, LengthPrefixed(r.bytes);
    PieceField(r.field, tag, r.bytes);
    AtConcat(b, i, [tag], rest);
    if p.Nested? { NestedRead(b, i + 1, p.parts, q, rest); } else { DataRead(b, i + 1, p.bytes, q, rest); }
    PacketCodec.FieldStep(b, i, tag, rest, q, Merged(q, p), i + 1 + |rest|);
  }

  lemma PartAt(b: Str, i: nat, p: Part, q: Packet)
    requires Legal(p) && At(b, i, RecordBytes(RecordOf(p))) && |b| < TWO63
    ensures i + |RecordBytes(RecordOf(p))| <= |b|
    ensures ReadPacket(b, i, q) == ReadPacket(b, i + |RecordBytes(RecordOf(p))|, Merged(q, p))
  {
    hide ReadPacket, RecordBytes, Merged, MessageBytes;
    match p
    case Kind(v) => NumberAt(b, i, 1, v, q);
    case Id(v) => NumberAt(b, i, 3, v, q);
    case Nested(ps) => PieceAt(b, i, p, q);
    case Data(d) => PieceAt(b, i, p, q);
  }

  lemma {:induction false} PartsRead(b: Str, i: nat, ps: seq<Part>, q: Packet)
    requires (forall p :: p in ps ==> Legal(p)) && At(b, i, MessageBytes(RecordsOf(ps))) && |b| < TWO63
    ensures i + |MessageBytes(RecordsOf(ps))| <= |b|
    ensures ReadPacket(b, i, q) == ReadPacket(b, i + |MessageBytes(RecordsOf(ps))|, MergedAll(q, ps))
    decreases |ps|
  {
    hide ReadPacket, RecordBytes, Legal, RecordOf, Merged;
    if ps != [] {
      var first, rest := RecordOf(ps[0]), RecordsOf(ps[1..]);
      assert ([first] + rest)[1..] == rest;
      AtConcat(b, i, RecordBytes(first), MessageBytes(rest));
      PartAt(b, i, ps[0], q);
      PartsRead(b, i + |RecordBytes(first)|, ps[1..], Merged(q, ps[0]));
    }
  }

  /** Any packet of the schema, its fields in any order and repeated at will, is read one field after the other
      into the packet there was: the last number and the last data stand, nested stats are merged. */
  lemma AnyPacket(ps: seq<Part>, q: Packet)
    requires (forall p :: p in ps ==> Legal(p)) && |MessageBytes(RecordsOf(ps))| < TWO63
    ensures ReadPacket(MessageBytes(RecordsOf(ps)), 0, q) == Ok(MergedAll(q, ps))
  {
    var b := MessageBytes(RecordsOf(ps));
    AtStart(b);
    PartsRead(b, 0, ps, q);
    ReadEnd(b, |b|, MergedAll(q, ps));
  }

  // ---------------------------------------------------------------- bad tags

  function BadTag(tag: nat): Option<WireError>
  {
    var f, wireType := tag / 8 % TWO32, tag % 8;
    if wireType == 4 then Some(EndGroup)
    else if f == 0 || f >= TWO31 then Some(IllegalTag)
    else if f in {2, 4} then if wireType == 2 then None else Some(WrongWireType)
    else if f in {1, 3} then if wireType == 0 then None else Some(WrongWireType)
    else Some(Unsupported)
  }

  lemma TagRefused(b: Str, i: nat, tag: nat, q: Packet)
    requires tag < TWO64 && At(b, i, VarintBytes(tag)) && BadTag(tag).Some?
    ensures ReadPacket(b, i, q) == Err(BadTag(tag).value)
  {
    hide ReadVarint, VarintBytes, ReadNested, ReadBytes;
    ReadVarintAt(b, i, tag, W64);
    S.TagIsThere(tag);
  }

  /** A packet, too, is read up to its first bad tag. */
  lemma BadPacket(ps: seq<Part>, tag: nat, rest: Str, q: Packet)
    requires (forall p :: p in ps ==> Legal(p)) && tag < TWO64 && BadTag(tag).Some?
    requires |MessageBytes(RecordsOf(ps)) + VarintBytes(tag) + rest| < TWO63
    ensures ReadPacket(MessageBytes(RecordsOf(ps)) + VarintBytes(tag) + rest, 0, q) == Err(BadTag(tag).value)
  {
    hide ReadPacket, VarintBytes, MessageBytes, RecordsOf, BadTag;
    var m, t := MessageBytes(RecordsOf(ps)), VarintBytes(tag);
    var b := m + t + rest;
    assert b[0..|m|] == m && b[|m|..|m| + |t|] == t;
    PartsRead(b, 0, ps, q);
    TagRefused(b, |m|, tag, MergedAll(q, ps));
  }
}
