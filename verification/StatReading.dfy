/** What the parser makes of any message of the schema, in whatever order its fields stand and however often
    they are repeated. */
module StatReading {
  import opened Bytes
  import opened Stats
  import opened Wire
  import opened StatCodec

  /** A field of the schema: a number, a text, or a map entry with its keys and values. */
  datatype Part = Scalar(field: nat, value: nat) | Text(field: nat, bytes: Str) | Pair(pieces: seq<Record>)

  predicate Legal(p: Part)
  {
    match p
    case Scalar(f, v) => f in {2, 3, 4, 5, 6, 8, 9} && v < TWO64
    case Text(f, b) => f in {1, 7}
    case Pair(es) => forall e :: e in es ==> e.Piece? && e.field in {1, 2}
  }

  function RecordOf(p: Part): Record
  {
    match p
    case Scalar(f, v) => Number(f, v)
    case Text(f, b) => Piece(f, b)
    case Pair(es) => Piece(10, MessageBytes(es))
  }

  function RecordsOf(ps: seq<Part>): seq<Record>
  {
    if ps == [] then [] else [RecordOf(ps[0])] + RecordsOf(ps[1..])
  }

  /** The last piece with that number, or what was there before. */
  function LastPiece(es: seq<Record>, f: nat, before: Str): Str
  {
    if es == [] then before
    else LastPiece(es[1..], f, if es[0].Piece? && es[0].field == f then es[0].bytes else before)
  }

  /** The signed number that is congruent to v modulo 2^64. */
  function Signed(v: nat): (x: int64)
    requires v < TWO64
    ensures (x - v) % TWO64 == 0
  {
    if v < TWO63 then v else v - TWO64
  }

  /** The message with one field set, or one map entry added. 32-bit numbers keep their low 32 bits. */
  function Merged(s: Stat, p: Part): Stat
    requires Legal(p)
  {
    match p
    case Scalar(2, v) => s.(mode := v % TWO32)
    case Scalar(3, v) => s.(uid := v % TWO32)
    case Scalar(4, v) => s.(gid := v % TWO32)
    case Scalar(5, v) => s.(size := Signed(v))
    case Scalar(6, v) => s.(modTime := Signed(v))
    case Scalar(8, v) => s.(devmajor := Signed(v))
    case Scalar(_, v) => s.(devminor := Signed(v))
    case Text(1, b) => s.(path := b)
    case Text(_, b) => s.(linkname := b)
    case Pair(es) => s.(xattrs := s.xattrs[LastPiece(es, 1, []) := LastPiece(es, 2, [])])
  }

  function MergedAll(s: Stat, ps: seq<Part>): Stat
    requires forall p :: p in ps ==> Legal(p)
    decreases |ps|
  {
    if ps == [] then s else MergedAll(Merged(s, ps[0]), ps[1..])
  }

  // ---------------------------------------------------------------- single fields

  lemma SetIsMerged(s: Stat, f: nat, v: nat)
    requires Legal(Scalar(f, v))
    ensures IsScalar(f) && SetScalar(s, f, Wrap(v, WidthOf(f))) == Merged(s, Scalar(f, v))
  { }

  lemma NumberAt(b: Str, i: nat, f: nat, v: nat, s: Stat)
    requires Legal(Scalar(f, v)) && At(b, i, RecordBytes(Number(f, v)))
    ensures i + |RecordBytes(Number(f, v))| <= |b|
    ensures ReadStat(b, i, s) == ReadStat(b, i + |RecordBytes(Number(f, v))|, Merged(s, Scalar(f, v)))
  {
    hide ReadStat, ReadVarint, ReadVarintFrom, Wrap, Merged, SetScalar;
    var tag: byte, rest := 8 * f, VarintBytes(v);
    SmallTag(tag);
    assert RecordBytes(Number(f, v)) == [tag] + rest;
    AtConcat(b, i, [tag], rest);
    ReadVarintAt(b, i + 1, v, WidthOf(f));
    SetIsMerged(s, f, v);
    FieldStep(b, i, tag, rest, s, Merged(s, Scalar(f, v)), i + 1 + |rest|);
  }

  lemma SmallTag(tag: byte)
    requires tag < 128
    ensures VarintBytes(tag) == [tag]
  { }

  lemma TextAt(b: Str, i: nat, f: nat, v: Str, s: Stat)
    requires Legal(Text(f, v)) && At(b, i, RecordBytes(Piece(f, v))) && |b| < TWO63
    ensures i + |RecordBytes(Piece(f, v))| <= |b|
    ensures ReadStat(b, i, s) == ReadStat(b, i + |RecordBytes(Piece(f, v))|, Merged(s, Text(f, v)))
  {
    hide ReadStat, ReadVarint, LengthPrefixed;
    PieceField(f, 8 * f + 2, v);
    RecordStep(b, i, f, v, s, LengthPrefixed(v));
  }

  // ---------------------------------------------------------------- map entries

  lemma {:induction false} PiecesRead(b: Str, i: nat, post: nat, es: seq<Record>, key: Str, value: Str)
    requires (forall e :: e in es ==> e.Piece? && e.field in {1, 2}) && At(b, i, MessageBytes(es))
    requires post == i + |MessageBytes(es)| && |b| < TWO63
    ensures post <= |b| && ReadEntry(b, i, post, key, value) == Ok((LastPiece(es, 1, key), LastPiece(es, 2, value)))
    decreases |es|
  {
    hide ReadPiece, RecordBytes;
    if es != [] {
      var e := es[0];
      PieceField(e.field, 8 * e.field + 2, e.bytes);
      AtConcat(b, i, RecordBytes(e), MessageBytes(es[1..]));
      EntryStep(b, i, post, e.field, e.bytes, key, value, LengthPrefixed(e.bytes));
      PiecesRead(b, i + |RecordBytes(e)|, post, es[1..], if e.field == 1 then e.bytes else key,
                 if e.field == 2 then e.bytes else value);
    }
  }

  lemma EntryAt(b: Str, i: nat, es: seq<Record>, s: Stat)
    requires Legal(Pair(es)) && At(b, i, RecordBytes(RecordOf(Pair(es)))) && |b| < TWO63
    ensures i + |RecordBytes(RecordOf(Pair(es)))| <= |b|
    ensures ReadStat(b, i, s) == ReadStat(b, i + |RecordBytes(RecordOf(Pair(es)))|, Merged(s, Pair(es)))
  {
    hide ReadStat, ReadVarint, ReadBytes, ReadEntry, ReadMapField, MessageBytes, RecordBytes, LastPiece;
    var entry := MessageBytes(es);
    var rest := LengthPrefixed(entry);
    PieceField(10, 0x52, entry);
    AtConcat(b, i, [0x52], rest);
    ReadBytesAt(b, i + 1, entry);
    AtConcat(b, i + 1, VarintBytes(|entry|), entry);
    var start := i + 1 + |VarintBytes(|entry|)|;
    PiecesRead(b, start, start + |entry|, es, [], []);
    var k, v := LastPiece(es, 1, []), LastPiece(es, 2, []);
    MapFieldFrom(b, i + 1, s.xattrs, start + |entry|, |entry|, k, v);
    ReadMapWhole(b, i + 1, s, s.xattrs[k := v], i + 1 + |rest|);
    FieldStep(b, i, 0x52, rest, s, s.(xattrs := s.xattrs[k := v]), i + 1 + |rest|);
  }

  // ---------------------------------------------------------------- whole messages

  lemma PartAt(b: Str, i: nat, p: Part, s: Stat)
    requires Legal(p) && At(b, i, RecordBytes(RecordOf(p))) && |b| < TWO63
    ensures i + |RecordBytes(RecordOf(p))| <= |b|
    ensures ReadStat(b, i, s) == ReadStat(b, i + |RecordBytes(RecordOf(p))|, Merged(s, p))
  {
    hide ReadStat, RecordBytes, Merged;
    match p
    case Scalar(f, v) => NumberAt(b, i, f, v, s);
    case Text(f, v) => TextAt(b, i, f, v, s);
    case Pair(es) => EntryAt(b, i, es, s);
  }

  lemma {:induction false} PartsRead(b: Str, i: nat, ps: seq<Part>, s: Stat)
    requires (forall p :: p in ps ==> Legal(p)) && At(b, i, MessageBytes(RecordsOf(ps))) && |b| < TWO63
    ensures i + |MessageBytes(RecordsOf(ps))| <= |b|
    ensures ReadStat(b, i, s) == ReadStat(b, i + |MessageBytes(RecordsOf(ps))|, MergedAll(s, ps))
    decreases |ps|
  {
    hide ReadStat, RecordBytes, Legal, RecordOf, Merged;
    if ps != [] {
      var first, rest := RecordOf(ps[0]), RecordsOf(ps[1..]);
      assert ([first] + rest)[1..] == rest;
      AtConcat(b, i, RecordBytes(first), MessageBytes(rest));
      PartAt(b, i, ps[0], s);
      PartsRead(b, i + |RecordBytes(first)|, ps[1..], Merged(s, ps[0]));
    }
  }

  /** Any message of the schema, its fields in any order and repeated at will, is read one field after the
      other into the message there was: the last one of a kind stands, map entries add up. */
  lemma AnyMessage(ps: seq<Part>, s: Stat)
    requires (forall p :: p in ps ==> Legal(p)) && |MessageBytes(RecordsOf(ps))| < TWO63
    ensures ReadStat(MessageBytes(RecordsOf(ps)), 0, s) == Ok(MergedAll(s, ps))
  {
    var b := MessageBytes(RecordsOf(ps));
    assert At(b, 0, b);
    PartsRead(b, 0, ps, s);
    ReadNothing(b, |b|, MergedAll(s, ps));
  }

  // ---------------------------------------------------------------- bad tags

  /** What is wrong with a tag, if anything: the end of a group, a field number that is not positive as an int32,
      a field of another wire type, or a field that the schema does not have. */
  function BadTag(tag: nat): Option<WireError>
  {
    var f, wireType := tag / 8 % TWO32, tag % 8;
    if wireType == 4 then Some(EndGroup)
    else if f == 0 || f >= TWO31 then Some(IllegalTag)
    else if f in {1, 7, 10} then if wireType == 2 then None else Some(WrongWireType)
    else if f in {2, 3, 4, 5, 6, 8, 9} then if wireType == 0 then None else Some(WrongWireType)
    else Some(Unsupported)
  }

  lemma TagIsThere(tag: nat)
    ensures |VarintBytes(tag)| > 0
  { }

  lemma TagRefused(b: Str, i: nat, tag: nat, s: Stat)
    requires tag < TWO64 && At(b, i, VarintBytes(tag)) && BadTag(tag).Some?
    ensures ReadStat(b, i, s) == Err(BadTag(tag).value)
  {
    hide ReadVarint, VarintBytes, ReadMapField, ReadBytes;
    ReadVarintAt(b, i, tag, W64);
    TagIsThere(tag);
  }

  /** A message is read up to its first bad tag, whatever comes behind that. */
  lemma BadMessage(ps: seq<Part>, tag: nat, rest: Str, s: Stat)
    requires (forall p :: p in ps ==> Legal(p)) && tag < TWO64 && BadTag(tag).Some?
    requires |MessageBytes(RecordsOf(ps)) + VarintBytes(tag) + rest| < TWO63
    ensures ReadStat(MessageBytes(RecordsOf(ps)) + VarintBytes(tag) + rest, 0, s) == Err(BadTag(tag).value)
  {
    hide ReadStat, VarintBytes, MessageBytes, RecordsOf, BadTag;
    var m, t := MessageBytes(RecordsOf(ps)), VarintBytes(tag);
    var b := m + t + rest;
    assert b[0..|m|] == m && b[|m|..|m| + |t|] == t;
    PartsRead(b, 0, ps, s);
    TagRefused(b, |m|, tag, MergedAll(s, ps));
  }
}
