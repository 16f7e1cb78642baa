/** The Stat message: exact size, backward marshalling, forward parsing, and the round trip. */
module StatCodec {
  import opened Bytes
  import opened Stats
  import opened Wire

  // ---------------------------------------------------------------- format

  function U64(x: int64): nat { if x < 0 then x + TWO64 else x }

  function I64(v: nat): int64
    requires v < TWO64
  {
    if v >= TWO63 then v - TWO64 else v
  }

  function MapEntry(k: Str, v: Str): Str { [0x0a] + LengthPrefixed(k) + ([0x12] + LengthPrefixed(v)) }

  function MapField(k: Str, v: Str): Str { [0x52] + LengthPrefixed(MapEntry(k, v)) }

  /** The map entries in the order in which they stand on the wire. */
  function MapFields(m: map<Str, Str>, order: seq<Str>): Str
    requires forall k :: k in order ==> k in m
  {
    if order == [] then [] else MapField(order[0], m[order[0]]) + MapFields(m, order[1..])
  }

  /** Every key once. */
  ghost predicate IsOrder(m: map<Str, Str>, order: seq<Str>)
  {
    && (forall k :: k in order <==> k in m)
    && (forall i, j :: 0 <= i < j < |order| ==> order[i] != order[j])
  }

  /** The scalar fields, by descending field number as the marshaller writes them. */
  function Fields(s: Stat, n: nat): Str
    requires n <= 9
  {
    match n
    case 0 => BytesField(0x0a, s.path)
    case 1 => VarintField(0x10, s.mode)
    case 2 => VarintField(0x18, s.uid)
    case 3 => VarintField(0x20, s.gid)
    case 4 => VarintField(0x28, U64(s.size))
    case 5 => VarintField(0x30, U64(s.modTime))
    case 6 => BytesField(0x3a, s.linkname)
    case 7 => VarintField(0x40, U64(s.devmajor))
    case 8 => VarintField(0x48, U64(s.devminor))
    case 9 => []
  }

  /** Fields n, n + 1, ... and then the map. */
  function FieldsFrom(s: Stat, n: nat, entries: Str): Str
    requires n <= 9
    decreases 9 - n
  {
    if n == 9 then entries else Fields(s, n) + FieldsFrom(s, n + 1, entries)
  }

  function StatBytes(s: Stat, order: seq<Str>): Str
    requires forall k :: k in order ==> k in s.xattrs
  {
    FieldsFrom(s, 0, MapFields(s.xattrs, order))
  }

  // ---------------------------------------------------------------- the schema

  /** A map entry is a message of its own: the key is field 1, the value field 2. */
  function EntryRecord(k: Str, v: Str): Record { Piece(10, MessageBytes([Piece(1, k), Piece(2, v)])) }

  function EntryRecords(m: map<Str, Str>, order: seq<Str>): seq<Record>
    requires forall k :: k in order ==> k in m
  {
    if order == [] then [] else [EntryRecord(order[0], m[order[0]])] + EntryRecords(m, order[1..])
  }

  function FirstRecords(s: Stat): seq<Record>
  {
    PieceRecord(1, s.path) + (NumberRecord(2, s.mode) + (NumberRecord(3, s.uid)
    + (NumberRecord(4, s.gid) + NumberRecord(5, s.size))))
  }

  function LastRecords(s: Stat): seq<Record>
  {
    NumberRecord(6, s.modTime) + (PieceRecord(7, s.linkname)
    + (NumberRecord(8, s.devmajor) + NumberRecord(9, s.devminor)))
  }

  /** The message as its schema has it. */
  function StatRecords(s: Stat, order: seq<Str>): seq<Record>
    requires forall k :: k in order ==> k in s.xattrs
  {
    FirstRecords(s) + (LastRecords(s) + EntryRecords(s.xattrs, order))
  }

  lemma EntryIsMessage(k: Str, v: Str)
    ensures MapEntry(k, v) == MessageBytes([Piece(1, k), Piece(2, v)])
    ensures MapField(k, v) == RecordBytes(EntryRecord(k, v))
  {
    hide RecordBytes, LengthPrefixed, MessageBytes;
    PieceField(1, 0x0a, k);
    PieceField(2, 0x12, v);
    MessageConcat([Piece(1, k)], [Piece(2, v)]);
    assert [Piece(1, k)] + [Piece(2, v)] == [Piece(1, k), Piece(2, v)];
    PieceField(10, 0x52, MapEntry(k, v));
  }

  lemma {:induction false} EntriesAreMessage(m: map<Str, Str>, order: seq<Str>)
    requires forall k :: k in order ==> k in m
    ensures MapFields(m, order) == MessageBytes(EntryRecords(m, order))
  {
    hide RecordBytes, MapField, EntryRecord;
    if order != [] {
      EntryIsMessage(order[0], m[order[0]]);
      EntriesAreMessage(m, order[1..]);
      var first := [EntryRecord(order[0], m[order[0]])];
      assert (first + EntryRecords(m, order[1..]))[1..] == EntryRecords(m, order[1..]);
    }
  }

  lemma FirstAreMessage(s: Stat)
    ensures (MessageBytes(FirstRecords(s))
             == Fields(s, 0) + (Fields(s, 1) + (Fields(s, 2) + (Fields(s, 3) + Fields(s, 4)))))
  {
    hide MessageBytes, NumberRecord, PieceRecord, VarintField, BytesField;
    PieceField(1, 0x0a, s.path);
    NumberField(2, 0x10, s.mode, s.mode);
    NumberField(3, 0x18, s.uid, s.uid);
    NumberField(4, 0x20, s.gid, s.gid);
    NumberField(5, 0x28, s.size, U64(s.size));
    MessageConcat(NumberRecord(4, s.gid), NumberRecord(5, s.size));
    var three := NumberRecord(4, s.gid) + NumberRecord(5, s.size);
    MessageConcat(NumberRecord(3, s.uid), three);
    MessageConcat(NumberRecord(2, s.mode), NumberRecord(3, s.uid) + three);
    MessageConcat(PieceRecord(1, s.path), NumberRecord(2, s.mode) + (NumberRecord(3, s.uid) + three));
  }

  lemma LastAreMessage(s: Stat)
    ensures MessageBytes(LastRecords(s)) == Fields(s, 5) + (Fields(s, 6) + (Fields(s, 7) + Fields(s, 8)))
  {
    hide MessageBytes, NumberRecord, PieceRecord, VarintField, BytesField;
    NumberField(6, 0x30, s.modTime, U64(s.modTime));
    PieceField(7, 0x3a, s.linkname);
    NumberField(8, 0x40, s.devmajor, U64(s.devmajor));
    NumberField(9, 0x48, s.devminor, U64(s.devminor));
    MessageConcat(NumberRecord(8, s.devmajor), NumberRecord(9, s.devminor));
    var two := NumberRecord(8, s.devmajor) + NumberRecord(9, s.devminor);
    MessageConcat(PieceRecord(7, s.linkname), two);
    MessageConcat(NumberRecord(6, s.modTime), PieceRecord(7, s.linkname) + two);
  }

  lemma FieldsInTwo(s: Stat, entries: Str)
    ensures (FieldsFrom(s, 0, entries)
             == Fields(s, 0) + (Fields(s, 1) + (Fields(s, 2) + (Fields(s, 3) + Fields(s, 4))))
                + FieldsFrom(s, 5, entries))
    ensures (FieldsFrom(s, 5, entries)
             == Fields(s, 5) + (Fields(s, 6) + (Fields(s, 7) + Fields(s, 8))) + entries)
  {
    hide Fields;
    ConcatFive(Fields(s, 0), Fields(s, 1), Fields(s, 2), Fields(s, 3), Fields(s, 4), FieldsFrom(s, 5, entries));
    ConcatFive([], Fields(s, 5), Fields(s, 6), Fields(s, 7), Fields(s, 8), entries);
    FieldsUnrolled(s, entries);
  }

  lemma FieldsUnrolled(s: Stat, entries: Str)
    ensures (FieldsFrom(s, 0, entries)
             == Fields(s, 0) + (Fields(s, 1) + (Fields(s, 2)
                + (Fields(s, 3) + (Fields(s, 4) + FieldsFrom(s, 5, entries))))))
    ensures (FieldsFrom(s, 5, entries)
             == Fields(s, 5) + (Fields(s, 6) + (Fields(s, 7) + (Fields(s, 8) + FieldsFrom(s, 9, entries)))))
    ensures FieldsFrom(s, 9, entries) == entries
  {
    hide Fields;
  }

  lemma ConcatFive(a: Str, b: Str, c: Str, d: Str, e: Str, rest: Str)
    ensures a + (b + (c + (d + (e + rest)))) == (a + (b + (c + (d + e)))) + rest
    ensures a == [] ==> b + (c + (d + (e + rest))) == (b + (c + (d + e))) + rest
  { }

  /** An encoding is the message of its schema: each field under its number, a 32-bit or 64-bit number as its
      residue modulo 2^64, every map entry as a message of key and value. */
  lemma StatIsMessage(s: Stat, order: seq<Str>)
    requires forall k :: k in order ==> k in s.xattrs
    ensures StatBytes(s, order) == MessageBytes(StatRecords(s, order))
  {
    hide Fields, MessageBytes, FirstRecords, LastRecords, EntryRecords, MapFields, FieldsFrom;
    var entries := MapFields(s.xattrs, order);
    FieldsInTwo(s, entries);
    FirstAreMessage(s);
    LastAreMessage(s);
    EntriesAreMessage(s.xattrs, order);
    MessageConcat(LastRecords(s), EntryRecords(s.xattrs, order));
    MessageConcat(FirstRecords(s), LastRecords(s) + EntryRecords(s.xattrs, order));
  }

  // ---------------------------------------------------------------- size

  function SizeOfScalar(v: nat): nat { if v == 0 then 0 else 1 + SizeOfVarint(v) }

  function SizeOfBytes(s: Str): nat { if s == [] then 0 else 1 + |s| + SizeOfVarint(|s|) }

  function SizeOfEntry(k: Str, v: Str): nat
  {
    var entry := 1 + |k| + SizeOfVarint(|k|) + (1 + |v| + SizeOfVarint(|v|));
    entry + 1 + SizeOfVarint(entry)
  }

  function SizeOfScalars(s: Stat): nat
  {
    SizeOfBytes(s.path) + SizeOfScalar(s.mode) + SizeOfScalar(s.uid) + SizeOfScalar(s.gid)
    + SizeOfScalar(U64(s.size)) + SizeOfScalar(U64(s.modTime)) + SizeOfBytes(s.linkname)
    + SizeOfScalar(U64(s.devmajor)) + SizeOfScalar(U64(s.devminor))
  }

  lemma ScalarSize(tag: byte, v: nat)
    ensures |VarintField(tag, v)| == SizeOfScalar(v)
  {
    VarintSize(v);
  }

  lemma BytesSize(tag: byte, s: Str)
    ensures |BytesField(tag, s)| == SizeOfBytes(s)
  {
    VarintSize(|s|);
  }

  lemma EntrySize(k: Str, v: Str)
    ensures |MapField(k, v)| == SizeOfEntry(k, v)
  {
    VarintSize(|k|);
    VarintSize(|v|);
    VarintSize(|MapEntry(k, v)|);
  }

  lemma FieldsSize(s: Stat, entries: Str)
    ensures |FieldsFrom(s, 0, entries)| == SizeOfScalars(s) + |entries|
  {
    hide FieldsFrom, VarintField, BytesField, SizeOfScalar, SizeOfBytes;
    FieldLengths(s, 5, entries);
    FieldLengths(s, 0, entries);
    BytesSize(0x0a, s.path);
    ScalarSize(0x10, s.mode);
    ScalarSize(0x18, s.uid);
    ScalarSize(0x20, s.gid);
    ScalarSize(0x28, U64(s.size));
    ScalarSize(0x30, U64(s.modTime));
    BytesSize(0x3a, s.linkname);
    ScalarSize(0x40, U64(s.devmajor));
    ScalarSize(0x48, U64(s.devminor));
  }

  lemma FieldLengths(s: Stat, n: nat, entries: Str)
    requires n <= 5
    ensures n == 5 ==>
      (|FieldsFrom(s, 5, entries)|
       == |Fields(s, 5)| + |Fields(s, 6)| + |Fields(s, 7)| + |Fields(s, 8)| + |entries|)
    ensures n == 0 ==>
      (|FieldsFrom(s, 0, entries)|
       == |Fields(s, 0)| + |Fields(s, 1)| + |Fields(s, 2)| + |Fields(s, 3)| + |Fields(s, 4)|
          + |FieldsFrom(s, 5, entries)|)
  {
    hide Fields;
  }

  /** The loop over the map adds up, whatever order it visits the entries in. */
  lemma {:induction false} MapSize(m: map<Str, Str>, o1: seq<Str>, o2: seq<Str>)
    requires IsOrder(m, o1) && IsOrder(m, o2)
    ensures |MapFields(m, o1)| == |MapFields(m, o2)|
    decreases |o1|
  {
    if o1 == [] {
      assert m.Keys == {};
      assert forall k :: k !in o2;
    } else {
      var k := o1[0];
      assert k in o2;
      var i :| 0 <= i < |o2| && o2[i] == k;
      var m' := m - {k};
      var rest := o2[..i] + o2[i + 1..];
      TailIsOrder(m, o1);
      DropIsOrder(m, o2, i);
      MapSize(m', o1[1..], rest);
      SameFields(m, m', o1[1..]);
      SameFields(m, m', rest);
      DropFields(m, o2, i);
    }
  }

  lemma TailIsOrder(m: map<Str, Str>, o: seq<Str>)
    requires IsOrder(m, o) && o != []
    ensures IsOrder(m - {o[0]}, o[1..])
  {
    forall k | k in o[1..] ensures k in m - {o[0]} {
      var i :| 0 <= i < |o| - 1 && o[1..][i] == k;
      assert o[i + 1] == k && o[0] != o[i + 1];
    }
    forall k | k in m - {o[0]} ensures k in o[1..] {
      var i :| 0 <= i < |o| && o[i] == k;
      assert o[1..][i - 1] == k;
    }
  }

  lemma DropIsOrder(m: map<Str, Str>, o: seq<Str>, i: nat)
    requires IsOrder(m, o) && i < |o|
    ensures IsOrder(m - {o[i]}, o[..i] + o[i + 1..])
  {
    var rest := o[..i] + o[i + 1..];
    forall k | k in rest ensures k in m - {o[i]} {
      var j :| 0 <= j < |rest| && rest[j] == k;
      assert o[if j < i then j else j + 1] == k;
    }
    forall k | k in m - {o[i]} ensures k in rest {
      var j :| 0 <= j < |o| && o[j] == k;
      assert rest[if j < i then j else j - 1] == k;
    }
  }

  lemma {:induction false} SameFields(m: map<Str, Str>, m': map<Str, Str>, o: seq<Str>)
    requires forall k :: k in o ==> k in m && k in m' && m[k] == m'[k]
    ensures MapFields(m, o) == MapFields(m', o)
  {
    if o != [] { SameFields(m, m', o[1..]); }
  }

  lemma {:induction false} DropFields(m: map<Str, Str>, o: seq<Str>, i: nat)
    requires i < |o| && forall k :: k in o ==> k in m
    ensures |MapFields(m, o)| == |MapField(o[i], m[o[i]])| + |MapFields(m, o[..i] + o[i + 1..])|
  {
    var rest := o[..i] + o[i + 1..];
    if i == 0 {
      assert rest == o[1..];
    } else {
      DropFields(m, o[1..], i - 1);
      assert rest[0] == o[0] && rest[1..] == o[1..][..i - 1] + o[1..][i..];
    }
  }

  /** The map loop of SizeVT and of the marshaller visits the keys in an arbitrary order. */
  method SizeOfMap(m: map<Str, Str>) returns (n: nat)
    ensures forall order :: IsOrder(m, order) ==> n == |MapFields(m, order)|
  {
    n := 0;
    var rest := m.Keys;
    ghost var visited: seq<Str> := [];
    while rest != {}
      invariant rest <= m.Keys
      invariant forall k :: k in visited <==> k in m && k !in rest
      invariant forall i, j :: 0 <= i < j < |visited| ==> visited[i] != visited[j]
      invariant n == |MapFields(m, visited)|
      decreases rest
    {
      var k :| k in rest;
      EntrySize(k, m[k]);
      AppendFields(m, visited, k);
      n := n + SizeOfEntry(k, m[k]);
      visited := visited + [k];
      rest := rest - {k};
    }
    forall order | IsOrder(m, order) ensures n == |MapFields(m, order)| {
      MapSize(m, visited, order);
    }
  }

  lemma ConcatAssociative(a: Str, b: Str, c: Str)
    ensures a + (b + c) == (a + b) + c
  { }

  lemma {:induction false} AppendFields(m: map<Str, Str>, o: seq<Str>, k: Str)
    requires k in m && forall q :: q in o ==> q in m
    ensures MapFields(m, o + [k]) == MapFields(m, o) + MapField(k, m[k])
  {
    if o == [] {
      assert [k][1..] == [];
    } else {
      AppendFields(m, o[1..], k);
      assert (o + [k])[1..] == o[1..] + [k];
      ConcatAssociative(MapField(o[0], m[o[0]]), MapFields(m, o[1..]), MapField(k, m[k]));
    }
  }

  /** SizeVT: the number of bytes of the encoding under every iteration order of the map. */
  method SizeVT(s: Stat) returns (n: nat)
    ensures forall order :: IsOrder(s.xattrs, order) ==> n == |StatBytes(s, order)|
  {
    var entries := SizeOfMap(s.xattrs);
    n := SizeOfScalars(s) + entries;
    forall order | IsOrder(s.xattrs, order) ensures n == |StatBytes(s, order)| {
      FieldsSize(s, MapFields(s.xattrs, order));
    }
  }

  // ---------------------------------------------------------------- marshalling

  /** Writes the map entries backwards so that they end at hi. */
  method MarshalMap(dAtA: array<byte>, lo: nat, hi: nat, m: map<Str, Str>) returns (i: nat, ghost order: seq<Str>)
    requires lo <= hi <= dAtA.Length
    requires forall o :: IsOrder(m, o) ==> |MapFields(m, o)| <= hi - lo
    modifies dAtA
    ensures IsOrder(m, order)
    ensures lo <= i == hi - |MapFields(m, order)|
    ensures dAtA[..] == Window(old(dAtA[..]), i, hi, MapFields(m, order))
  {
    ghost var pre := dAtA[..];
    i := hi;
    order := [];
    var rest := m.Keys;
    assert dAtA[..] == Window(pre, hi, hi, []);
    while rest != {}
      invariant rest <= m.Keys && i <= hi
      invariant forall k :: k in order <==> k in m && k !in rest
      invariant forall i, j :: 0 <= i < j < |order| ==> order[i] != order[j]
      invariant i == hi - |MapFields(m, order)| && dAtA[..] == Window(pre, i, hi, MapFields(m, order))
      decreases rest
    {
      var k :| k in rest;
      RoomForEntry(m, order, k, hi - lo);
      i := MarshalEntry(dAtA, i, hi, k, m[k], pre, MapFields(m, order));
      assert ([k] + order)[1..] == order;
      order := [k] + order;
      rest := rest - {k};
    }
    assert IsOrder(m, order);
  }

  /** One entry: value, key, then the entry's own tag and length, measured by how far i moved. */
  method MarshalEntry(dAtA: array<byte>, baseI: nat, hi: nat, k: Str, v: Str, ghost pre: Str, ghost tail: Str)
    returns (i: nat)
    requires |MapField(k, v)| <= baseI && baseI + |tail| == hi <= |pre| && dAtA[..] == Window(pre, baseI, hi, tail)
    modifies dAtA
    ensures i == baseI - |MapField(k, v)| && dAtA[..] == Window(pre, i, hi, MapField(k, v) + tail)
  {
    ghost var value := [0x12] + LengthPrefixed(v);
    i := PutLengthPrefixed(dAtA, baseI, hi, 0x12, v, pre, tail);
    i := PutLengthPrefixed(dAtA, i, hi, 0x0a, k, pre, value + tail);
    assert [0x0a] + LengthPrefixed(k) + (value + tail) == MapEntry(k, v) + tail;
    i := PutHeader(dAtA, i, hi, 0x52, baseI - i, pre, MapEntry(k, v) + tail);
    assert [0x52] + VarintBytes(|MapEntry(k, v)|) + (MapEntry(k, v) + tail) == MapField(k, v) + tail;
  }

  lemma RoomForEntry(m: map<Str, Str>, order: seq<Str>, k: Str, room: nat)
    requires k in m && k !in order && forall q :: q in order ==> q in m
    requires forall i, j :: 0 <= i < j < |order| ==> order[i] != order[j]
    requires forall o :: IsOrder(m, o) ==> |MapFields(m, o)| <= room
    ensures |MapField(k, m[k])| + |MapFields(m, order)| <= room
  {
    var o := Complete(m, [k] + order);
    assert ([k] + order)[1..] == order;
  }

  /** Any list of distinct keys can be continued to a full order, which is at least as long. */
  lemma {:induction false} Complete(m: map<Str, Str>, o: seq<Str>) returns (full: seq<Str>)
    requires forall q :: q in o ==> q in m
    requires forall i, j :: 0 <= i < j < |o| ==> o[i] != o[j]
    ensures IsOrder(m, full) && |MapFields(m, o)| <= |MapFields(m, full)|
    decreases m.Keys - (set q | q in o)
  {
    if k :| k in m && k !in o {
      AppendFields(m, o, k);
      assert k in m.Keys - (set q | q in o);
      assert k !in m.Keys - (set q | q in o + [k]);
      full := Complete(m, o + [k]);
    } else {
      full := o;
    }
  }

  /** MarshalToSizedBufferVT on the window of dAtA that ends at hi: fills exactly the last n
      bytes with an encoding of s and touches nothing else. */
  method MarshalToSizedBuffer(dAtA: array<byte>, lo: nat, hi: nat, s: Stat) returns (n: nat, ghost order: seq<Str>)
    requires lo <= hi <= dAtA.Length
    requires forall o :: IsOrder(s.xattrs, o) ==> |StatBytes(s, o)| <= hi - lo
    modifies dAtA
    ensures IsOrder(s.xattrs, order) && n == |StatBytes(s, order)| <= hi - lo
    ensures dAtA[..] == Window(old(dAtA[..]), hi - n, hi, StatBytes(s, order))
  {
    RoomForMap(s, hi - lo);
    var i;
    i, order := MarshalMap(dAtA, lo, hi, s.xattrs);
    FieldsSize(s, MapFields(s.xattrs, order));
    i := MarshalLowFields(dAtA, i, hi, s, old(dAtA[..]), MapFields(s.xattrs, order));
    i := MarshalHighFields(dAtA, i, hi, s, old(dAtA[..]), MapFields(s.xattrs, order));
    n := hi - i;
  }

  lemma RoomForMap(s: Stat, room: nat)
    requires forall o :: IsOrder(s.xattrs, o) ==> |StatBytes(s, o)| <= room
    ensures forall o :: IsOrder(s.xattrs, o) ==> |MapFields(s.xattrs, o)| <= room
  {
    forall o | IsOrder(s.xattrs, o) ensures |MapFields(s.xattrs, o)| <= room {
      FieldsSize(s, MapFields(s.xattrs, o));
      assert |StatBytes(s, o)| <= room;
    }
  }

  method MarshalLowFields(dAtA: array<byte>, hi0: nat, hi: nat, s: Stat, ghost pre: Str, ghost entries: Str)
    returns (i: nat)
    requires |FieldsFrom(s, 5, entries)| - |entries| <= hi0 && hi0 + |entries| == hi <= |pre|
    requires dAtA[..] == Window(pre, hi0, hi, entries)
    modifies dAtA
    ensures i == hi - |FieldsFrom(s, 5, entries)| && dAtA[..] == Window(pre, i, hi, FieldsFrom(s, 5, entries))
  {
    FieldLengths(s, 5, entries);
    i := PutVarintField(dAtA, hi0, hi, 0x48, U64(s.devminor), pre, entries);
    i := PutVarintField(dAtA, i, hi, 0x40, U64(s.devmajor), pre, FieldsFrom(s, 8, entries));
    i := PutBytesField(dAtA, i, hi, 0x3a, s.linkname, pre, FieldsFrom(s, 7, entries));
    i := PutVarintField(dAtA, i, hi, 0x30, U64(s.modTime), pre, FieldsFrom(s, 6, entries));
  }

  method MarshalHighFields(dAtA: array<byte>, hi0: nat, hi: nat, s: Stat, ghost pre: Str, ghost entries: Str)
    returns (i: nat)
    requires |FieldsFrom(s, 0, entries)| - |FieldsFrom(s, 5, entries)| <= hi0
    requires hi0 + |FieldsFrom(s, 5, entries)| == hi <= |pre|
    requires dAtA[..] == Window(pre, hi0, hi, FieldsFrom(s, 5, entries))
    modifies dAtA
    ensures i == hi - |FieldsFrom(s, 0, entries)| && dAtA[..] == Window(pre, i, hi, FieldsFrom(s, 0, entries))
  {
    FieldLengths(s, 0, entries);
    i := PutVarintField(dAtA, hi0, hi, 0x28, U64(s.size), pre, FieldsFrom(s, 5, entries));
    i := PutVarintField(dAtA, i, hi, 0x20, s.gid, pre, FieldsFrom(s, 4, entries));
    i := PutVarintField(dAtA, i, hi, 0x18, s.uid, pre, FieldsFrom(s, 3, entries));
    i := PutVarintField(dAtA, i, hi, 0x10, s.mode, pre, FieldsFrom(s, 2, entries));
    i := PutBytesField(dAtA, i, hi, 0x0a, s.path, pre, FieldsFrom(s, 1, entries));
  }

  /** MarshalVT: a buffer of the exact size, filled completely. */
  method MarshalVT(s: Stat) returns (bytes: Str)
    ensures exists order ::
              IsOrder(s.xattrs, order) && bytes == StatBytes(s, order) == MessageBytes(StatRecords(s, order))
  {
    var size := SizeVT(s);
    var dAtA := new byte[size](_ => 0);
    var n, order := MarshalToSizedBuffer(dAtA, 0, size, s);
    bytes := dAtA[size - n..size];
    assert n == size;
    assert dAtA[..] == StatBytes(s, order);
    StatIsMessage(s, order);
  }

  // ---------------------------------------------------------------- parsing

  /** Truncation of a tag to the field number: int32(wire >> 3). */
  function FieldNum(wire: nat): int
  {
    var f := wire / 8 % TWO32;
    if f >= TWO31 then f - TWO32 else f
  }

  /** The key (field 1) or the value (field 2) of a map entry; the wire type is not looked at, and
      the bytes are only checked against the whole buffer. */
  function ReadPiece(b: Str, i: nat): (r: Result<(int, Str, nat)>)
    ensures r.Ok? ==> i < r.value.2 <= |b|
  {
    var wire := ReadVarint(b, i, W64);
    if wire.Err? then Err(wire.error)
    else if FieldNum(wire.value.0) != 1 && FieldNum(wire.value.0) != 2 then Err(Unsupported)
    else
      var piece := ReadBytes(b, wire.value.1);
      if piece.Err? then Err(piece.error) else Ok((FieldNum(wire.value.0), piece.value.0, piece.value.1))
  }

  /** One map entry, read until the position reaches post. */
  function ReadEntry(b: Str, i: nat, post: nat, key: Str, value: Str): (r: Result<(Str, Str)>)
    requires post <= |b|
    decreases |b| - i
  {
    if i >= post then Ok((key, value))
    else
      var p := ReadPiece(b, i);
      if p.Err? then Err(p.error)
      else
        ReadEntry(b, p.value.2, post, if p.value.0 == 1 then p.value.1 else key,
                  if p.value.0 == 2 then p.value.1 else value)
  }

  /** The map field: its length, then one entry; parsing resumes behind the declared length. */
  function ReadMapField(b: Str, i: nat, m: map<Str, Str>): (r: Result<(map<Str, Str>, nat)>)
    ensures r.Ok? ==> i < r.value.1 <= |b|
  {
    var record := ReadBytes(b, i);
    if record.Err? then Err(record.error)
    else
      var post := record.value.1;
      var entry := ReadEntry(b, post - |record.value.0|, post, [], []);
      if entry.Err? then Err(entry.error) else Ok((m[entry.value.0 := entry.value.1], post))
  }

  predicate IsRecord(f: int) { f == 1 || f == 7 }

  predicate IsScalar(f: int) { 2 <= f <= 6 || 8 <= f <= 9 }

  /** Width of the variable a scalar field is decoded into. */
  function WidthOf(f: int): Width { if 2 <= f <= 4 then W32 else W64 }

  function SetRecord(s: Stat, f: int, v: Str): Stat { if f == 1 then s.(path := v) else s.(linkname := v) }

  function SetScalar(s: Stat, f: int, v: nat): Stat
    requires IsScalar(f) && v < Range(WidthOf(f))
  {
    if f == 2 then s.(mode := v)
    else if f == 3 then s.(uid := v)
    else if f == 4 then s.(gid := v)
    else if f == 5 then s.(size := I64(v))
    else if f == 6 then s.(modTime := I64(v))
    else if f == 8 then s.(devmajor := I64(v))
    else s.(devminor := I64(v))
  }

  /** One field of number f into the message so far. */
  function ReadField(b: Str, i: nat, f: int, wireType: nat, s: Stat): (r: Result<(Stat, nat)>)
    ensures r.Ok? ==> i < r.value.1 <= |b|
  {
    if IsRecord(f) then
      var v := ReadBytes(b, i);
      if wireType != 2 then Err(WrongWireType)
      else if v.Err? then Err(v.error)
      else Ok((SetRecord(s, f, v.value.0), v.value.1))
    else if IsScalar(f) then
      var v := ReadVarint(b, i, WidthOf(f));
      if wireType != 0 then Err(WrongWireType)
      else if v.Err? then Err(v.error)
      else Ok((SetScalar(s, f, v.value.0), v.value.1))
    else if f == 10 then
      var m := ReadMapField(b, i, s.xattrs);
      if wireType != 2 then Err(WrongWireType)
      else if m.Err? then Err(m.error)
      else Ok((s.(xattrs := m.value.0), m.value.1))
    else Err(Unsupported)
  }

  /** A tag and the field behind it. */
  function ReadNext(b: Str, i: nat, s: Stat): (r: Result<(Stat, nat)>)
    ensures r.Ok? ==> i < r.value.1 <= |b|
  {
    var wire := ReadVarint(b, i, W64);
    if wire.Err? then Err(wire.error)
    else if wire.value.0 % 8 == 4 then Err(EndGroup)
    else if FieldNum(wire.value.0) <= 0 then Err(IllegalTag)
    else ReadField(b, wire.value.1, FieldNum(wire.value.0), wire.value.0 % 8, s)
  }

  /** The rest of the message from position i, merged into s. */
  function ReadStat(b: Str, i: nat, s: Stat): Result<Stat>
    requires i <= |b|
    decreases |b| - i
  {
    if i == |b| then Ok(s)
    else
      var next := ReadNext(b, i, s);
      if next.Err? then Err(next.error) else ReadStat(b, next.value.1, next.value.0)
  }

  method UnmarshalEntry(b: Str, start: nat, postIndex: nat) returns (r: Result<(Str, Str)>)
    requires start <= postIndex <= |b|
    ensures r == ReadEntry(b, start, postIndex, [], [])
  {
    var iNdEx := start;
    var mapkey: Str, mapvalue: Str := [], [];
    while iNdEx < postIndex
      invariant ReadEntry(b, iNdEx, postIndex, mapkey, mapvalue) == ReadEntry(b, start, postIndex, [], [])
      decreases |b| - iNdEx
    {
      var wire := DecodeVarint(b, iNdEx, W64);
      if wire.Err? {
        return Err(wire.error);
      }
      var f, i := FieldNum(wire.value.0), wire.value.1;
      if f != 1 && f != 2 {
        return Err(Unsupported);
      }
      var piece := DecodeBytes(b, i);
      if piece.Err? {
        return Err(piece.error);
      }
      if f == 1 {
        mapkey := piece.value.0;
      } else {
        mapvalue := piece.value.0;
      }
      iNdEx := piece.value.1;
    }
    return Ok((mapkey, mapvalue));
  }

  /** One case of the field switch. */
  method UnmarshalField(b: Str, iNdEx: nat, f: int, wireType: nat, s: Stat) returns (r: Result<(Stat, nat)>)
    ensures r == ReadField(b, iNdEx, f, wireType, s)
  {
    if f == 1 || f == 7 {
      if wireType != 2 {
        return Err(WrongWireType);
      }
      var v := DecodeBytes(b, iNdEx);
      if v.Err? {
        return Err(v.error);
      }
      return Ok((SetRecord(s, f, v.value.0), v.value.1));
    } else if 2 <= f <= 6 || 8 <= f <= 9 {
      if wireType != 0 {
        return Err(WrongWireType);
      }
      var v := DecodeVarint(b, iNdEx, WidthOf(f));
      if v.Err? {
        return Err(v.error);
      }
      return Ok((SetScalar(s, f, v.value.0), v.value.1));
    } else if f == 10 {
      if wireType != 2 {
        return Err(WrongWireType);
      }
      var entry := DecodeBytes(b, iNdEx);
      if entry.Err? {
        return Err(entry.error);
      }
      var postIndex := entry.value.1;
      var kv := UnmarshalEntry(b, postIndex - |entry.value.0|, postIndex);
      if kv.Err? {
        return Err(kv.error);
      }
      return Ok((s.(xattrs := s.xattrs[kv.value.0 := kv.value.1]), postIndex));
    }
    return Err(Unsupported);
  }

  /** UnmarshalVT: the parsing loop, merging into the message start. */
  method UnmarshalVT(b: Str, start: Stat) returns (r: Result<Stat>)
    ensures r == ReadStat(b, 0, start)
  {
    var iNdEx, s := 0, start;
    while iNdEx < |b|
      invariant iNdEx <= |b| && ReadStat(b, iNdEx, s) == ReadStat(b, 0, start)
      decreases |b| - iNdEx
    {
      var wire := DecodeVarint(b, iNdEx, W64);
      if wire.Err? {
        return Err(wire.error);
      }
      var fieldNum, wireType := FieldNum(wire.value.0), wire.value.0 % 8;
      if wireType == 4 {
        return Err(EndGroup);
      }
      if fieldNum <= 0 {
        return Err(IllegalTag);
      }
      var next := UnmarshalField(b, wire.value.1, fieldNum, wireType, s);
      if next.Err? {
        return Err(next.error);
      }
      s, iNdEx := next.value.0, next.value.1;
    }
    return Ok(s);
  }

  // ---------------------------------------------------------------- round trip

  /** A one-byte tag is read as its field number and wire type. */
  lemma TagAt(b: Str, i: nat, tag: byte, rest: Str)
    requires 8 <= tag < 128 && At(b, i, [tag] + rest)
    ensures ReadVarint(b, i, W64) == Ok((tag as nat, i + 1)) && FieldNum(tag) == tag / 8 && At(b, i + 1, rest)
  {
    AtConcat(b, i, [tag], rest);
    assert VarintBytes(tag) == [tag];
    ReadVarintAt(b, i, tag, W64);
  }

  /** A field that reads as s' moves the parser on. */
  lemma FieldStep(b: Str, i: nat, tag: byte, rest: Str, s: Stat, s': Stat, next: nat)
    requires 8 <= tag < 128 && tag % 8 != 4 && At(b, i, [tag] + rest) && next <= |b|
    requires var r := ReadField(b, i + 1, tag / 8, tag % 8, s); r.Ok? && r.value.0 == s' && r.value.1 == next
    ensures ReadStat(b, i, s) == ReadStat(b, next, s')
  {
    TagAt(b, i, tag, rest);
  }

  lemma SignedRoundTrip(x: int64)
    ensures U64(x) < TWO64 && I64(U64(x)) == x
    ensures U64(x) == 0 <==> x == 0
  { }

  /** The message with its first n scalar fields taken from s. */
  function Partial(s: Stat, n: nat): Stat
  {
    Stat(if n > 0 then s.path else [], if n > 1 then s.mode else 0, if n > 2 then s.uid else 0,
         if n > 3 then s.gid else 0, if n > 4 then s.size else 0, if n > 5 then s.modTime else 0,
         if n > 6 then s.linkname else [], if n > 7 then s.devmajor else 0, if n > 8 then s.devminor else 0, map[])
  }

  function ScalarOf(s: Stat, f: int): (v: nat)
    ensures v < TWO64
  {
    if f == 2 then s.mode
    else if f == 3 then s.uid
    else if f == 4 then s.gid
    else if f == 5 then U64(s.size)
    else if f == 6 then U64(s.modTime)
    else if f == 8 then U64(s.devmajor)
    else U64(s.devminor)
  }

  lemma SetPartial(s: Stat, n: nat)
    requires 0 < n < 9 && n != 6
    ensures ScalarOf(s, n + 1) < Range(WidthOf(n + 1))
    ensures SetScalar(Partial(s, n), n + 1, ScalarOf(s, n + 1)) == Partial(s, n + 1)
    ensures ScalarOf(s, n + 1) == 0 ==> Partial(s, n) == Partial(s, n + 1)
  {
    SignedRoundTrip(s.size);
    SignedRoundTrip(s.modTime);
    SignedRoundTrip(s.devmajor);
    SignedRoundTrip(s.devminor);
  }

  lemma ReadScalarField(b: Str, i: nat, f: nat, v: nat, s: Stat)
    requires IsScalar(f) && v < Range(WidthOf(f)) && At(b, i, VarintBytes(v))
    ensures var r := ReadField(b, i, f, 0, s);
            r.Ok? && r.value.0 == SetScalar(s, f, v) && r.value.1 == i + |VarintBytes(v)|
  {
    hide ReadVarint, VarintBytes, SetScalar, At, ReadVarintFrom;
    ReadVarintAt(b, i, v, WidthOf(f));
  }

  lemma ReadRecordField(b: Str, i: nat, f: nat, v: Str, s: Stat)
    requires IsRecord(f) && At(b, i, LengthPrefixed(v)) && |b| < TWO63
    ensures var r := ReadField(b, i, f, 2, s);
            r.Ok? && r.value.0 == SetRecord(s, f, v) && r.value.1 == i + |LengthPrefixed(v)|
  {
    ReadBytesAt(b, i, v);
  }

  /** Reading an encoded scalar field sets it. */
  lemma ScalarStep(b: Str, i: nat, f: nat, v: nat, s: Stat, rest: Str)
    requires IsScalar(f) && v < Range(WidthOf(f)) && rest == VarintBytes(v) && At(b, i, [8 * f] + rest)
    ensures i + 1 + |rest| <= |b| && ReadStat(b, i, s) == ReadStat(b, i + 1 + |rest|, SetScalar(s, f, v))
  {
    hide ReadStat, ReadField, ReadVarint;
    AtConcat(b, i, [8 * f], rest);
    ReadScalarField(b, i + 1, f, v, s);
    FieldStep(b, i, 8 * f, rest, s, SetScalar(s, f, v), i + 1 + |rest|);
  }

  /** Reading an encoded string field sets it. */
  lemma RecordStep(b: Str, i: nat, f: nat, v: Str, s: Stat, rest: Str)
    requires IsRecord(f) && rest == LengthPrefixed(v) && At(b, i, [8 * f + 2] + rest) && |b| < TWO63
    ensures i + 1 + |rest| <= |b| && ReadStat(b, i, s) == ReadStat(b, i + 1 + |rest|, SetRecord(s, f, v))
  {
    hide ReadStat, ReadField, ReadVarint, ReadBytes;
    AtConcat(b, i, [8 * f + 2], rest);
    ReadRecordField(b, i + 1, f, v, s);
    FieldStep(b, i, 8 * f + 2, rest, s, SetRecord(s, f, v), i + 1 + |rest|);
  }

  lemma FieldsShape(s: Stat, n: nat)
    requires n < 9
    ensures n == 0 ==> Fields(s, n) == BytesField(0x0a, s.path)
    ensures n == 6 ==> Fields(s, n) == BytesField(0x3a, s.linkname)
    ensures n != 0 && n != 6 ==> Fields(s, n) == VarintField(8 * (n + 1), ScalarOf(s, n + 1))
  { }

  lemma ScalarRead(b: Str, i: nat, s: Stat, n: nat, bytes: Str)
    requires 0 < n < 9 && n != 6 && bytes == VarintField(8 * (n + 1), ScalarOf(s, n + 1)) && At(b, i, bytes)
    ensures ReadStat(b, i, Partial(s, n)) == ReadStat(b, i + |bytes|, Partial(s, n + 1))
  {
    hide ReadStat;
    SetPartial(s, n);
    var v := ScalarOf(s, n + 1);
    if v != 0 { ScalarStep(b, i, n + 1, v, Partial(s, n), VarintBytes(v)); }
  }

  lemma RecordRead(b: Str, i: nat, s: Stat, n: nat, bytes: Str, v: Str)
    requires (n == 0 && v == s.path) || (n == 6 && v == s.linkname)
    requires bytes == BytesField(8 * (n + 1) + 2, v) && At(b, i, bytes) && |b| < TWO63
    ensures ReadStat(b, i, Partial(s, n)) == ReadStat(b, i + |bytes|, Partial(s, n + 1))
  {
    hide ReadStat;
    if v != [] { RecordStep(b, i, n + 1, v, Partial(s, n), LengthPrefixed(v)); }
  }

  /** Reading field n of an encoding adds it to the message. */
  lemma FieldRead(b: Str, i: nat, s: Stat, n: nat, bytes: Str)
    requires n < 9 && bytes == Fields(s, n) && At(b, i, bytes) && |b| < TWO63
    ensures ReadStat(b, i, Partial(s, n)) == ReadStat(b, i + |bytes|, Partial(s, n + 1))
  {
    FieldsShape(s, n);
    if n == 0 || n == 6 {
      RecordRead(b, i, s, n, bytes, if n == 0 then s.path else s.linkname);
    } else {
      ScalarRead(b, i, s, n, bytes);
    }
  }

  lemma {:induction false} FieldsRead(b: Str, i: nat, s: Stat, n: nat, entries: Str, all: Str) returns (j: nat)
    requires n <= 9 && all == FieldsFrom(s, n, entries) && At(b, i, all) && |b| < TWO63
    ensures j + |entries| == i + |all| && At(b, j, entries)
    ensures ReadStat(b, i, Partial(s, n)) == ReadStat(b, j, Partial(s, 9))
    decreases 9 - n
  {
    hide ReadStat, Fields;
    if n == 9 {
      j := i;
    } else {
      var first, rest := Fields(s, n), FieldsFrom(s, n + 1, entries);
      AtConcat(b, i, first, rest);
      FieldRead(b, i, s, n, first);
      j := FieldsRead(b, i + |first|, s, n + 1, entries, rest);
    }
  }

  /** One piece of a map entry: its tag, its length, its bytes. */
  lemma EntryStep(b: Str, i: nat, post: nat, f: nat, v: Str, key: Str, value: Str, rest: Str)
    requires (f == 1 || f == 2) && rest == LengthPrefixed(v) && At(b, i, [8 * f + 2] + rest)
    requires i < post <= |b| < TWO63
    ensures ReadEntry(b, i, post, key, value) ==
      ReadEntry(b, i + 1 + |rest|, post, if f == 1 then v else key, if f == 2 then v else value)
  {
    hide ReadPiece;
    PieceAt(b, i, f, v, rest);
  }

  lemma PieceAt(b: Str, i: nat, f: nat, v: Str, rest: Str)
    requires (f == 1 || f == 2) && rest == LengthPrefixed(v) && At(b, i, [8 * f + 2] + rest) && |b| < TWO63
    ensures var r := ReadPiece(b, i); r.Ok? && r.value.0 == f && r.value.1 == v && r.value.2 == i + 1 + |rest|
  {
    TagAt(b, i, 8 * f + 2, rest);
    ReadBytesAt(b, i + 1, v);
  }

  lemma EntryEnd(b: Str, i: nat, post: nat, key: Str, value: Str)
    requires i == post <= |b|
    ensures var r := ReadEntry(b, i, post, key, value); r.Ok? && r.value.0 == key && r.value.1 == value
  { }

  lemma EntryRead(b: Str, i: nat, post: nat, k: Str, v: Str, key: Str, value: Str, first: Str, second: Str)
    requires first == LengthPrefixed(k) && second == LengthPrefixed(v) && post == i + 1 + |first| + 1 + |second|
    requires At(b, i, [0x0a] + first) && At(b, i + 1 + |first|, [0x12] + second) && |b| < TWO63
    ensures post <= |b|
    ensures var r := ReadEntry(b, i, post, key, value); r.Ok? && r.value.0 == k && r.value.1 == v
  {
    hide ReadEntry, ReadPiece, ReadBytes, ReadVarint;
    EntryStep(b, i, post, 1, k, key, value, first);
    EntryStep(b, i + 1 + |first|, post, 2, v, k, value, second);
    EntryEnd(b, post, post, k, v);
  }

  lemma ReadMapFieldAt(b: Str, i: nat, k: Str, v: Str, m: map<Str, Str>, entry: Str)
    requires entry == MapEntry(k, v) && At(b, i, LengthPrefixed(entry)) && |b| < TWO63
    ensures var r := ReadMapField(b, i, m);
            r.Ok? && r.value.0 == m[k := v] && r.value.1 == i + |LengthPrefixed(entry)|
  {
    hide ReadMapField, ReadEntry, ReadPiece, ReadBytes, ReadVarint;
    ReadBytesAt(b, i, entry);
    AtConcat(b, i, VarintBytes(|entry|), entry);
    var start := i + |VarintBytes(|entry|)|;
    EntryPieces(b, start, k, v, entry);
    EntryRead(b, start, start + |entry|, k, v, [], [], LengthPrefixed(k), LengthPrefixed(v));
    MapFieldFrom(b, i, m, start + |entry|, |entry|, k, v);
  }

  lemma EntryPieces(b: Str, i: nat, k: Str, v: Str, entry: Str)
    requires entry == MapEntry(k, v) && At(b, i, entry)
    ensures var first, second := LengthPrefixed(k), LengthPrefixed(v);
      && |entry| == 1 + |first| + 1 + |second|
      && At(b, i, [0x0a] + first) && At(b, i + 1 + |first|, [0x12] + second)
  {
    AtConcat(b, i, [0x0a] + LengthPrefixed(k), [0x12] + LengthPrefixed(v));
  }

  lemma MapFieldFrom(b: Str, i: nat, m: map<Str, Str>, post: nat, n: nat, k: Str, v: Str)
    requires var r := ReadBytes(b, i); r.Ok? && |r.value.0| == n && r.value.1 == post
    requires n <= post <= |b|
    requires var e := ReadEntry(b, post - n, post, [], []); e.Ok? && e.value.0 == k && e.value.1 == v
    ensures var r := ReadMapField(b, i, m); r.Ok? && r.value.0 == m[k := v] && r.value.1 == post
  {
    hide ReadEntry, ReadBytes;
  }

  lemma ReadMapWhole(b: Str, i: nat, s: Stat, m: map<Str, Str>, next: nat)
    requires var r := ReadMapField(b, i, s.xattrs); r.Ok? && r.value.0 == m && r.value.1 == next
    ensures var r := ReadField(b, i, 10, 2, s); r.Ok? && r.value.0 == s.(xattrs := m) && r.value.1 == next
  { }

  lemma MapFieldRead(b: Str, i: nat, k: Str, v: Str, s: Stat, record: Str)
    requires record == LengthPrefixed(MapEntry(k, v)) && At(b, i, [0x52] + record) && |b| < TWO63
    ensures i + 1 + |record| <= |b|
    ensures ReadStat(b, i, s) == ReadStat(b, i + 1 + |record|, s.(xattrs := s.xattrs[k := v]))
  {
    hide *;
    AtConcat(b, i, [0x52], record);
    ReadMapFieldAt(b, i + 1, k, v, s.xattrs, MapEntry(k, v));
    ReadMapWhole(b, i + 1, s, s.xattrs[k := v], i + 1 + |record|);
    FieldStep(b, i, 0x52, record, s, s.(xattrs := s.xattrs[k := v]), i + 1 + |record|);
  }

  /** The part of m that order names. */
  function Named(m: map<Str, Str>, order: seq<Str>): map<Str, Str> { map k | k in m && k in order :: m[k] }

  lemma NamedFirst(x: map<Str, Str>, m: map<Str, Str>, order: seq<Str>)
    requires order != [] && order[0] in m
    ensures x[order[0] := m[order[0]]] + Named(m, order[1..]) == x + Named(m, order)
  {
    assert forall k :: k in order <==> k == order[0] || k in order[1..];
  }

  lemma ReadNothing(b: Str, i: nat, s: Stat)
    requires i == |b|
    ensures ReadStat(b, i, s) == Ok(s)
  { }

  lemma {:induction false} MapRead(b: Str, i: nat, m: map<Str, Str>, order: seq<Str>, s: Stat, all: Str)
    requires forall k :: k in order ==> k in m
    requires all == MapFields(m, order) && At(b, i, all) && i + |all| == |b| < TWO63
    ensures ReadStat(b, i, s) == Ok(s.(xattrs := s.xattrs + Named(m, order)))
    decreases |order|
  {
    hide ReadStat;
    if order == [] {
      ReadNothing(b, i, s);
      assert s.xattrs + Named(m, order) == s.xattrs;
    } else {
      var k := order[0];
      var first, rest := MapField(k, m[k]), MapFields(m, order[1..]);
      AtConcat(b, i, first, rest);
      MapFieldRead(b, i, k, m[k], s, LengthPrefixed(MapEntry(k, m[k])));
      MapRead(b, i + |first|, m, order[1..], s.(xattrs := s.xattrs[k := m[k]]), rest);
      NamedFirst(s.xattrs, m, order);
    }
  }

  lemma PartialEnds(s: Stat)
    ensures Partial(s, 0) == EMPTY_STAT
    ensures Partial(s, 9) == s.(xattrs := map[])
  { }

  lemma ReadEncoding(s: Stat, order: seq<Str>, b: Str)
    requires IsOrder(s.xattrs, order) && b == StatBytes(s, order) && |b| < TWO63
    ensures ReadStat(b, 0, Partial(s, 0)) == Ok(Partial(s, 9).(xattrs := map[] + Named(s.xattrs, order)))
  {
    var entries := MapFields(s.xattrs, order);
    assert At(b, 0, b);
    var j := FieldsRead(b, 0, s, 0, entries, b);
    MapRead(b, j, s.xattrs, order, Partial(s, 9), entries);
  }

  lemma NamedAll(m: map<Str, Str>, order: seq<Str>)
    requires IsOrder(m, order)
    ensures map[] + Named(m, order) == m
  { }

  /** Parsing an encoding gives the message back, whatever order the map was written in. */
  lemma RoundTrip(s: Stat, order: seq<Str>, b: Str)
    requires IsOrder(s.xattrs, order) && b == StatBytes(s, order) && |b| < TWO63
    ensures ReadStat(b, 0, EMPTY_STAT) == Ok(s)
  {
    ReadEncoding(s, order, b);
    PartialEnds(s);
    NamedAll(s.xattrs, order);
  }

  /** No two messages share an encoding. */
  lemma EncodingInjective(s: Stat, t: Stat, o1: seq<Str>, o2: seq<Str>)
    requires IsOrder(s.xattrs, o1) && IsOrder(t.xattrs, o2) && |StatBytes(s, o1)| < TWO63
    requires StatBytes(s, o1) == StatBytes(t, o2)
    ensures s == t
  {
    RoundTrip(s, o1, StatBytes(s, o1));
    RoundTrip(t, o2, StatBytes(t, o2));
  }
}
