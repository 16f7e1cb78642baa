/** The chunked buffer that collects the metadata file, and its length-prefixed frames. */
module MetadataFile {
  import opened Bytes
  import opened Stats
  import opened Wire
  import opened StatCodec
  import opened Truncation

  const CHUNK_SIZE := 32 * 1024

  /** A byte slice starting at the front of its array: the length in use and, as the array's
      length, the capacity. */
  datatype Chunk = Chunk(arr: array<byte>, len: nat)

  ghost predicate Bounded(chunks: seq<Chunk>) { forall c :: c in chunks ==> c.len <= c.arr.Length }

  ghost predicate Distinct(chunks: seq<Chunk>)
  {
    forall i, j :: 0 <= i < j < |chunks| ==> chunks[i].arr != chunks[j].arr
  }

  /** The bytes in use, chunk after chunk. */
  ghost function ContentsOf(chunks: seq<Chunk>): Str
    requires Bounded(chunks)
    reads set c | c in chunks :: c.arr
  {
    if chunks == [] then []
    else
      var c := chunks[|chunks| - 1];
      ContentsOf(chunks[..|chunks| - 1]) + c.arr[..c.len]
  }

  /** Byte k of array a has been handed out. */
  ghost predicate InUse(chunks: seq<Chunk>, a: array<byte>, k: int)
  {
    exists c :: c in chunks && c.arr == a && 0 <= k < c.len
  }

  /** From before to after, bytes [lo, hi) of arr are newly handed out and nothing is taken back. */
  ghost predicate HandsOut(before: seq<Chunk>, after: seq<Chunk>, arr: array<byte>, lo: nat, hi: nat)
  {
    && (forall c :: c in before ==> exists d :: d in after && d.arr == c.arr && c.len <= d.len)
    && (forall k :: lo <= k < hi ==> !InUse(before, arr, k) && InUse(after, arr, k))
  }

  /** Two slices handed out at different times never overlap. */
  lemma NeverTwice(c0: seq<Chunk>, c1: seq<Chunk>, c2: seq<Chunk>, c3: seq<Chunk>,
                   a: array<byte>, lo: nat, hi: nat, b: array<byte>, lo': nat, hi': nat, k: nat)
    requires HandsOut(c0, c1, a, lo, hi) && HandsOut(c2, c3, b, lo', hi')
    requires forall c :: c in c1 ==> exists d :: d in c2 && d.arr == c.arr && c.len <= d.len
    requires lo <= k < hi && a == b
    ensures !(lo' <= k < hi')
  {
    assert InUse(c1, a, k);
    var c :| c in c1 && c.arr == a && 0 <= k < c.len;
    var d :| d in c2 && d.arr == c.arr && c.len <= d.len;
    assert InUse(c2, a, k);
  }

  lemma LastContents(init: seq<Chunk>, last: Chunk)
    requires Bounded(init) && last.len <= last.arr.Length
    ensures Bounded(init + [last])
    ensures ContentsOf(init + [last]) == ContentsOf(init) + last.arr[..last.len]
  {
    assert (init + [last])[..|init|] == init;
  }

  class Buffer {
    var chunks: seq<Chunk>

    constructor ()
      ensures Valid() && Contents() == [] && chunks == []
    {
      chunks := [];
    }

    ghost predicate Valid()
      reads this
    {
      Bounded(chunks) && Distinct(chunks)
    }

    ghost function Arrays(): set<array<byte>>
      reads this
    {
      set c | c in chunks :: c.arr
    }

    ghost function Contents(): Str
      reads this, Arrays()
      requires Valid()
    {
      ContentsOf(chunks)
    }

    /** alloc: room for n bytes at the end. Bytes handed out before keep their place and are not
        handed out again. */
    method Alloc(n: nat) returns (arr: array<byte>, lo: nat)
      requires Valid()
      modifies this
      ensures Valid() && chunks != [] && chunks[|chunks| - 1] == Chunk(arr, lo + n)
      ensures fresh(arr) || arr in old(Arrays())
      ensures Arrays() == old(Arrays()) + {arr}
      ensures Contents() == old(Contents()) + arr[lo..lo + n]
      ensures HandsOut(old(chunks), chunks, arr, lo, lo + n)
    {
      hide HandsOut, Distinct, ContentsOf;
      if n > CHUNK_SIZE {
        arr := new byte[n](_ => 0);
        lo := 0;
        Push(arr, n);
        return;
      }
      if |chunks| != 0 {
        var last := chunks[|chunks| - 1];
        if last.len + n <= last.arr.Length {
          assert last in chunks;
          arr, lo := last.arr, last.len;
          GrowLast(n);
          return;
        }
      }
      arr := new byte[CHUNK_SIZE](_ => 0);
      lo := 0;
      Push(arr, n);
    }

    /** Appends a chunk made of a new array. */
    method Push(arr: array<byte>, n: nat)
      requires Valid() && arr !in Arrays() && n <= arr.Length
      modifies this
      ensures Valid() && chunks == old(chunks) + [Chunk(arr, n)]
      ensures Arrays() == old(Arrays()) + {arr}
      ensures Contents() == old(Contents()) + arr[0..n]
      ensures HandsOut(old(chunks), chunks, arr, 0, n)
    {
      hide HandsOut, Distinct, ContentsOf;
      forall c | c in chunks ensures c.arr != arr { assert c.arr in Arrays(); }
      ChunkAdded(chunks, arr, n);
      LastContents(chunks, Chunk(arr, n));
      assert arr[..n] == arr[0..n];
      chunks := chunks + [Chunk(arr, n)];
    }

    /** Extends the last chunk within its capacity. */
    method GrowLast(n: nat)
      requires Valid() && chunks != [] && chunks[|chunks| - 1].len + n <= chunks[|chunks| - 1].arr.Length
      modifies this
      ensures Valid() && |chunks| == |old(chunks)| && Arrays() == old(Arrays())
      ensures var last := old(chunks)[|old(chunks)| - 1];
        && chunks[|chunks| - 1] == Chunk(last.arr, last.len + n)
        && Contents() == old(Contents()) + last.arr[last.len..last.len + n]
        && HandsOut(old(chunks), chunks, last.arr, last.len, last.len + n)
    {
      hide HandsOut, Distinct, ContentsOf;
      var m := |chunks| - 1;
      var last := chunks[m];
      ghost var init, grown := chunks[..m], Chunk(last.arr, last.len + n);
      assert chunks == init + [last] && last in chunks;
      LastGrew(init, last, grown);
      LastContents(init, last);
      LastContents(init, grown);
      GrownContents(ContentsOf(init), last, grown);
      chunks := chunks[..m] + [Chunk(last.arr, last.len + n)];
    }

    /** WriteTo: the writer receives the chunks in order. */
    method WriteTo() returns (out: Str, n: nat)
      requires Valid()
      ensures out == Contents() && n == |out|
    {
      out, n := [], 0;
      for i := 0 to |chunks|
        invariant forall c :: c in chunks[..i] ==> c in chunks
        invariant out == ContentsOf(chunks[..i]) && n == |out|
      {
        var c := chunks[i];
        assert chunks[..i + 1][..i] == chunks[..i];
        out := out + c.arr[..c.len];
        n := n + c.len;
      }
      assert chunks[..|chunks|] == chunks;
    }
  }

  lemma GrownContents(init: Str, last: Chunk, grown: Chunk)
    requires grown.arr == last.arr && last.len <= grown.len <= grown.arr.Length
    ensures init + grown.arr[..grown.len] == (init + last.arr[..last.len]) + last.arr[last.len..grown.len]
  {
    assert grown.arr[..grown.len] == last.arr[..last.len] + last.arr[last.len..grown.len];
  }

  /** A chunk on a new array. */
  lemma ChunkAdded(before: seq<Chunk>, arr: array<byte>, n: nat)
    requires Distinct(before) && forall c :: c in before ==> c.arr != arr
    ensures Distinct(before + [Chunk(arr, n)])
    ensures HandsOut(before, before + [Chunk(arr, n)], arr, 0, n)
    ensures (set c | c in before + [Chunk(arr, n)] :: c.arr) == (set c | c in before :: c.arr) + {arr}
  {
    var after := before + [Chunk(arr, n)];
    assert after[|before|] == Chunk(arr, n) && after[|before|] in after;
    assert forall i :: 0 <= i < |before| ==> after[i] == before[i] && before[i] in before;
    assert forall c :: c in before ==> c in after;
    assert forall c :: c in after ==> c in before || c == Chunk(arr, n);
  }

  /** Replacing the last chunk by a longer one on the same array. */
  lemma LastGrew(init: seq<Chunk>, last: Chunk, grown: Chunk)
    requires grown.arr == last.arr && last.len <= grown.len && Distinct(init + [last])
    ensures Distinct(init + [grown])
    ensures HandsOut(init + [last], init + [grown], last.arr, last.len, grown.len)
    ensures (set c | c in init + [last] :: c.arr) == (set c | c in init + [grown] :: c.arr)
  {
    var before, after := init + [last], init + [grown];
    assert forall i :: 0 <= i < |before| ==> before[i].arr == after[i].arr;
    forall c | c in init ensures c.arr != last.arr {
      var i :| 0 <= i < |init| && init[i] == c;
      assert before[i] == c && before[|init|] == last;
    }
    assert before[|init|] == last && after[|init|] == grown;
    assert last in before && grown in after;
    assert forall c :: c in init ==> c in after && c in before;
    assert forall c :: c in after ==> c in init || c == grown;
    assert forall c :: c in before ==> c in init || c == last;
  }

  // ---------------------------------------------------------------- frames

  /** binary.LittleEndian.PutUint32 of uint32(n). */
  function LittleEndian(n: nat): (b: Str)
    ensures |b| == 4
  {
    [n % 256, n / 256 % 256, n / 256 / 256 % 256, n / 256 / 256 / 256 % 256]
  }

  function FromLittleEndian(b: Str): nat
    requires |b| == 4
  {
    (b[0] as int) + 256 * (b[1] as int) + 0x1_0000 * (b[2] as int) + 0x100_0000 * (b[3] as int)
  }

  lemma LowDigits(n: nat, d0: nat, d1: nat, d2: nat, d3: nat, high: nat)
    requires d0 < 256 && d1 < 256 && d2 < 256 && d3 < 256
    requires n == d0 + 256 * d1 + 0x1_0000 * d2 + 0x100_0000 * d3 + TWO32 * high
    ensures n % TWO32 == d0 + 256 * d1 + 0x1_0000 * d2 + 0x100_0000 * d3
  { }

  /** The four bytes say the length modulo 2^32. */
  lemma LittleEndianRoundTrip(n: nat)
    ensures FromLittleEndian(LittleEndian(n)) == n % TWO32
  {
    var a, b, c := n / 256, n / 256 / 256, n / 256 / 256 / 256;
    assert n == 256 * a + n % 256;
    assert a == 256 * b + a % 256;
    assert b == 256 * c + b % 256;
    assert c == 256 * (c / 256) + c % 256;
    LowDigits(n, n % 256, a % 256, b % 256, c % 256, c / 256);
  }

  /** The number whose digits to base 256 are the bytes, least significant first. */
  function Base256(b: Str): nat { if b == [] then 0 else b[0] + 256 * Base256(b[1..]) }

  /** The first byte is the least significant. */
  lemma LittleEndianMeaning(n: nat)
    ensures Base256(LittleEndian(n)) == n % TWO32
    ensures n < TWO32 ==> Base256(LittleEndian(n)) == n
  {
    var b := LittleEndian(n);
    assert Base256(b[4..]) == 0;
    assert b[1..][1..] == b[2..] && b[2..][1..] == b[3..] && b[3..][1..] == b[4..];
    assert Base256(b[3..]) == b[3];
    assert Base256(b[2..]) == b[2] + 256 * (b[3] as int);
    assert Base256(b[1..]) == b[1] + 256 * Base256(b[2..]);
    LittleEndianRoundTrip(n);
  }

  function Frame(bytes: Str): Str { LittleEndian(|bytes|) + bytes }

  /** Some encoding of s, framed. */
  ghost predicate IsFrame(s: Stat, f: Str)
  {
    exists order :: IsOrder(s.xattrs, order) && f == Frame(StatBytes(s, order))
  }

  /** The encoding is shorter than the four-byte length can say. */
  ghost predicate FitsFrame(s: Stat)
  {
    forall order :: IsOrder(s.xattrs, order) ==> |StatBytes(s, order)| < TWO32
  }

  /** The metadata file for a list of stats: one frame each, in order. */
  ghost predicate IsMetadata(stats: seq<Stat>, file: Str)
    decreases |stats|
  {
    if stats == [] then file == []
    else
      exists n: nat ::
        n <= |file| && IsFrame(stats[|stats| - 1], file[n..]) && IsMetadata(stats[..|stats| - 1], file[..n])
  }

  /** The receiver's step for one stat: allocate size + 4 bytes, put the size, marshal behind it. */
  method AppendFrame(buf: Buffer, s: Stat)
    requires buf.Valid()
    modifies buf, buf.Arrays()
    ensures buf.Valid() && fresh(buf.Arrays() - old(buf.Arrays()))
    ensures exists f :: IsFrame(s, f) && buf.Contents() == old(buf.Contents()) + f
  {
    hide StatBytes, IsOrder, ContentsOf, HandsOut, Distinct, IsFrame;
    var n := SizeVT(s);
    ghost var before := buf.Contents();
    var arr, lo := buf.Alloc(n + 4);
    ghost var init := buf.chunks[..|buf.chunks| - 1];
    assert buf.chunks == init + [Chunk(arr, lo + (n + 4))];
    LastContents(init, Chunk(arr, lo + (n + 4)));
    LastApart(init, Chunk(arr, lo + (n + 4)));
    ghost var base := ContentsOf(init);
    CutContents(base, arr[..lo + (n + 4)], before, lo);
    ghost var front := arr[..lo];
    ghost var f := PutFrame(arr, lo, n, s);
    Prefix(arr, lo, lo + (n + 4), f);
    assert ContentsOf(init) == base;
    LastContents(init, Chunk(arr, lo + (n + 4)));
    ConcatAssociative(base, front, f);
  }

  lemma LastApart(init: seq<Chunk>, last: Chunk)
    requires Distinct(init + [last])
    ensures forall c :: c in init ==> c.arr != last.arr
  {
    forall c | c in init ensures c.arr != last.arr {
      var i :| 0 <= i < |init| && init[i] == c;
      assert (init + [last])[i] == c && (init + [last])[|init|] == last;
    }
  }

  lemma Prefix(arr: array<byte>, lo: nat, hi: nat, f: Str)
    requires lo <= hi <= arr.Length && arr[lo..hi] == f
    ensures arr[..hi] == arr[..lo] + f
  { }

  lemma FrameOf(s: Stat, order: seq<Str>)
    requires IsOrder(s.xattrs, order)
    ensures IsFrame(s, Frame(StatBytes(s, order)))
  { }

  lemma CutContents(init: Str, all: Str, before: Str, lo: nat)
    requires lo <= |all| && init + all == before + all[lo..]
    ensures before == init + all[..lo]
  {
    assert |before| == |init| + lo;
    assert (init + all)[..|before|] == init + all[..lo];
  }

  method PutUint32(arr: array<byte>, lo: nat, n: nat)
    requires lo + 4 <= arr.Length
    modifies arr
    ensures arr[lo..lo + 4] == LittleEndian(n)
    ensures arr[..lo] == old(arr[..lo])
  {
    forall k | 0 <= k < 4 {
      arr[lo + k] := LittleEndian(n)[k];
    }
  }

  /** The size, and behind it the encoding. */
  method PutFrame(arr: array<byte>, lo: nat, n: nat, s: Stat) returns (ghost f: Str)
    requires lo + (n + 4) <= arr.Length && forall o :: IsOrder(s.xattrs, o) ==> n == |StatBytes(s, o)|
    modifies arr
    ensures IsFrame(s, f) && arr[lo..lo + (n + 4)] == f && arr[..lo] == old(arr[..lo])
  {
    hide StatBytes, LittleEndian, Frame, IsFrame;
    PutUint32(arr, lo, n);
    ghost var order := PutStat(arr, lo, n, s);
    f := Frame(StatBytes(s, order));
    FrameOf(s, order);
    assert lo + 4 + n == lo + (n + 4);
  }

  /** Marshals s behind its length. */
  method PutStat(arr: array<byte>, lo: nat, n: nat, s: Stat) returns (ghost order: seq<Str>)
    requires lo + 4 + n <= arr.Length && arr[lo..lo + 4] == LittleEndian(n)
    requires forall o :: IsOrder(s.xattrs, o) ==> n == |StatBytes(s, o)|
    modifies arr
    ensures IsOrder(s.xattrs, order) && arr[lo..lo + 4 + n] == Frame(StatBytes(s, order))
    ensures arr[..lo] == old(arr[..lo])
  {
    hide StatBytes, LittleEndian;
    ghost var pre := arr[..];
    var m;
    m, order := MarshalToSizedBuffer(arr, lo + 4, lo + 4 + n, s);
    ghost var bytes := StatBytes(s, order);
    assert arr[..] == pre[..lo + 4] + bytes + pre[lo + 4 + n..];
    assert arr[lo..lo + 4] == arr[..][lo..lo + 4] == pre[lo..lo + 4];
    assert arr[lo + 4..lo + 4 + n] == arr[..][lo + 4..lo + 4 + n] == bytes;
    assert arr[lo..lo + 4 + n] == arr[lo..lo + 4] + arr[lo + 4..lo + 4 + n];
    assert arr[..lo] == arr[..][..lo] == pre[..lo];
  }

  /** The metadata file after receiving stats: their frames in order. */
  method WriteMetadata(stats: seq<Stat>) returns (file: Str)
    ensures IsMetadata(stats, file)
  {
    var buf := new Buffer();
    hide IsFrame;
    for i := 0 to |stats|
      invariant fresh(buf) && fresh(buf.Arrays()) && buf.Valid() && IsMetadata(stats[..i], buf.Contents())
    {
      ghost var before := buf.Contents();
      AppendFrame(buf, stats[i]);
      assert stats[..i + 1][..i] == stats[..i];
      FrameAppended(stats[..i + 1], before, buf.Contents());
    }
    assert stats[..|stats|] == stats;
    var n;
    file, n := buf.WriteTo();
  }

  lemma FrameAppended(stats: seq<Stat>, before: Str, after: Str)
    requires stats != [] && IsMetadata(stats[..|stats| - 1], before)
    requires exists f :: IsFrame(stats[|stats| - 1], f) && after == before + f
    ensures IsMetadata(stats, after)
  {
    var f :| IsFrame(stats[|stats| - 1], f) && after == before + f;
    var n := |before|;
    assert after[n..] == f && after[..n] == before;
  }

  /** Reading the frames of a metadata file one after the other. */
  function ReadFrames(b: Str): Result<seq<Stat>>
    decreases |b|
  {
    if b == [] then Ok([])
    else if |b| < 4 then Err(UnexpectedEOF)
    else
      var n := FromLittleEndian(b[..4]);
      if n > |b| - 4 then Err(UnexpectedEOF)
      else
        var s := ReadStat(b[4..4 + n], 0, EMPTY_STAT);
        if s.Err? then Err(s.error)
        else
          var rest := ReadFrames(b[4 + n..]);
          if rest.Err? then Err(rest.error) else Ok([s.value] + rest.value)
  }

  /** The stats read from what follows, with more in front. */
  function Prepend(stats: seq<Stat>, r: Result<seq<Stat>>): Result<seq<Stat>>
  {
    if r.Ok? then Ok(stats + r.value) else r
  }

  lemma FirstFrame(b: Str)
    requires |b| >= 4 && FromLittleEndian(b[..4]) <= |b| - 4
    ensures (var n := FromLittleEndian(b[..4]);
             var s := ReadStat(b[4..4 + n], 0, EMPTY_STAT);
             ReadFrames(b) == if s.Err? then Err(s.error) else Prepend([s.value], ReadFrames(b[4 + n..])))
  { }

  lemma FrameParts(bytes: Str, rest: Str)
    ensures (var b := Frame(bytes) + rest;
             && b[..4] == LittleEndian(|bytes|) && |b| == 4 + |bytes| + |rest|
             && forall m :: 0 <= m <= |bytes| ==> b[4..4 + m] == bytes[..m])
    ensures (Frame(bytes) + rest)[4 + |bytes|..] == rest
  {
    hide LittleEndian;
    var b := Frame(bytes) + rest;
    forall m | 0 <= m <= |bytes| ensures b[4..4 + m] == bytes[..m] { }
  }

  lemma ReadOneFrame(s: Stat, f: Str, rest: Str)
    requires IsFrame(s, f) && FitsFrame(s)
    ensures ReadFrames(f + rest) == Prepend([s], ReadFrames(rest))
  {
    hide ReadStat, StatBytes, ReadFrames, LittleEndian, Frame;
    var order :| IsOrder(s.xattrs, order) && f == Frame(StatBytes(s, order));
    var bytes := StatBytes(s, order);
    LittleEndianRoundTrip(|bytes|);
    RoundTrip(s, order, bytes);
    FrameParts(bytes, rest);
    assert bytes[..|bytes|] == bytes;
    FirstFrame(f + rest);
  }

  lemma {:induction false} ReadBack(stats: seq<Stat>, file: Str, rest: Str)
    requires IsMetadata(stats, file) && (forall s :: s in stats ==> FitsFrame(s))
    ensures ReadFrames(file + rest) == Prepend(stats, ReadFrames(rest))
    decreases |stats|
  {
    hide IsFrame, ReadFrames;
    if stats == [] {
      assert file + rest == rest;
      PrependNothing(ReadFrames(rest));
    } else {
      var m := |stats| - 1;
      var n: nat :| n <= |file| && IsFrame(stats[m], file[n..]) && IsMetadata(stats[..m], file[..n]);
      ReadOneFrame(stats[m], file[n..], rest);
      ReadBack(stats[..m], file[..n], file[n..] + rest);
      assert file[..n] + (file[n..] + rest) == file + rest;
      PrependLast(stats, ReadFrames(rest));
    }
  }

  lemma PrependNothing(r: Result<seq<Stat>>)
    ensures Prepend([], r) == r
  {
    if r.Ok? { assert [] + r.value == r.value; }
  }

  lemma PrependLast(stats: seq<Stat>, r: Result<seq<Stat>>)
    requires stats != []
    ensures Prepend(stats[..|stats| - 1], Prepend([stats[|stats| - 1]], r)) == Prepend(stats, r)
  {
    var m := |stats| - 1;
    assert stats == stats[..m] + [stats[m]];
    if r.Ok? { assert stats[..m] + ([stats[m]] + r.value) == stats + r.value; }
  }

  /** The length of a stat that does not fit is cut to 32 bits, and so is what is read for it. */
  lemma OverlongFrame(s: Stat, f: Str, rest: Str, tail: seq<Stat>)
    requires IsFrame(s, f) && !FitsFrame(s) && InMemory(s)
    ensures ReadFrames(f + rest) != Ok([s] + tail)
  {
    hide ReadStat, StatBytes, ReadFrames, LittleEndian, Frame, InMemory;
    var order :| IsOrder(s.xattrs, order) && f == Frame(StatBytes(s, order));
    var bytes := StatBytes(s, order);
    SameLength(s, order);
    var m := |bytes| % TWO32;
    LittleEndianRoundTrip(|bytes|);
    TruncationShows(s, order, m);
    FrameParts(bytes, rest);
    FirstFrame(f + rest);
    assert forall x: Stat, r: seq<Stat> :: ([x] + r)[0] == x;
  }

  lemma SameLength(s: Stat, order: seq<Str>)
    requires IsOrder(s.xattrs, order)
    ensures FitsFrame(s) <==> |StatBytes(s, order)| < TWO32
  {
    hide FieldsFrom, MapFields;
    forall o | IsOrder(s.xattrs, o) ensures |StatBytes(s, o)| == |StatBytes(s, order)| {
      MapSize(s.xattrs, o, order);
      FieldsSize(s, MapFields(s.xattrs, o));
      FieldsSize(s, MapFields(s.xattrs, order));
    }
  }

  lemma {:induction false} ReadFails(stats: seq<Stat>, file: Str, rest: Str, tail: seq<Stat>, s: Stat)
    requires IsMetadata(stats, file) && (forall x :: x in stats ==> InMemory(x)) && s in stats && !FitsFrame(s)
    ensures ReadFrames(file + rest) != Ok(stats + tail)
    decreases |stats|
  {
    hide IsFrame, ReadFrames, InMemory, FitsFrame;
    var m := |stats| - 1;
    var n: nat :| n <= |file| && IsFrame(stats[m], file[n..]) && IsMetadata(stats[..m], file[..n]);
    assert file[..n] + (file[n..] + rest) == file + rest;
    assert stats[..m] + ([stats[m]] + tail) == stats + tail;
    if x :| x in stats[..m] && !FitsFrame(x) {
      ReadFails(stats[..m], file[..n], file[n..] + rest, [stats[m]] + tail, x);
    } else {
      assert stats == stats[..m] + [stats[m]];
      ReadBack(stats[..m], file[..n], file[n..] + rest);
      OverlongFrame(stats[m], file[n..], rest, tail);
      NotPrepended(stats[..m], ReadFrames(file[n..] + rest), [stats[m]] + tail);
    }
  }

  lemma NotPrepended(stats: seq<Stat>, r: Result<seq<Stat>>, tail: seq<Stat>)
    requires r != Ok(tail)
    ensures Prepend(stats, r) != Ok(stats + tail)
  {
    if r.Ok? {
      assert (stats + r.value)[|stats|..] == r.value;
      assert (stats + tail)[|stats|..] == tail;
    }
  }

  /** Reading the metadata file gives back the stats that were received, in order, if and only if each of
      them encodes to less than four gibibytes. */
  lemma MetadataRoundTrip(stats: seq<Stat>, file: Str)
    requires IsMetadata(stats, file) && forall s :: s in stats ==> InMemory(s)
    ensures ReadFrames(file) == Ok(stats) <==> forall s :: s in stats ==> FitsFrame(s)
  {
    hide IsMetadata, ReadFrames, InMemory, FitsFrame;
    assert file + [] == file && stats + [] == stats;
    ReadNone();
    if s :| s in stats && !FitsFrame(s) {
      ReadFails(stats, file, [], [], s);
    } else {
      ReadBack(stats, file, []);
    }
  }

  lemma ReadNone()
    ensures ReadFrames([]) == Ok([])
  { }
}
