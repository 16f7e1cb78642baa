/** What the parser makes of an encoding that was cut off. */
module Truncation {
  import opened Bytes
  import opened Stats
  import opened Wire
  import opened StatCodec

  /** From position i on, b holds some of the given bytes but not all of them. */
  predicate Cut(b: Str, i: nat, bytes: Str) { i <= |b| && |b| - i < |bytes| && b[i..] == bytes[..|b| - i] }

  /** A cut falls into the first part, or behind it. */
  lemma CutConcat(b: Str, i: nat, s: Str, t: Str)
    requires Cut(b, i, s + t)
    ensures if |b| - i >= |s| then At(b, i, s) && Cut(b, i + |s|, t) else Cut(b, i, s)
  {
    var r := b[i..];
    if |r| >= |s| {
      assert r[..|s|] == (s + t)[..|r|][..|s|] == s;
      assert b[i..i + |s|] == r[..|s|];
      assert b[i + |s|..] == r[|s|..] == (s + t)[..|r|][|s|..] == t[..|r| - |s|];
    } else {
      assert (s + t)[..|r|] == s[..|r|];
    }
  }

  // ---------------------------------------------------------------- one field

  lemma {:induction false} VarintCut(b: Str, i: nat, v: nat, shift: nat, acc: nat, w: Width)
    requires Cut(b, i, VarintBytes(v))
    ensures ReadVarintFrom(b, i, shift, acc, w).Err?
    decreases v
  {
    if i < |b| && shift < 64 {
      assert b[i] == b[i..][0] == VarintBytes(v)[0];
      if v >= 128 {
        CutConcat(b, i, [v % 128 + 128], VarintBytes(v / 128));
        VarintCut(b, i + 1, v / 128, shift + 7, Wrap(acc + ShiftLeft(b[i] % 128, shift), w), w);
      }
    }
  }

  lemma BytesCut(b: Str, i: nat, s: Str)
    requires Cut(b, i, LengthPrefixed(s)) && |s| < TWO63
    ensures ReadBytes(b, i).Err?
  {
    hide VarintBytes, ReadVarintFrom;
    CutConcat(b, i, VarintBytes(|s|), s);
    if |b| - i >= |VarintBytes(|s|)| {
      ReadVarintAt(b, i, |s|, W64);
    } else {
      VarintCut(b, i, |s|, 0, 0, W64);
    }
  }

  /** What stands behind a tag: a number, or a record. */
  ghost predicate Behind(tag: byte, rest: Str)
  {
    || (tag % 8 == 0 && IsScalar(tag / 8) && exists v: nat :: rest == VarintBytes(v))
    || (tag % 8 == 2 && (IsRecord(tag / 8) || tag / 8 == 10)
        && exists v: Str :: rest == LengthPrefixed(v) && |v| < TWO63)
  }

  lemma FieldCut(b: Str, i: nat, tag: byte, rest: Str, s: Stat)
    requires 8 <= tag < 128 && Behind(tag, rest) && Cut(b, i, rest)
    ensures ReadField(b, i, tag / 8, tag % 8, s).Err?
  {
    hide VarintBytes, ReadVarintFrom, ReadBytes, ReadEntry, Cut, LengthPrefixed;
    if tag % 8 == 0 {
      var v: nat :| rest == VarintBytes(v);
      VarintCut(b, i, v, 0, 0, WidthOf(tag / 8));
    } else {
      var v: Str :| rest == LengthPrefixed(v) && |v| < TWO63;
      BytesCut(b, i, v);
    }
  }

  lemma TagIs(b: Str, i: nat, tag: byte)
    requires 8 <= tag < 128 && At(b, i, [tag])
    ensures ReadVarint(b, i, W64) == Ok((tag as nat, i + 1)) && FieldNum(tag) == tag / 8
  {
    hide ReadVarint;
    assert [tag] + [] == [tag];
    TagAt(b, i, tag, []);
  }

  lemma NextFails(b: Str, i: nat, tag: byte, s: Stat)
    requires 8 <= tag < 128 && i < |b| && At(b, i, [tag]) && ReadField(b, i + 1, tag / 8, tag % 8, s).Err?
    ensures ReadStat(b, i, s).Err?
  {
    hide ReadVarint, ReadField;
    TagIs(b, i, tag);
  }

  /** A field that is cut off behind its tag, or before its end, is an error. */
  lemma CutFails(b: Str, i: nat, tag: byte, rest: Str, s: Stat)
    requires 8 <= tag < 128 && Behind(tag, rest) && i < |b| && Cut(b, i, [tag] + rest)
    ensures ReadStat(b, i, s).Err?
  {
    hide ReadStat, ReadField, Behind;
    CutConcat(b, i, [tag], rest);
    FieldCut(b, i + 1, tag, rest, s);
    NextFails(b, i, tag, s);
  }

  // ---------------------------------------------------------------- a whole message

  /** Lengths are Go ints. */
  ghost predicate InMemory(s: Stat)
  {
    && |s.path| < TWO63 && |s.linkname| < TWO63
    && forall k :: k in s.xattrs ==> |MapEntry(k, s.xattrs[k])| < TWO63
  }

  lemma FieldHasTag(s: Stat, n: nat) returns (tag: byte, rest: Str)
    requires n < 9 && Fields(s, n) != [] && InMemory(s)
    ensures 8 <= tag < 128 && Behind(tag, rest) && Fields(s, n) == [tag] + rest
  {
    hide VarintBytes, LengthPrefixed;
    FieldsShape(s, n);
    if n == 0 || n == 6 {
      var v := if n == 0 then s.path else s.linkname;
      tag, rest := 8 * (n + 1) + 2, LengthPrefixed(v);
    } else {
      var v := ScalarOf(s, n + 1);
      tag, rest := 8 * (n + 1), VarintBytes(v);
    }
  }

  /** Without one of its fields a message is another one. */
  lemma PartialDiffers(s: Stat, n: nat)
    requires n < 9 && Fields(s, n) != []
    ensures Partial(s, n) != s
  {
    SignedRoundTrip(s.size);
    SignedRoundTrip(s.modTime);
    SignedRoundTrip(s.devmajor);
    SignedRoundTrip(s.devminor);
  }

  lemma MapFieldTag(k: Str, v: Str) returns (rest: Str)
    requires |MapEntry(k, v)| < TWO63
    ensures MapField(k, v) == [0x52] + rest && Behind(0x52, rest) && rest == LengthPrefixed(MapEntry(k, v))
  {
    hide MapEntry, LengthPrefixed;
    rest := LengthPrefixed(MapEntry(k, v));
  }

  lemma Ended(b: Str, i: nat, s: Stat)
    requires i == |b|
    ensures ReadStat(b, i, s) == Ok(s)
  { }

  /** Cut off among the map entries: an error, or a message without the entries behind the cut. */
  lemma {:induction false} MapCut(b: Str, i: nat, order: seq<Str>, st: Stat, s: Stat)
    requires InMemory(s) && (forall k :: k in order ==> k in s.xattrs && k !in st.xattrs)
    requires forall j, k :: 0 <= j < k < |order| ==> order[j] != order[k]
    requires Cut(b, i, MapFields(s.xattrs, order)) && |b| < TWO63
    ensures ReadStat(b, i, st) != Ok(s)
    decreases |order|
  {
    hide ReadStat, MapField, Cut, At, LengthPrefixed, MapEntry, Behind;
    CutIsShort(b, i, MapFields(s.xattrs, order));
    var k, v := order[0], s.xattrs[order[0]];
    var first, rest := MapField(k, v), MapFields(s.xattrs, order[1..]);
    var tail := MapFieldTag(k, v);
    CutConcat(b, i, first, rest);
    assert k in order;
    if |b| - i >= |first| {
      MapFieldRead(b, i, k, v, st, tail);
      assert forall j :: 0 <= j < |order[1..]| ==> order[1..][j] == order[j + 1];
      MapCut(b, i + |first|, order[1..], st.(xattrs := st.xattrs[k := v]), s);
    } else if i == |b| {
      Ended(b, i, st);
    } else {
      CutFails(b, i, 0x52, tail, st);
    }
  }

  lemma CutIsShort(b: Str, i: nat, bytes: Str)
    requires Cut(b, i, bytes)
    ensures i <= |b| && |b| - i < |bytes|
  { }

  lemma {:induction false} FieldsCut(b: Str, i: nat, s: Stat, n: nat, order: seq<Str>)
    requires n <= 9 && InMemory(s) && IsOrder(s.xattrs, order) && |b| < TWO63
    requires Cut(b, i, FieldsFrom(s, n, MapFields(s.xattrs, order)))
    ensures ReadStat(b, i, Partial(s, n)) != Ok(s)
    decreases 9 - n
  {
    hide ReadStat, Fields, Cut, At, MapFields, Behind, InMemory;
    if n == 9 {
      MapCut(b, i, order, Partial(s, 9), s);
    } else {
      var first, rest := Fields(s, n), FieldsFrom(s, n + 1, MapFields(s.xattrs, order));
      CutConcat(b, i, first, rest);
      CutIsShort(b, i, first + rest);
      if |b| - i >= |first| {
        FieldRead(b, i, s, n, first);
        FieldsCut(b, i + |first|, s, n + 1, order);
      } else if i == |b| {
        Ended(b, i, Partial(s, n));
        PartialDiffers(s, n);
      } else {
        var tag, tail := FieldHasTag(s, n);
        CutFails(b, i, tag, tail, Partial(s, n));
      }
    }
  }

  /** An encoding that was cut off is never read as the message it was an encoding of. */
  lemma TruncationShows(s: Stat, order: seq<Str>, m: nat)
    requires InMemory(s) && IsOrder(s.xattrs, order) && m < |StatBytes(s, order)| && m < TWO63
    ensures ReadStat(StatBytes(s, order)[..m], 0, EMPTY_STAT) != Ok(s)
  {
    hide ReadStat, FieldsFrom;
    PartialEnds(s);
    var b := StatBytes(s, order)[..m];
    assert b[0..] == b;
    FieldsCut(b, 0, s, 0, order);
  }
}
