/** The wire format's primitives: base 128 varints and length-delimited records, written
    backwards into a buffer and read forwards from one. Shifts and bitwise ors on disjoint
    bits are written as multiplication and addition. */
module Wire {
  import opened Bytes

  const TWO31 := 0x8000_0000
  const TWO32 := 0x1_0000_0000
  const TWO63 := 0x8000_0000_0000_0000
  const TWO64 := 0x1_0000_0000_0000_0000

  datatype Result<+T> = Ok(value: T) | Err(error: WireError)

  datatype WireError = IntOverflow | UnexpectedEOF | InvalidLength | WrongWireType | EndGroup | IllegalTag | Unsupported

  // ---------------------------------------------------------------- format

  /** Seven bits a byte, least significant first, the top bit set on all but the last. */
  function VarintBytes(v: nat): (s: Str)
    ensures s != []
  {
    if v < 128 then [v] else [v % 128 + 128] + VarintBytes(v / 128)
  }

  /** bits.Len64. */
  function BitLen(v: nat): nat { if v == 0 then 0 else 1 + BitLen(v / 2) }

  /** protohelpers.SizeOfVarint: (bits.Len64(v | 1) + 6) / 7. */
  function SizeOfVarint(v: nat): nat { (BitLen(v / 2 * 2 + 1) + 6) / 7 }

  lemma BitLen7(v: nat)
    ensures v >= 128 ==> BitLen(v) == 7 + BitLen(v / 128)
    ensures 0 < v < 128 ==> 1 <= BitLen(v) <= 7
  {
    if v >= 128 {
      assert v / 2 / 2 / 2 / 2 / 2 / 2 / 2 == v / 128;
      assert BitLen(v) == 1 + BitLen(v / 2) == 2 + BitLen(v / 2 / 2) == 3 + BitLen(v / 2 / 2 / 2);
      assert BitLen(v / 2 / 2 / 2) == 1 + BitLen(v / 2 / 2 / 2 / 2) == 2 + BitLen(v / 2 / 2 / 2 / 2 / 2);
      assert BitLen(v / 2 / 2 / 2 / 2 / 2) == 1 + BitLen(v / 2 / 2 / 2 / 2 / 2 / 2);
    } else if v > 0 {
      BitLenBound(v, 7, 128);
    }
  }

  lemma {:induction false} BitLenBound(v: nat, k: nat, w: nat)
    requires w > 0 && v < w && w == Pow2(k)
    ensures BitLen(v) <= k
  {
    if v > 0 {
      assert k > 0;
      BitLenBound(v / 2, k - 1, w / 2);
    }
  }

  function Pow2(k: nat): (w: nat)
    ensures w > 0
  {
    if k == 0 then 1 else 2 * Pow2(k - 1)
  }

  lemma BitLenIgnoresLowBit(q: nat)
    requires q > 0
    ensures BitLen(q / 2 * 2 + 1) == BitLen(q)
  {
    assert (q / 2 * 2 + 1) / 2 == q / 2;
  }

  /** Setting the lowest bit changes none of the others. */
  lemma HighBitsStay(v: nat)
    ensures (v / 2 * 2 + 1) / 128 == v / 128
  {
    var k := v / 2;
    Quotient(v / 2 * 2 + 1, k / 64, 2 * (k % 64) + 1);
    Quotient(v, k / 64, 2 * (k % 64) + v % 2);
  }

  lemma Quotient(n: nat, q: nat, r: nat)
    requires n == 128 * q + r && r < 128
    ensures n / 128 == q
  { }

  lemma BitLenStep(v: nat)
    requires v >= 128
    ensures BitLen(v / 2 * 2 + 1) == 7 + BitLen(v / 128 / 2 * 2 + 1)
  {
    hide BitLen;
    var odd := v / 2 * 2 + 1;
    HighBitsStay(v);
    assert odd >= 128;
    BitLen7(odd);
    BitLenIgnoresLowBit(v / 128);
  }

  lemma BitLenSmall(v: nat)
    requires v < 128
    ensures 1 <= BitLen(v / 2 * 2 + 1) <= 7
  {
    var odd := v / 2 * 2 + 1;
    assert 0 < odd < 128;
    BitLen7(odd);
  }

  /** The closed formula counts the bytes of the encoding. */
  lemma {:induction false} VarintSize(v: nat)
    ensures SizeOfVarint(v) == |VarintBytes(v)|
  {
    if v >= 128 {
      BitLenStep(v);
      VarintSize(v / 128);
    } else {
      BitLenSmall(v);
    }
  }

  // ---------------------------------------------------------------- writing

  /** Outside [lo, hi) the buffer is as it was. */
  twostate predicate OnlyBetween(dAtA: array<byte>, lo: int, hi: int)
    reads dAtA
  {
    forall k :: 0 <= k < dAtA.Length && !(lo <= k < hi) ==> dAtA[k] == old(dAtA[k])
  }

  /** protohelpers.EncodeVarint: writes v so that it ends at offset; returns where it begins. */
  method EncodeVarint(dAtA: array<byte>, offset: nat, v: nat) returns (base: nat)
    requires |VarintBytes(v)| <= offset <= dAtA.Length
    modifies dAtA
    ensures base == offset - |VarintBytes(v)|
    ensures forall k :: 0 <= k < |VarintBytes(v)| ==> dAtA[base + k] == VarintBytes(v)[k]
    ensures OnlyBetween(dAtA, base, offset)
  {
    ghost var bytes := VarintBytes(v);
    VarintSize(v);
    base := offset - SizeOfVarint(v);
    var o, rest := base, v;
    ghost var done := 0;
    while rest >= 128
      invariant o == base + done && done < |bytes| && base + |bytes| == offset
      invariant VarintBytes(rest) == bytes[done..]
      invariant forall k :: 0 <= k < done ==> dAtA[base + k] == bytes[k]
      invariant OnlyBetween(dAtA, base, offset)
    {
      VarintHead(rest, bytes, done);
      dAtA[o] := rest % 128 + 128;
      rest, o := rest / 128, o + 1;
      done := done + 1;
    }
    VarintHead(rest, bytes, done);
    dAtA[o] := rest;
  }

  lemma VarintHead(rest: nat, bytes: Str, done: nat)
    requires done < |bytes| && VarintBytes(rest) == bytes[done..]
    ensures rest >= 128 ==>
      bytes[done] == rest % 128 + 128 && done + 1 < |bytes| && VarintBytes(rest / 128) == bytes[done + 1..]
    ensures rest < 128 ==> bytes[done] == rest && done + 1 == |bytes|
  {
    assert bytes[done] == VarintBytes(rest)[0];
    assert bytes[done + 1..] == VarintBytes(rest)[1..];
  }

  // ---------------------------------------------------------------- reading

  /** The bytes s stand at position i of b. */
  predicate At(b: Str, i: nat, s: Str) { i + |s| <= |b| && b[i..i + |s|] == s }

  lemma AtConcat(b: Str, i: nat, s: Str, t: Str)
    ensures At(b, i, s + t) <==> At(b, i, s) && At(b, i + |s|, t)
  {
    if i + |s| + |t| <= |b| {
      var w := b[i..i + |s| + |t|];
      assert w[..|s|] == b[i..i + |s|] && w[|s|..] == b[i + |s|..i + |s| + |t|];
      assert (s + t)[..|s|] == s && (s + t)[|s|..] == t;
      assert w == w[..|s|] + w[|s|..];
    }
  }

  /** Widths of the variables decoded into. */
  datatype Width = W32 | W64

  /** What an unsigned variable of that width holds after an overflowing addition. */
  function Wrap(x: nat, w: Width): (r: nat)
    ensures r <= x && r < Range(w)
  {
    if w == W64 then x % TWO64 else x % TWO32
  }

  function Range(w: Width): nat { if w == W64 then TWO64 else TWO32 }

  /** d << shift, before wrapping. */
  function ShiftLeft(d: nat, shift: nat): nat { if shift == 0 then d else 2 * ShiftLeft(d, shift - 1) }

  /** A varint read from position i: groups of seven bits are added in at rising weights, wrapped
      to the width of the variable, until a byte below 128; at shift 64 the parser gives up. */
  function ReadVarintFrom(b: Str, i: nat, shift: nat, acc: nat, w: Width): (r: Result<(nat, nat)>)
    ensures r.Ok? ==> i < r.value.1 <= |b| && r.value.0 < Range(w)
    decreases |b| - i
  {
    if shift >= 64 then Err(IntOverflow)
    else if i >= |b| then Err(UnexpectedEOF)
    else
      var next := Wrap(acc + ShiftLeft(b[i] % 128, shift), w);
      if b[i] < 128 then Ok((next, i + 1)) else ReadVarintFrom(b, i + 1, shift + 7, next, w)
  }

  function ReadVarint(b: Str, i: nat, w: Width): (r: Result<(nat, nat)>)
    ensures r.Ok? ==> i < r.value.1 <= |b| && r.value.0 < Range(w)
  {
    ReadVarintFrom(b, i, 0, 0, w)
  }

  lemma ShiftOnce(v: nat, shift: nat)
    ensures ShiftLeft(v, shift + 1) == 2 * ShiftLeft(v, shift)
  { }

  lemma ShiftNone(v: nat)
    ensures ShiftLeft(v, 0) == v
  { }

  lemma ShiftSeven(q: nat)
    ensures ShiftLeft(q, 7) == 128 * q
  {
    hide ShiftLeft;
    ShiftNone(q);
    ShiftOnce(q, 0);
    ShiftOnce(q, 1);
    ShiftOnce(q, 2);
    ShiftOnce(q, 3);
    ShiftOnce(q, 4);
    ShiftOnce(q, 5);
    ShiftOnce(q, 6);
  }

  lemma {:induction false} ShiftSplit(v: nat, shift: nat)
    ensures ShiftLeft(v, shift) == ShiftLeft(v % 128, shift) + ShiftLeft(v / 128, shift + 7)
  {
    hide ShiftLeft;
    if shift == 0 {
      ShiftSeven(v / 128);
      ShiftNone(v);
      ShiftNone(v % 128);
    } else {
      ShiftSplit(v, shift - 1);
      ShiftOnce(v, shift - 1);
      ShiftOnce(v % 128, shift - 1);
      ShiftOnce(v / 128, shift + 6);
    }
  }

  lemma {:induction false} ShiftGrows(v: nat, n: nat, shift: nat)
    requires n <= shift
    ensures ShiftLeft(v, n) <= ShiftLeft(v, shift)
    decreases shift - n
  {
    if n < shift { ShiftGrows(v, n + 1, shift); }
  }

  lemma {:induction false} ShiftPow2(v: nat, shift: nat)
    requires v >= 1
    ensures ShiftLeft(v, shift) >= Pow2(shift)
  {
    if shift > 0 { ShiftPow2(v, shift - 1); }
  }

  lemma Pow2Step(k: nat)
    ensures Pow2(k + 7) == 128 * Pow2(k)
  {
    assert Pow2(k + 7) == 2 * Pow2(k + 6) == 4 * Pow2(k + 5) == 8 * Pow2(k + 4);
    assert Pow2(k + 4) == 2 * Pow2(k + 3) == 4 * Pow2(k + 2) == 8 * Pow2(k + 1);
  }

  lemma Pow2Of28(k: nat)
    ensures Pow2(k + 28) == 0x1000_0000 * Pow2(k)
  {
    Pow2Step(k);
    Pow2Step(k + 7);
    Pow2Step(k + 14);
    Pow2Step(k + 21);
  }

  lemma Pow2Of64(n: nat)
    requires n == 64
    ensures Pow2(n) == TWO64
  {
    Pow2Of28(n - 28);
    Pow2Of28(n - 56);
    Pow2Step(n - 63);
    assert Pow2(n - 63) == 2 * Pow2(n - 64) == 2;
  }

  /** A shifted non-zero value that still fits 64 bits was shifted by less than 64. */
  lemma ShiftFits(v: nat, shift: nat)
    requires v >= 1 && ShiftLeft(v, shift) < TWO64
    ensures shift < 64
  {
    if shift >= 64 {
      Pow2Of64(64);
      ShiftPow2(v, 64);
      ShiftGrows(v, 64, shift);
    }
  }

  lemma WrapSum(a: nat, x: nat, w: Width)
    ensures Wrap(Wrap(a, w) + x, w) == Wrap(a + x, w)
  { }

  lemma ReadStep(b: Str, i: nat, shift: nat, acc: nat, w: Width, d: nat)
    requires shift < 64 && i < |b| && d < 128
    ensures b[i] == d ==>
      ReadVarintFrom(b, i, shift, acc, w) == Ok((Wrap(acc + ShiftLeft(d, shift), w), i + 1))
    ensures b[i] == d + 128 ==>
      ReadVarintFrom(b, i, shift, acc, w)
        == ReadVarintFrom(b, i + 1, shift + 7, Wrap(acc + ShiftLeft(d, shift), w), w)
  { }

  lemma {:induction false} ReadVarintFromAt(b: Str, i: nat, v: nat, shift: nat, acc: nat, w: Width)
    requires At(b, i, VarintBytes(v)) && shift < 64 && ShiftLeft(v, shift) < TWO64
    ensures ReadVarintFrom(b, i, shift, acc, w) == Ok((Wrap(acc + ShiftLeft(v, shift), w), i + |VarintBytes(v)|))
    decreases v
  {
    assert b[i] == VarintBytes(v)[0];
    ReadStep(b, i, shift, acc, w, v % 128);
    if v >= 128 {
      var q := v / 128;
      AtConcat(b, i, [v % 128 + 128], VarintBytes(q));
      ShiftSplit(v, shift);
      ShiftFits(q, shift + 7);
      ReadVarintFromAt(b, i + 1, q, shift + 7, Wrap(acc + ShiftLeft(v % 128, shift), w), w);
      WrapSum(acc + ShiftLeft(v % 128, shift), ShiftLeft(q, shift + 7), w);
    }
  }

  /** Reading back what was encoded, into a variable of any width. */
  lemma ReadVarintAt(b: Str, i: nat, v: nat, w: Width)
    requires v < TWO64 && At(b, i, VarintBytes(v))
    ensures ReadVarint(b, i, w) == Ok((Wrap(v, w), i + |VarintBytes(v)|))
  {
    ReadVarintFromAt(b, i, v, 0, 0, w);
  }

  /** A varint that does not end within ten bytes is too long; one that is cut off before is an end of input. */
  lemma {:induction false} Unterminated(b: Str, i: nat, shift: nat, acc: nat, w: Width)
    requires i <= |b| && shift % 7 == 0 && shift <= 70
    requires forall k :: i <= k < |b| && k < i + (70 - shift) / 7 ==> b[k] >= 128
    ensures ReadVarintFrom(b, i, shift, acc, w)
         == Err(if |b| - i >= (70 - shift) / 7 then IntOverflow else UnexpectedEOF)
    decreases |b| - i
  {
    if shift < 64 && i < |b| {
      Unterminated(b, i + 1, shift + 7, Wrap(acc + ShiftLeft(b[i] % 128, shift), w), w);
    }
  }

  lemma VarintErrors(b: Str, i: nat, w: Width)
    requires i <= |b| && forall k :: i <= k < |b| && k < i + 10 ==> b[k] >= 128
    ensures ReadVarint(b, i, w) == Err(if |b| - i >= 10 then IntOverflow else UnexpectedEOF)
  {
    Unterminated(b, i, 0, 0, w);
  }

  /** The decoding loop, as written once for each field. */
  method DecodeVarint(b: Str, iNdEx: nat, w: Width) returns (r: Result<(nat, nat)>)
    ensures r == ReadVarint(b, iNdEx, w)
  {
    var i: nat, shift: nat, acc: nat := iNdEx, 0, 0;
    while true
      invariant ReadVarintFrom(b, i, shift, acc, w) == ReadVarint(b, iNdEx, w)
      decreases |b| - i
    {
      if shift >= 64 {
        return Err(IntOverflow);
      }
      if i >= |b| {
        return Err(UnexpectedEOF);
      }
      var c := b[i];
      i := i + 1;
      acc := Wrap(acc + ShiftLeft(c % 128, shift), w);
      if c < 128 {
        return Ok((acc, i));
      }
      shift := shift + 7;
    }
  }

  /** A length and that many bytes. Lengths are Go ints: 2^63 and above are negative. */
  function ReadBytes(b: Str, i: nat): (r: Result<(Str, nat)>)
    ensures r.Ok? ==> i < r.value.1 <= |b|
  {
    var n := ReadVarint(b, i, W64);
    if n.Err? then Err(n.error)
    else
      var len, j := n.value.0, n.value.1;
      if len >= TWO63 then Err(InvalidLength)
      else if j + len >= TWO63 then Err(InvalidLength)
      else if j + len > |b| then Err(UnexpectedEOF)
      else Ok((b[j..j + len], j + len))
  }

  function LengthPrefixed(s: Str): Str { VarintBytes(|s|) + s }

  lemma ReadBytesAt(b: Str, i: nat, s: Str)
    requires At(b, i, LengthPrefixed(s)) && |b| < TWO63
    ensures ReadBytes(b, i).Ok?
    ensures ReadBytes(b, i).value.0 == s && ReadBytes(b, i).value.1 == i + |LengthPrefixed(s)|
  {
    AtConcat(b, i, VarintBytes(|s|), s);
    ReadVarintAt(b, i, |s|, W64);
  }

  /** A length that is negative as a Go int is invalid, one that reaches beyond the input an end of input. */
  lemma LengthErrors(b: Str, i: nat, n: nat)
    requires n < TWO64 && At(b, i, VarintBytes(n)) && |b| < TWO63
    ensures ReadBytes(b, i).Ok? <==> i + |VarintBytes(n)| + n <= |b|
    ensures n >= TWO63 ==> ReadBytes(b, i) == Err(InvalidLength)
    ensures n < TWO63 - |b| && i + |VarintBytes(n)| + n > |b| ==> ReadBytes(b, i) == Err(UnexpectedEOF)
  {
    hide ReadVarint, VarintBytes;
    ReadVarintAt(b, i, n, W64);
  }

  method DecodeBytes(b: Str, iNdEx: nat) returns (r: Result<(Str, nat)>)
    ensures r == ReadBytes(b, iNdEx)
  {
    var len := DecodeVarint(b, iNdEx, W64);
    if len.Err? {
      return Err(len.error);
    }
    var (n, i) := len.value;
    if n >= TWO63 {
      return Err(InvalidLength);
    }
    var postIndex := i + n;
    if postIndex >= TWO63 {
      return Err(InvalidLength);
    }
    if postIndex > |b| {
      return Err(UnexpectedEOF);
    }
    return Ok((b[i..postIndex], postIndex));
  }

  // ---------------------------------------------------------------- fields

  /** A scalar field: absent when zero. */
  function VarintField(tag: byte, v: nat): Str { if v == 0 then [] else [tag] + VarintBytes(v) }

  /** A string or bytes field: absent when empty. */
  function BytesField(tag: byte, s: Str): Str { if s == [] then [] else [tag] + LengthPrefixed(s) }

  /** The buffer contents pre with [i, hi) replaced by bytes. */
  ghost function Window(pre: Str, i: nat, hi: nat, bytes: Str): Str
    requires i + |bytes| == hi <= |pre|
  {
    pre[..i] + bytes + pre[hi..]
  }

  lemma WindowGrows(pre: Str, i: nat, hi: nat, tail: Str, s: Str, cur: Str)
    requires |s| <= i && i + |tail| == hi <= |pre| == |cur|
    requires forall k :: 0 <= k < |s| ==> cur[i - |s| + k] == s[k]
    requires forall k :: 0 <= k < |pre| && !(i - |s| <= k < i) ==> cur[k] == Window(pre, i, hi, tail)[k]
    ensures cur == Window(pre, i - |s|, hi, s + tail)
  { }

  /** Writes s so that it ends at position i, in front of the tail that stands up to hi. */
  method PutRaw(dAtA: array<byte>, i: nat, hi: nat, s: Str, ghost pre: Str, ghost tail: Str) returns (j: nat)
    requires |s| <= i && i + |tail| == hi <= |pre| && dAtA[..] == Window(pre, i, hi, tail)
    modifies dAtA
    ensures j == i - |s| && dAtA[..] == Window(pre, j, hi, s + tail)
  {
    ghost var before := dAtA[..];
    j := i - |s|;
    forall k | 0 <= k < |s| {
      dAtA[j + k] := s[k];
    }
    WindowGrows(pre, i, hi, tail, s, dAtA[..]);
  }

  method PutVarint(dAtA: array<byte>, i: nat, hi: nat, v: nat, ghost pre: Str, ghost tail: Str) returns (j: nat)
    requires |VarintBytes(v)| <= i && i + |tail| == hi <= |pre| && dAtA[..] == Window(pre, i, hi, tail)
    modifies dAtA
    ensures j == i - |VarintBytes(v)| && dAtA[..] == Window(pre, j, hi, VarintBytes(v) + tail)
  {
    ghost var before := dAtA[..];
    j := EncodeVarint(dAtA, i, v);
    WindowGrows(pre, i, hi, tail, VarintBytes(v), dAtA[..]);
  }

  /** The tag and length in front of a record already written. */
  method PutHeader(dAtA: array<byte>, i: nat, hi: nat, tag: byte, v: nat, ghost pre: Str, ghost tail: Str)
    returns (j: nat)
    requires 1 + |VarintBytes(v)| <= i && i + |tail| == hi <= |pre| && dAtA[..] == Window(pre, i, hi, tail)
    modifies dAtA
    ensures j == i - 1 - |VarintBytes(v)| && dAtA[..] == Window(pre, j, hi, [tag] + VarintBytes(v) + tail)
  {
    j := PutVarint(dAtA, i, hi, v, pre, tail);
    j := PutRaw(dAtA, j, hi, [tag], pre, VarintBytes(v) + tail);
    assert [tag] + (VarintBytes(v) + tail) == [tag] + VarintBytes(v) + tail;
  }

  method PutVarintField(dAtA: array<byte>, i: nat, hi: nat, tag: byte, v: nat, ghost pre: Str, ghost tail: Str)
    returns (j: nat)
    requires |VarintField(tag, v)| <= i && i + |tail| == hi <= |pre| && dAtA[..] == Window(pre, i, hi, tail)
    modifies dAtA
    ensures j == i - |VarintField(tag, v)| && dAtA[..] == Window(pre, j, hi, VarintField(tag, v) + tail)
  {
    if v == 0 {
      assert VarintField(tag, v) + tail == tail;
      return i;
    }
    j := PutHeader(dAtA, i, hi, tag, v, pre, tail);
  }

  method PutLengthPrefixed(dAtA: array<byte>, i: nat, hi: nat, tag: byte, s: Str, ghost pre: Str, ghost tail: Str)
    returns (j: nat)
    requires 1 + |LengthPrefixed(s)| <= i && i + |tail| == hi <= |pre| && dAtA[..] == Window(pre, i, hi, tail)
    modifies dAtA
    ensures j == i - 1 - |LengthPrefixed(s)|
    ensures dAtA[..] == Window(pre, j, hi, [tag] + LengthPrefixed(s) + tail)
  {
    j := PutRaw(dAtA, i, hi, s, pre, tail);
    j := PutHeader(dAtA, j, hi, tag, |s|, pre, s + tail);
    assert [tag] + VarintBytes(|s|) + (s + tail) == [tag] + LengthPrefixed(s) + tail;
  }

  method PutBytesField(dAtA: array<byte>, i: nat, hi: nat, tag: byte, s: Str, ghost pre: Str, ghost tail: Str)
    returns (j: nat)
    requires |BytesField(tag, s)| <= i && i + |tail| == hi <= |pre| && dAtA[..] == Window(pre, i, hi, tail)
    modifies dAtA
    ensures j == i - |BytesField(tag, s)| && dAtA[..] == Window(pre, j, hi, BytesField(tag, s) + tail)
  {
    if s == [] {
      assert BytesField(tag, s) + tail == tail;
      return i;
    }
    j := PutLengthPrefixed(dAtA, i, hi, tag, s, pre, tail);
  }

  // ---------------------------------------------------------------- what the bytes mean

  /** The number whose digits to base 128 are the low seven bits of each byte, least significant first. */
  function Base128(s: Str): nat { if s == [] then 0 else s[0] % 128 + 128 * Base128(s[1..]) }

  /** The top bit is set on all bytes but the last, and the last is no superfluous zero. */
  predicate IsVarint(s: Str)
  {
    && s != [] && s[|s| - 1] < 128 && (|s| > 1 ==> s[|s| - 1] > 0)
    && forall i :: 0 <= i < |s| - 1 ==> s[i] >= 128
  }

  lemma {:induction false} VarintMeaning(v: nat)
    ensures Base128(VarintBytes(v)) == v && IsVarint(VarintBytes(v))
  {
    if v >= 128 {
      var rest := VarintBytes(v / 128);
      VarintMeaning(v / 128);
      assert VarintBytes(v)[1..] == rest;
      assert forall i :: 1 <= i < |rest| + 1 ==> VarintBytes(v)[i] == rest[i - 1];
    }
  }

  /** A 64-bit number takes ten bytes exactly when its top bit is set. */
  lemma TenBytes(v: nat)
    requires v < TWO64
    ensures |VarintBytes(v)| == 10 <==> v >= TWO63
    ensures |VarintBytes(v)| <= 10
  {
    hide VarintBytes;
    var q := v / 128 / 128 / 128 / 128;
    var r := q / 128 / 128 / 128 / 128;
    FourBytes(v);
    FourBytes(q);
    OneByteMore(r);
    OneByteMore(r / 128);
    assert r / 128 < 128 && (r >= 128 <==> v >= TWO63);
  }

  lemma FourBytes(v: nat)
    ensures v / 128 / 128 / 128 >= 128 ==>
              |VarintBytes(v)| == 4 + |VarintBytes(v / 128 / 128 / 128 / 128)|
    ensures v / 128 / 128 / 128 < 128 ==> |VarintBytes(v)| <= 4
  {
    hide VarintBytes;
    OneByteMore(v);
    OneByteMore(v / 128);
    OneByteMore(v / 128 / 128);
    OneByteMore(v / 128 / 128 / 128);
  }

  lemma OneByteMore(v: nat)
    ensures |VarintBytes(v)| == if v >= 128 then 1 + |VarintBytes(v / 128)| else 1
  { }

  /** One field as it stands on the wire: a number, or a piece of bytes with its length in front. */
  datatype Record = Number(field: nat, value: nat) | Piece(field: nat, bytes: Str)

  /** The tag is eight times the field number, plus the wire type: 0 for a number, 2 for a piece. */
  function RecordBytes(r: Record): Str
  {
    match r
    case Number(f, v) => VarintBytes(8 * f) + VarintBytes(v)
    case Piece(f, b) => VarintBytes(8 * f + 2) + VarintBytes(|b|) + b
  }

  function MessageBytes(rs: seq<Record>): Str
  {
    if rs == [] then [] else RecordBytes(rs[0]) + MessageBytes(rs[1..])
  }

  lemma {:induction false} MessageConcat(a: seq<Record>, b: seq<Record>)
    ensures MessageBytes(a + b) == MessageBytes(a) + MessageBytes(b)
  {
    hide RecordBytes;
    if a == [] {
      assert a + b == b;
    } else {
      MessageConcat(a[1..], b);
      assert (a + b)[1..] == a[1..] + b && (a + b)[0] == a[0];
      var first := RecordBytes(a[0]);
      assert first + (MessageBytes(a[1..]) + MessageBytes(b)) == (first + MessageBytes(a[1..])) + MessageBytes(b);
    }
  }

  /** A number that is not zero, as the field's residue modulo 2^64. */
  function NumberRecord(f: nat, x: int): seq<Record> { if x == 0 then [] else [Number(f, x % TWO64)] }

  /** Bytes that are not empty. */
  function PieceRecord(f: nat, b: Str): seq<Record> { if b == [] then [] else [Piece(f, b)] }

  lemma NumberField(f: nat, tag: byte, x: int, v: nat)
    requires f < 16 && tag == 8 * f && -TWO63 <= x < TWO64 && v == if x < 0 then x + TWO64 else x
    ensures VarintField(tag, v) == MessageBytes(NumberRecord(f, x))
  {
    assert VarintBytes(8 * f) == [tag];
    assert x % TWO64 == v;
    if x != 0 { OneRecord(NumberRecord(f, x)); }
  }

  lemma PieceField(f: nat, tag: byte, b: Str)
    requires f < 16 && tag == 8 * f + 2
    ensures BytesField(tag, b) == MessageBytes(PieceRecord(f, b))
    ensures [tag] + LengthPrefixed(b) == RecordBytes(Piece(f, b)) == MessageBytes([Piece(f, b)])
  {
    hide MessageBytes;
    NoRecords();
    assert VarintBytes(8 * f + 2) == [tag];
    OneRecord([Piece(f, b)]);
    assert [tag] + LengthPrefixed(b) == [tag] + VarintBytes(|b|) + b;
  }

  lemma NoRecords()
    ensures MessageBytes([]) == []
  { }

  lemma OneRecord(rs: seq<Record>)
    requires |rs| == 1
    ensures MessageBytes(rs) == RecordBytes(rs[0])
  {
    assert rs[1..] == [];
  }
}
