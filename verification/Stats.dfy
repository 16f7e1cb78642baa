/** The Stat record that describes one file, the meaning of its mode bits, and changes. */
module Stats {
  import opened Bytes

  type uint32 = x: int | 0 <= x < 0x1_0000_0000

  type int64 = x: int | -0x8000_0000_0000_0000 <= x < 0x8000_0000_0000_0000

  datatype Stat = Stat(
    path: Str,
    mode: uint32,
    uid: uint32,
    gid: uint32,
    size: int64,
    modTime: int64,
    linkname: Str,
    devmajor: int64,
    devminor: int64,
    xattrs: map<Str, Str>)

  const EMPTY_STAT := Stat([], 0, 0, 0, 0, 0, [], 0, 0, map[])

  // Type bits of an os.FileMode, as weights.
  const MODE_DIR := 0x8000_0000
  const MODE_SYMLINK := 0x0800_0000
  const MODE_DEVICE := 0x0400_0000
  const MODE_NAMED_PIPE := 0x0200_0000
  const MODE_SOCKET := 0x0100_0000
  const MODE_CHAR_DEVICE := 0x0020_0000
  const MODE_IRREGULAR := 0x0008_0000

  /** A directory with nothing else set. */
  const DIR_STAT := EMPTY_STAT.(mode := MODE_DIR)

  predicate HasBit(mode: uint32, weight: int)
    requires weight > 0
  {
    mode / weight % 2 == 1
  }

  predicate IsDir(s: Stat) { HasBit(s.mode, MODE_DIR) }

  predicate IsSymlink(s: Stat) { HasBit(s.mode, MODE_SYMLINK) }

  predicate IsSpecial(s: Stat) { HasBit(s.mode, MODE_DEVICE) || HasBit(s.mode, MODE_NAMED_PIPE) }

  /** fileCanRequestData: no type bit is set. */
  predicate CanRequestData(s: Stat)
  {
    && !IsDir(s) && !IsSymlink(s) && !IsSpecial(s)
    && !HasBit(s.mode, MODE_SOCKET) && !HasBit(s.mode, MODE_CHAR_DEVICE) && !HasBit(s.mode, MODE_IRREGULAR)
  }

  /** The bits that two numbers have in common. */
  function And(a: nat, b: nat): nat
  {
    if a == 0 || b == 0 then 0 else 2 * And(a / 2, b / 2) + if a % 2 == 1 && b % 2 == 1 then 1 else 0
  }

  /** os.ModeType: all type bits. */
  const MODE_TYPE := 0x8f28_0000

  lemma AndStep(a: nat, b: nat)
    ensures And(a, 2 * b) == 0 <==> And(a / 2, b) == 0
    ensures And(a, 2 * b + 1) == 0 <==> a % 2 == 0 && And(a / 2, b) == 0
  {
    hide And;
    AndBits(a, 2 * b);
    AndBits(a, 2 * b + 1);
    assert 2 * b / 2 == b && 2 * b % 2 == 0 && (2 * b + 1) / 2 == b && (2 * b + 1) % 2 == 1;
  }

  lemma AndBits(a: nat, b: nat)
    ensures And(a, b) == 0 <==> And(a / 2, b / 2) == 0 && (a % 2 == 0 || b % 2 == 0)
  { }

  lemma AndByte(a: nat, b: nat)
    ensures And(a, 256 * b) == 0 <==> And(a / 256, b) == 0
  {
    hide And;
    AndStep(a, 128 * b);
    AndStep(a / 2, 64 * b);
    AndStep(a / 2 / 2, 32 * b);
    AndStep(a / 2 / 2 / 2, 16 * b);
    AndStep(a / 2 / 2 / 2 / 2, 8 * b);
    AndStep(a / 2 / 2 / 2 / 2 / 2, 4 * b);
    AndStep(a / 2 / 2 / 2 / 2 / 2 / 2, 2 * b);
    AndStep(a / 2 / 2 / 2 / 2 / 2 / 2 / 2, b);
    assert a / 2 / 2 / 2 / 2 / 2 / 2 / 2 / 2 == a / 256;
  }

  lemma Halves(a: nat) returns (b: nat, c: nat, d: nat, e: nat)
    ensures b == a / 2 && c == b / 2 && d == c / 2 && e == d / 2
    ensures c == a / 4 && d == a / 8 && e == a / 16
  {
    b, c, d, e := a / 2, a / 4, a / 8, a / 16;
  }

  /** Half a byte at a time. */
  lemma AndNibble(a: nat, b: nat)
    ensures And(a, 16 * b) == 0 <==> And(a / 16, b) == 0
    ensures And(a, 16 * b + 8) == 0 <==> a / 8 % 2 == 0 && And(a / 16, b) == 0
    ensures And(a, 16 * b + 2) == 0 <==> a / 2 % 2 == 0 && And(a / 16, b) == 0
    ensures And(a, 16 * b + 15) == 0 <==>
              a % 2 == 0 && a / 2 % 2 == 0 && a / 4 % 2 == 0 && a / 8 % 2 == 0 && And(a / 16, b) == 0
  {
    hide And;
    var h, q, e, n := Halves(a);
    AndStep(a, 8 * b);
    AndStep(h, 4 * b);
    AndStep(q, 2 * b);
    AndStep(e, b);
    AndStep(a, 8 * b + 4);
    AndStep(h, 4 * b + 2);
    AndStep(q, 2 * b + 1);
    AndStep(a, 8 * b + 1);
    AndStep(h, 4 * b);
    AndStep(a, 8 * b + 7);
    AndStep(h, 4 * b + 3);
    AndStep(q, 2 * b + 1);
  }

  lemma AndZero(a: nat)
    ensures And(a, 0) == 0
  { }

  /** The type bits, by half-bytes from the lowest: none up to bit 18, then 8, 2, 15 and 8. */
  lemma TypeBits(h: nat)
    ensures And(h, 0x8f28) == 0 <==>
              && h / 8 % 2 == 0 && h / 16 / 2 % 2 == 0
              && h / 256 % 2 == 0 && h / 256 / 2 % 2 == 0 && h / 256 / 4 % 2 == 0 && h / 256 / 8 % 2 == 0
              && h / 4096 / 8 % 2 == 0
  {
    hide And;
    AndNibble(h, 0x8f2);
    AndNibble(h / 16, 0x8f);
    assert h / 16 / 16 == h / 256 && h / 256 / 16 == h / 4096;
    AndNibble(h / 256, 8);
    AndNibble(h / 4096, 0);
    AndZero(h / 4096 / 16);
  }

  lemma Shifted(m: nat)
    ensures (var h := m / 0x1_0000;
             && h / 8 == m / MODE_IRREGULAR && h / 16 / 2 == m / MODE_CHAR_DEVICE && h / 256 == m / MODE_SOCKET
             && h / 256 / 2 == m / MODE_NAMED_PIPE && h / 256 / 4 == m / MODE_DEVICE
             && h / 256 / 8 == m / MODE_SYMLINK && h / 4096 / 8 == m / MODE_DIR)
  { }

  /** A content can be asked for exactly when the mode has no type bit: mode & ModeType == 0. */
  lemma CanRequestExactly(s: Stat)
    ensures CanRequestData(s) <==> And(s.mode, MODE_TYPE) == 0
  {
    hide And;
    AndByte(s.mode, 256 * 0x8f28);
    AndByte(s.mode / 256, 0x8f28);
    assert s.mode / 256 / 256 == s.mode / 0x1_0000;
    TypeBits(s.mode / 0x1_0000);
    Shifted(s.mode);
  }

  datatype ChangeKind = Add | Modify | Delete

  /** One entry of a change stream; the stat of a Delete carries no information. */
  datatype Change = Change(kind: ChangeKind, path: Str, stat: Stat) {
    predicate OpensDir() { kind != Delete && IsDir(stat) }
  }

  /** One entry of a directory walk. */
  datatype Entry = Entry(path: Str, stat: Stat)
}
