/** The difference of two sorted walks, with the suppression of deletes below a removed directory. */
module Diffing {
  import opened Bytes
  import opened Paths
  import opened Stats
  import opened DiskWriting

  datatype Differ = DiffMetadata | DiffNone | DiffContent

  /** filter: the stat map of the receiver. content: what opening and reading a path gives. */
  datatype Config = Config(filter: StatMap, differ: Differ, content: Str -> Str)

  /** The stats agree: in mode, owner, device numbers and link name, and in size and time unless they are
      of a directory. */
  predicate Agree(a: Stat, b: Stat)
  {
    && a.mode == b.mode && a.uid == b.uid && a.gid == b.gid
    && a.devmajor == b.devmajor && a.devminor == b.devminor && a.linkname == b.linkname
    && (IsDir(b) || (a.size == b.size && a.modTime == b.modTime))
  }

  /** Lower entry a and upper stat b, after filtering, both at a.path, are to count as the same. */
  predicate SameFile(cfg: Config, a: Entry, b: Stat)
  {
    && cfg.differ != DiffNone && Agree(a.stat, b)
    && (cfg.differ == DiffContent ==> cfg.content(a.path) == cfg.content(a.path))
  }

  const COMPARE_CHUNK := 32 * 1024

  /** compareFileContent: chunk by chunk, until both files end. */
  method CompareFileContent(f1: Str, f2: Str) returns (same: bool)
    ensures same <==> f1 == f2
  {
    var i := 0;
    while true
      invariant 0 <= i <= |f1| && i <= |f2| && f1[..i] == f2[..i]
      decreases |f1| - i
    {
      var n1 := if |f1| - i < COMPARE_CHUNK then |f1| - i else COMPARE_CHUNK;
      var n2 := if |f2| - i < COMPARE_CHUNK then |f2| - i else COMPARE_CHUNK;
      if n1 != n2 || f1[i..i + n1] != f2[i..i + n2] {
        assert f1 == f2 ==> |f1| == |f2|;
        return false;
      }
      if n1 == 0 {
        assert f1 == f1[..i] && f2 == f2[..i];
        return true;
      }
      assert f1[..i + n1] == f1[..i] + f1[i..i + n1] && f2[..i + n1] == f2[..i] + f2[i..i + n1];
      i := i + n1;
    }
  }

  /** compareStat. */
  method CompareStat(a: Stat, b: Stat) returns (same: bool)
    ensures same <==> a.mode == b.mode && a.uid == b.uid && a.gid == b.gid && a.devmajor == b.devmajor &&
                      a.devminor == b.devminor && a.linkname == b.linkname
  {
    if a.mode != b.mode || a.uid != b.uid || a.gid != b.gid {
      return false;
    }
    return a.devmajor == b.devmajor && a.devminor == b.devminor && a.linkname == b.linkname;
  }

  /** sameFile. */
  method CompareFiles(cfg: Config, a: Entry, b: Stat) returns (same: bool)
    ensures same <==> SameFile(cfg, a, b)
  {
    if cfg.differ == DiffNone {
      return false;
    }
    if !IsDir(a.stat) {
      if a.stat.size != b.size {
        return false;
      }
      if a.stat.modTime != b.modTime {
        return false;
      }
    }
    same := CompareStat(a.stat, b);
    if !same || cfg.differ == DiffMetadata {
      return;
    }
    same := CompareFileContent(cfg.content(a.path), cfg.content(a.path));
  }

  function Filtered(cfg: Config, e: Entry): Stat { cfg.filter(e.path, e.stat) }

  /** pathChange on the heads of the two walks; at least one is present. */
  function PathChange(lower: Option<Entry>, upper: Option<Entry>): ChangeKind
    requires lower.Some? || upper.Some?
  {
    if lower.None? then Add
    else if upper.None? then Delete
    else if Before(lower.value.path, upper.value.path) then Delete
    else if lower.value.path == upper.value.path then Modify
    else Add
  }

  function Head<T>(s: seq<T>): Option<T> { if s == [] then None else Some(s[0]) }

  /** The prefix that marks a removed directory's contents. */
  function DirPrefix(p: Str): Str { p + [SEP] }

  /** One round of the merge: what is emitted, the new rmdir, and which heads are used up. */
  datatype Turn = Turn(emit: seq<Change>, rmdir: Str, tookLower: bool, tookUpper: bool)

  function Decide(cfg: Config, lower: Option<Entry>, upper: Option<Entry>, rmdir: Str): Turn
    requires lower.Some? || upper.Some?
  {
    match PathChange(lower, upper)
    case Add => Turn([Change(Add, upper.value.path, upper.value.stat)], [], false, true)
    case Delete =>
      var p := lower.value.path;
      if rmdir != [] && rmdir <= p then Turn([], rmdir, true, false)
      else
        Turn([Change(Delete, p, EMPTY_STAT)],
             if rmdir == [] && IsDir(lower.value.stat) then DirPrefix(p) else [], true, false)
    case Modify =>
      var stat := Filtered(cfg, upper.value);
      Turn(if SameFile(cfg, lower.value, stat) then [] else [Change(Modify, upper.value.path, upper.value.stat)],
           if IsDir(lower.value.stat) && !IsDir(stat) then DirPrefix(lower.value.path) else [], true, true)
  }

  function Rest(s: seq<Entry>, took: bool): seq<Entry>
    requires took ==> s != []
  {
    if took then s[1..] else s
  }

  /** The change stream for lower l and upper u, with rmdir the prefix being suppressed. */
  function Merge(cfg: Config, l: seq<Entry>, u: seq<Entry>, rmdir: Str): seq<Change>
    decreases |l| + |u|
  {
    if l == [] && u == [] then []
    else
      var t := Decide(cfg, Head(l), Head(u), rmdir);
      t.emit + Merge(cfg, Rest(l, t.tookLower), Rest(u, t.tookUpper), t.rmdir)
  }

  /** Both entries of a Modify have one path, and it is read twice: comparing contents finds no more differences
      than comparing metadata. */
  lemma {:induction false} ContentComparesNothing(cfg: Config, l: seq<Entry>, u: seq<Entry>, rmdir: Str)
    ensures Merge(cfg.(differ := DiffContent), l, u, rmdir) == Merge(cfg.(differ := DiffMetadata), l, u, rmdir)
    decreases |l| + |u|
  {
    hide IsDir, Before, Agree;
    if l != [] || u != [] {
      var t := Decide(cfg.(differ := DiffMetadata), Head(l), Head(u), rmdir);
      ContentComparesNothing(cfg, Rest(l, t.tookLower), Rest(u, t.tookUpper), t.rmdir);
    }
  }

  /** A channel of walk entries; None once it is closed and drained. */
  type Chan = Option<seq<Entry>>

  /** nextPath: the next entry, or None when the channel is exhausted. */
  method NextPath(c: seq<Entry>) returns (e: Option<Entry>, rest: seq<Entry>)
    ensures e == Head(c)
    ensures rest == if c == [] then [] else c[1..]
  {
    if c == [] {
      return None, [];
    }
    return Some(c[0]), c[1..];
  }

  /** What a side still has to offer: the entry in hand, then the channel. */
  function Pending(f: Option<Entry>, c: Chan): seq<Entry>
  {
    (if f.Some? then [f.value] else []) + (if c.Some? then c.value else [])
  }

  /** The switch of the merge loop. */
  method TakeTurn(cfg: Config, f1: Option<Entry>, f2: Option<Entry>, rmdir: Str) returns (t: Turn)
    requires f1.Some? || f2.Some?
    ensures t == Decide(cfg, f1, f2, rmdir)
  {
    var next := rmdir;
    match PathChange(f1, f2) {
      case Add =>
        if next != [] {
          next := [];
        }
        return Turn([Change(Add, f2.value.path, f2.value.stat)], next, false, true);
      case Delete =>
        if next != [] && next <= f1.value.path {
          return Turn([], next, true, false);
        } else if next == [] && IsDir(f1.value.stat) {
          next := DirPrefix(f1.value.path);
        } else if next != [] {
          next := [];
        }
        return Turn([Change(Delete, f1.value.path, EMPTY_STAT)], next, true, false);
      case Modify =>
        var same := CompareFiles(cfg, f1.value, Filtered(cfg, f2.value));
        if IsDir(f1.value.stat) && !IsDir(Filtered(cfg, f2.value)) {
          next := DirPrefix(f1.value.path);
        } else if next != [] {
          next := [];
        }
        return Turn(if same then [] else [Change(Modify, f2.value.path, f2.value.stat)], next, true, true);
    }
  }

  /** The merge loop of doubleWalkDiff: the walks arrive on channels, one entry of each is held. */
  method DoubleWalkDiff(cfg: Config, a: seq<Entry>, b: seq<Entry>) returns (changes: seq<Change>)
    ensures changes == Merge(cfg, a, b, [])
  {
    var c1: Chan, c2: Chan := Some(a), Some(b);
    var f1: Option<Entry>, f2: Option<Entry> := None, None;
    var rmdir: Str := [];
    changes := [];
    assert Pending(f1, c1) == a && Pending(f2, c2) == b;
    ghost var all := Merge(cfg, a, b, []);
    while c1.Some? || c2.Some?
      invariant c1.None? ==> f1.None?
      invariant c2.None? ==> f2.None?
      invariant changes + Merge(cfg, Pending(f1, c1), Pending(f2, c2), rmdir) == all
      decreases |Pending(f1, c1)| + |Pending(f2, c2)| + (if c1.Some? then 1 else 0) + (if c2.Some? then 1 else 0)
    {
      ghost var l, u := Pending(f1, c1), Pending(f2, c2);
      f1, c1 := Refill(f1, c1);
      f2, c2 := Refill(f2, c2);
      if f1.None? && f2.None? {
        continue;
      }
      var t := TakeTurn(cfg, f1, f2, rmdir);
      MergeTurn(cfg, l, u, rmdir, changes);
      f1 := if t.tookLower then None else f1;
      f2 := if t.tookUpper then None else f2;
      PendingRest(f1, c1, l, t.tookLower);
      PendingRest(f2, c2, u, t.tookUpper);
      changes, rmdir := changes + t.emit, t.rmdir;
    }
  }

  lemma PendingRest(f: Option<Entry>, c: Chan, l: seq<Entry>, took: bool)
    requires if took then l != [] && f.None? && l == Pending(Some(l[0]), c) else l == Pending(f, c)
    ensures Pending(f, c) == Rest(l, took)
  { }

  lemma MergeTurn(cfg: Config, l: seq<Entry>, u: seq<Entry>, rmdir: Str, done: seq<Change>)
    requires l != [] || u != []
    ensures var t := Decide(cfg, Head(l), Head(u), rmdir);
      (done + t.emit) + Merge(cfg, Rest(l, t.tookLower), Rest(u, t.tookUpper), t.rmdir)
        == done + Merge(cfg, l, u, rmdir)
  { }

  /** Takes the next entry in hand, or notes that the channel is closed. */
  method Refill(f: Option<Entry>, c: Chan) returns (f': Option<Entry>, c': Chan)
    requires c.None? ==> f.None?
    ensures Pending(f', c') == Pending(f, c) && f' == Head(Pending(f, c))
    ensures c'.None? ==> f'.None?
    ensures f'.None? ==> c'.None?
    ensures c.None? ==> c'.None?
  {
    if f.None? && c.Some? {
      var e, rest := NextPath(c.value);
      return e, if e.None? then None else Some(rest);
    }
    return f, c;
  }
}
