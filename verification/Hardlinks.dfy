/** Hard links through a filtered walk: naming them by inode, re-rooting those whose first name
    was filtered away, and validating the result. */
module HardLinking {
  import opened Bytes
  import opened Paths
  import opened Stats

  /** What lstat says about a path on which the walk calls mkstat: the stat without a link name,
      the inode, its link count, the target of a symbolic link; and whether the filter keeps it. */
  datatype Source = Source(path: Str, stat: Stat, ino: nat, nlink: nat, target: Str, kept: bool) {
    /** Neither a directory nor a symbolic link. */
    predicate Plain() { !IsDir(stat) && !IsSymlink(stat) }
  }

  /** A file system: one stat type per inode, a count of at least two for an inode with two names,
      every path once. */
  ghost predicate Consistent(fs: seq<Source>)
  {
    && (forall i :: 0 <= i < |fs| ==> fs[i].path != [] && fs[i].stat.path == fs[i].path && fs[i].stat.linkname == [])
    && (forall i, j :: 0 <= i < j < |fs| ==> fs[i].path != fs[j].path)
    && (forall i, j :: 0 <= i < j < |fs| && !IsDir(fs[i].stat) && !IsDir(fs[j].stat) && fs[i].ino == fs[j].ino ==>
          fs[i].Plain() == fs[j].Plain() && fs[i].nlink > 1 && fs[j].nlink > 1)
  }

  // ---------------------------------------------------------------- reference

  /** The first name of an inode. */
  function Leader(fs: seq<Source>, ino: nat): Option<Str>
  {
    if fs == [] then None
    else
      var last := fs[|fs| - 1];
      var before := Leader(fs[..|fs| - 1], ino);
      if before.Some? then before else if !IsDir(last.stat) && last.ino == ino then Some(last.path) else None
  }

  /** The first name of an inode that the filter keeps. */
  function KeptLeader(fs: seq<Source>, ino: nat): Option<Str>
  {
    if fs == [] then None
    else
      var last := fs[|fs| - 1];
      var before := KeptLeader(fs[..|fs| - 1], ino);
      if before.Some? then before else if last.kept && last.Plain() && last.ino == ino then Some(last.path) else None
  }

  /** The link name entry k should carry: that of the first kept name of its inode, if it is not that itself. */
  function LinkOf(fs: seq<Source>, k: nat): Str
    requires k < |fs|
  {
    var f := fs[k];
    if IsDir(f.stat) then []
    else if IsSymlink(f.stat) then f.target
    else match KeptLeader(fs[..k], f.ino) case Some(p) => p case None => []
  }

  function Expected(fs: seq<Source>): seq<Entry>
  {
    if fs == [] then []
    else
      var k := |fs| - 1;
      Expected(fs[..k]) + if fs[k].kept then [Entry(fs[k].path, fs[k].stat.(linkname := LinkOf(fs, k)))] else []
  }

  // ---------------------------------------------------------------- the three stages

  /** mkstat with the inode map of one walk. */
  class StatMaker {
    var seenFiles: map<nat, Str>

    constructor ()
      ensures seenFiles == map[]
    {
      seenFiles := map[];
    }

    /** setUnixOpt: the first name of an inode is remembered, later ones link to it. */
    method SetUnixOpt(f: Source, stat: Stat) returns (stat': Stat)
      modifies this
      ensures IsDir(f.stat) ==> stat' == stat && seenFiles == old(seenFiles)
      ensures !IsDir(f.stat) && f.nlink > 1 && f.ino in old(seenFiles) ==>
                stat' == stat.(linkname := old(seenFiles)[f.ino], size := 0) && seenFiles == old(seenFiles)
      ensures !IsDir(f.stat) && !(f.nlink > 1 && f.ino in old(seenFiles)) ==>
                stat' == stat && seenFiles == old(seenFiles)[f.ino := f.path]
    {
      stat' := stat;
      if !IsDir(f.stat) {
        var linked := false;
        if f.nlink > 1 {
          if f.ino in seenFiles {
            stat' := stat'.(linkname := seenFiles[f.ino], size := 0);
            linked := true;
          }
        }
        if !linked {
          seenFiles := seenFiles[f.ino := f.path];
        }
      }
    }

    /** The size and a symbolic link's target are set last. */
    method MkStat(f: Source) returns (stat: Stat)
      requires f.stat.linkname == []
      modifies this
      ensures stat == f.stat.(linkname := stat.linkname)
      ensures IsDir(f.stat) ==> stat.linkname == [] && seenFiles == old(seenFiles)
      ensures IsSymlink(f.stat) && !IsDir(f.stat) ==> stat.linkname == f.target
      ensures !IsDir(f.stat) && f.nlink > 1 && f.ino in old(seenFiles) ==>
                (f.Plain() ==> stat.linkname == old(seenFiles)[f.ino]) && seenFiles == old(seenFiles)
      ensures !IsDir(f.stat) && !(f.nlink > 1 && f.ino in old(seenFiles)) ==>
                (f.Plain() ==> stat.linkname == []) && seenFiles == old(seenFiles)[f.ino := f.path]
    {
      stat := SetUnixOpt(f, f.stat);
      if !IsDir(f.stat) {
        stat := stat.(size := f.stat.size);
        if IsSymlink(f.stat) {
          stat := stat.(linkname := f.target);
        }
      }
    }
  }

  /** hardlinkFilter: links whose first name is missing are re-rooted at the first one present. */
  class HardlinkFilter {
    var seenFiles: map<Str, Str>

    constructor ()
      ensures seenFiles == map[]
    {
      seenFiles := map[];
    }

    method Visit(path: Str, stat: Stat) returns (stat': Stat)
      modifies this
      ensures (IsDir(stat) || IsSymlink(stat)) ==> stat' == stat && seenFiles == old(seenFiles)
      ensures !IsDir(stat) && !IsSymlink(stat) ==>
                && stat' == stat.(linkname := if stat.linkname == [] || stat.linkname !in old(seenFiles) then []
                                              else if old(seenFiles)[stat.linkname] != stat.path
                                              then old(seenFiles)[stat.linkname] else stat.linkname)
                && seenFiles == (if stat.linkname == [] || stat.linkname in old(seenFiles) then old(seenFiles)
                                 else old(seenFiles)[stat.linkname := stat.path])[path := stat.path]
    {
      stat' := stat;
      if IsDir(stat) || IsSymlink(stat) {
        return;
      }
      if stat.linkname != [] {
        if stat.linkname !in seenFiles {
          seenFiles := seenFiles[stat.linkname := stat.path];
          stat' := stat.(linkname := []);
        } else {
          var v := seenFiles[stat.linkname];
          if v != stat.path {
            stat' := stat.(linkname := v);
          }
        }
      }
      seenFiles := seenFiles[path := stat.path];
    }
  }

  /** Hardlinks: validates that the target of every link came before it. */
  class Hardlinks {
    var seenFiles: set<Str>

    constructor ()
      ensures seenFiles == {}
    {
      seenFiles := {};
    }

    method HandleChange(kind: ChangeKind, p: Str, stat: Stat) returns (ok: bool)
      modifies this
      ensures ok <==> kind == Delete || IsDir(stat) || IsSymlink(stat) || stat.linkname == [] ||
                      stat.linkname in old(seenFiles)
      ensures seenFiles == old(seenFiles) +
                if kind != Delete && !IsDir(stat) && !IsSymlink(stat) && stat.linkname == [] then {p} else {}
    {
      if kind == Delete || IsDir(stat) || IsSymlink(stat) {
        return true;
      }
      if stat.linkname != [] {
        return stat.linkname in seenFiles;
      }
      seenFiles := seenFiles + {p};
      return true;
    }
  }

  predicate IsPlain(stat: Stat) { !IsDir(stat) && !IsSymlink(stat) }

  /** Entry j is a file of its own under this path. */
  predicate OwnFile(u: seq<Entry>, j: nat, path: Str)
  {
    j < |u| && IsPlain(u[j].stat) && u[j].stat.linkname == [] && u[j].path == path
  }

  /** One of the first n entries is a file of its own under this path. */
  ghost predicate OwnedBy(u: seq<Entry>, n: nat, path: Str) { exists j: nat :: j < n && OwnFile(u, j, path) }

  /** Every link names an earlier file of its own. */
  ghost predicate LinksKnown(u: seq<Entry>)
  {
    forall i: nat :: i < |u| && IsPlain(u[i].stat) && u[i].stat.linkname != [] ==> OwnedBy(u, i, u[i].stat.linkname)
  }

  /** The validator accepts a whole stream of Adds exactly when every link is resolved by then. */
  method ValidateLinks(u: seq<Entry>) returns (ok: bool)
    ensures ok <==> LinksKnown(u)
  {
    var v := new Hardlinks();
    for i := 0 to |u|
      invariant fresh(v)
      invariant forall p :: p in v.seenFiles <==> OwnedBy(u, i, p)
      invariant forall k: nat :: k < i && IsPlain(u[k].stat) && u[k].stat.linkname != [] ==>
                  OwnedBy(u, k, u[k].stat.linkname)
    {
      ok := v.HandleChange(Add, u[i].path, u[i].stat);
      if !ok {
        return;
      }
      forall p ensures OwnedBy(u, i + 1, p) <==> OwnedBy(u, i, p) || OwnFile(u, i, p) { }
    }
    return true;
  }

  // ---------------------------------------------------------------- the pipeline

  /** The inode map knows the first names. */
  ghost predicate NamesKnown(fs: seq<Source>, seen: map<nat, Str>)
  {
    forall ino: nat :: if ino in seen then Leader(fs, ino) == Some(seen[ino]) else Leader(fs, ino).None?
  }

  /** The filter's map leads from the first name of an inode to its first kept name. */
  ghost predicate RootsKnown(fs: seq<Source>, seen: map<Str, Str>)
  {
    && (forall p :: p in seen ==> exists i :: 0 <= i < |fs| && fs[i].path == p)
    && (forall i :: 0 <= i < |fs| && fs[i].Plain() ==>
          var c := Leader(fs, fs[i].ino);
          var k := KeptLeader(fs, fs[i].ino);
          c.Some? && if c.value in seen then k == Some(seen[c.value]) else k.None?)
  }

  /** The validator knows the first kept names. */
  ghost predicate TargetsKnown(fs: seq<Source>, seen: set<Str>)
  {
    forall ino: nat :: KeptLeader(fs, ino).Some? ==> KeptLeader(fs, ino).value in seen
  }

  lemma {:induction false} LeaderIsName(fs: seq<Source>, ino: nat)
    requires Leader(fs, ino).Some?
    ensures exists i :: 0 <= i < |fs| && fs[i].path == Leader(fs, ino).value && fs[i].ino == ino && !IsDir(fs[i].stat)
  {
    var k := |fs| - 1;
    if Leader(fs[..k], ino).Some? {
      LeaderIsName(fs[..k], ino);
      var i :| 0 <= i < k && fs[..k][i].path == Leader(fs, ino).value && fs[..k][i].ino == ino && !IsDir(fs[..k][i].stat);
      assert fs[i] == fs[..k][i];
    }
  }

  lemma {:induction false} KeptLeaderIsName(fs: seq<Source>, ino: nat)
    requires KeptLeader(fs, ino).Some?
    ensures exists i :: 0 <= i < |fs| && fs[i].path == KeptLeader(fs, ino).value && fs[i].ino == ino
                     && fs[i].kept && fs[i].Plain()
  {
    var k := |fs| - 1;
    if KeptLeader(fs[..k], ino).Some? {
      KeptLeaderIsName(fs[..k], ino);
      var i :| 0 <= i < k && fs[..k][i].path == KeptLeader(fs, ino).value && fs[..k][i].ino == ino
            && fs[..k][i].kept && fs[..k][i].Plain();
      assert fs[i] == fs[..k][i];
    }
  }

  lemma {:induction false} HasLeader(fs: seq<Source>, i: nat)
    requires i < |fs| && !IsDir(fs[i].stat)
    ensures Leader(fs, fs[i].ino).Some?
  {
    var k := |fs| - 1;
    if i < k { HasLeader(fs[..k], i); }
  }

  lemma {:induction false} KeptHasLeader(fs: seq<Source>, ino: nat)
    requires KeptLeader(fs, ino).Some?
    ensures Leader(fs, ino).Some?
  {
    var k := |fs| - 1;
    if KeptLeader(fs[..k], ino).Some? { KeptHasLeader(fs[..k], ino); }
  }

  /** One more entry. */
  lemma Extend(fs: seq<Source>, k: nat, ino: nat)
    requires k < |fs|
    ensures Leader(fs[..k + 1], ino) == (if Leader(fs[..k], ino).Some? then Leader(fs[..k], ino)
                                         else if !IsDir(fs[k].stat) && fs[k].ino == ino then Some(fs[k].path) else None)
    ensures KeptLeader(fs[..k + 1], ino) == (if KeptLeader(fs[..k], ino).Some? then KeptLeader(fs[..k], ino)
                                             else if fs[k].kept && fs[k].Plain() && fs[k].ino == ino
                                             then Some(fs[k].path) else None)
  {
    assert fs[..k + 1][..k] == fs[..k];
  }

  /** An earlier name of the same inode has the same type, and both have a link count of two or more. */
  lemma Shared(fs: seq<Source>, k: nat)
    requires Consistent(fs) && k < |fs| && !IsDir(fs[k].stat)
    ensures Leader(fs[..k], fs[k].ino).Some? ==>
              && fs[k].nlink > 1 && Leader(fs[..k], fs[k].ino).value != []
              && (exists i :: 0 <= i < k && fs[i].path == Leader(fs[..k], fs[k].ino).value && fs[i].ino == fs[k].ino
                           && fs[i].Plain() == fs[k].Plain())
    ensures KeptLeader(fs[..k], fs[k].ino).Some? ==> Leader(fs[..k], fs[k].ino).Some?
  {
    var ino := fs[k].ino;
    if Leader(fs[..k], ino).Some? {
      LeaderIsName(fs[..k], ino);
      var i :| 0 <= i < k && fs[..k][i].path == Leader(fs[..k], ino).value && fs[..k][i].ino == ino
            && !IsDir(fs[..k][i].stat);
      assert fs[i] == fs[..k][i];
    }
    if KeptLeader(fs[..k], ino).Some? { KeptHasLeader(fs[..k], ino); }
  }

  lemma NameStep(fs: seq<Source>, k: nat, seen: map<nat, Str>, seen': map<nat, Str>)
    requires Consistent(fs) && k < |fs| && NamesKnown(fs[..k], seen)
    requires if IsDir(fs[k].stat) || (fs[k].nlink > 1 && fs[k].ino in seen) then seen' == seen
             else seen' == seen[fs[k].ino := fs[k].path]
    ensures NamesKnown(fs[..k + 1], seen')
    ensures !IsDir(fs[k].stat) && fs[k].ino in seen ==> fs[k].nlink > 1
  {
    if !IsDir(fs[k].stat) { Shared(fs, k); }
    forall ino: nat
      ensures if ino in seen' then Leader(fs[..k + 1], ino) == Some(seen'[ino]) else Leader(fs[..k + 1], ino).None?
    {
      Extend(fs, k, ino);
    }
  }

  /** The filter's map after entry k, whose stat names the first path of its inode. */
  function RootsAfter(seen: map<Str, Str>, f: Source, link: Str): map<Str, Str>
  {
    if !f.kept || !f.Plain() then seen
    else (if link == [] || link in seen then seen else seen[link := f.path])[f.path := f.path]
  }

  lemma RootStep(fs: seq<Source>, k: nat, seen: map<Str, Str>, link: Str)
    requires Consistent(fs) && k < |fs| && RootsKnown(fs[..k], seen)
    requires fs[k].Plain() ==>
               link == (match Leader(fs[..k], fs[k].ino) case Some(c) => c case None => [])
    ensures RootsKnown(fs[..k + 1], RootsAfter(seen, fs[k], link))
    ensures fs[k].Plain() ==>
              (if link != [] && link in seen then KeptLeader(fs[..k], fs[k].ino) == Some(seen[link])
               else KeptLeader(fs[..k], fs[k].ino).None?)
  {
    var p, q, f := fs[..k], fs[..k + 1], fs[k];
    var seen' := RootsAfter(seen, f, link);
    if f.Plain() { Rooted(fs, k, seen, link); }
    forall s | s in seen' ensures exists i :: 0 <= i < |q| && q[i].path == s {
      if s == f.path {
        assert q[k].path == s;
      } else if s in seen {
        var i :| 0 <= i < |p| && p[i].path == s;
        assert q[i].path == s;
      } else {
        var i :| 0 <= i < k && fs[i].path == link;
        assert q[i].path == s;
      }
    }
    forall i | 0 <= i < |q| && q[i].Plain()
      ensures Leader(q, q[i].ino).Some?
      ensures (var c := Leader(q, q[i].ino).value;
               if c in seen' then KeptLeader(q, q[i].ino) == Some(seen'[c]) else KeptLeader(q, q[i].ino).None?)
    {
      OtherRoot(fs, k, seen, link, i);
    }
  }

  /** What entry k finds in the map. */
  lemma Rooted(fs: seq<Source>, k: nat, seen: map<Str, Str>, link: Str)
    requires Consistent(fs) && k < |fs| && RootsKnown(fs[..k], seen) && fs[k].Plain()
    requires link == (match Leader(fs[..k], fs[k].ino) case Some(c) => c case None => [])
    ensures if link != [] && link in seen then KeptLeader(fs[..k], fs[k].ino) == Some(seen[link])
            else KeptLeader(fs[..k], fs[k].ino).None?
    ensures link != [] ==> exists i :: 0 <= i < k && fs[i].path == link
    ensures fs[k].path !in seen
  {
    Shared(fs, k);
    var p := fs[..k];
    if link != [] {
      var i :| 0 <= i < k && fs[i].path == link && fs[i].ino == fs[k].ino && fs[i].Plain();
      assert p[i] == fs[i];
    }
    assert forall i :: 0 <= i < |p| ==> p[i] == fs[i] && p[i].path != fs[k].path;
  }

  /** The first names of two inodes differ. */
  lemma LeadersDiffer(fs: seq<Source>, a: nat, b: nat)
    requires (forall i, j :: 0 <= i < j < |fs| ==> fs[i].path != fs[j].path) && a != b
    requires Leader(fs, a).Some? && Leader(fs, b).Some?
    ensures Leader(fs, a) != Leader(fs, b)
  {
    LeaderIsName(fs, a);
    LeaderIsName(fs, b);
  }

  lemma OtherRoot(fs: seq<Source>, k: nat, seen: map<Str, Str>, link: Str, i: nat)
    requires Consistent(fs) && k < |fs| && RootsKnown(fs[..k], seen) && i <= k && fs[i].Plain()
    requires fs[k].Plain() ==>
               link == (match Leader(fs[..k], fs[k].ino) case Some(c) => c case None => [])
    ensures (var q := fs[..k + 1];
             var seen' := RootsAfter(seen, fs[k], link);
             Leader(q, fs[i].ino).Some?
             && var c := Leader(q, fs[i].ino).value;
                if c in seen' then KeptLeader(q, fs[i].ino) == Some(seen'[c]) else KeptLeader(q, fs[i].ino).None?)
  {
    hide Leader, KeptLeader;
    var p, q, f := fs[..k], fs[..k + 1], fs[k];
    Extend(fs, k, fs[i].ino);
    if i < k {
      assert p[i] == fs[i];
      HasLeader(p, i);
    }
    if f.Plain() {
      Rooted(fs, k, seen, link);
      Shared(fs, k);
      if i < k && fs[i].ino != f.ino {
        LeaderIsName(p, fs[i].ino);
        if Leader(p, f.ino).Some? { LeadersDiffer(p, fs[i].ino, f.ino); }
      }
    }
  }

  function TargetsAfter(seen: set<Str>, f: Source, link: Str): set<Str>
  {
    seen + if f.kept && f.Plain() && link == [] then {f.path} else {}
  }

  lemma TargetStep(fs: seq<Source>, k: nat, seen: set<Str>)
    requires Consistent(fs) && k < |fs| && TargetsKnown(fs[..k], seen)
    ensures TargetsKnown(fs[..k + 1], TargetsAfter(seen, fs[k], LinkOf(fs, k)))
    ensures fs[k].Plain() && LinkOf(fs, k) != [] ==> LinkOf(fs, k) in seen
  {
    hide KeptLeader, Leader;
    var seen' := TargetsAfter(seen, fs[k], LinkOf(fs, k));
    if fs[k].Plain() && KeptLeader(fs[..k], fs[k].ino).Some? {
      KeptLeaderIsName(fs[..k], fs[k].ino);
    }
    var q := fs[..k + 1];
    forall ino: nat | KeptLeader(q, ino).Some? ensures KeptLeader(q, ino).value in seen' {
      Extend(fs, k, ino);
    }
  }

  /** The three stages over a whole walk, in any filtering: every link is accepted, and each kept
      file carries the link name the reference gives it. */
  method Pipeline(fs: seq<Source>) returns (out: seq<Entry>, accepted: bool)
    requires Consistent(fs)
    ensures accepted && out == Expected(fs)
  {
    hide Leader, KeptLeader, Consistent, NamesKnown, RootsKnown, TargetsKnown;
    var maker := new StatMaker();
    var filter := new HardlinkFilter();
    var validator := new Hardlinks();
    out, accepted := [], true;
    Nothing();
    assert fs[..0] == [];
    for k := 0 to |fs|
      invariant fresh(maker) && fresh(filter) && fresh(validator)
      invariant NamesKnown(fs[..k], maker.seenFiles) && RootsKnown(fs[..k], filter.seenFiles)
      invariant TargetsKnown(fs[..k], validator.seenFiles)
      invariant accepted && out == Expected(fs[..k])
    {
      var f := fs[k];
      Facts(fs, k, maker.seenFiles);
      ghost var names, targets := maker.seenFiles, validator.seenFiles;
      var stat := maker.MkStat(f);
      NameStep(fs, k, names, maker.seenFiles);
      RootStep(fs, k, filter.seenFiles, stat.linkname);
      TargetStep(fs, k, targets);
      OneMore(fs, k);
      if f.kept {
        stat := filter.Visit(f.path, stat);
        assert stat == f.stat.(linkname := LinkOf(fs, k));
        var ok := validator.HandleChange(Add, f.path, stat);
        accepted := accepted && ok;
        out := out + [Entry(f.path, stat)];
      }
      assert validator.seenFiles == TargetsAfter(targets, f, LinkOf(fs, k));
    }
    assert fs[..|fs|] == fs;
  }

  lemma Nothing()
    ensures NamesKnown([], map[]) && RootsKnown([], map[]) && TargetsKnown([], {}) && Expected([]) == []
  { }

  lemma OneMore(fs: seq<Source>, k: nat)
    requires k < |fs|
    ensures (Expected(fs[..k + 1])
             == Expected(fs[..k]) + if fs[k].kept then [Entry(fs[k].path, fs[k].stat.(linkname := LinkOf(fs, k)))] else [])
  {
    assert fs[..k + 1][..k] == fs[..k];
  }

  lemma Facts(fs: seq<Source>, k: nat, seen: map<nat, Str>)
    requires Consistent(fs) && k < |fs| && NamesKnown(fs[..k], seen)
    ensures fs[k].stat.path == fs[k].path && fs[k].path != [] && fs[k].stat.linkname == []
    ensures fs[k].Plain() && fs[k].ino in seen ==>
              fs[k].nlink > 1 && seen[fs[k].ino] != [] && Leader(fs[..k], fs[k].ino) == Some(seen[fs[k].ino])
    ensures fs[k].Plain() && fs[k].ino !in seen ==> Leader(fs[..k], fs[k].ino).None?
    ensures (fs[k].Plain() && KeptLeader(fs[..k], fs[k].ino).Some? ==>
               KeptLeader(fs[..k], fs[k].ino).value != fs[k].path && KeptLeader(fs[..k], fs[k].ino).value != [])
  {
    if fs[k].Plain() {
      Shared(fs, k);
      if KeptLeader(fs[..k], fs[k].ino).Some? {
        KeptLeaderIsName(fs[..k], fs[k].ino);
        var i :| 0 <= i < |fs[..k]| && fs[..k][i].path == KeptLeader(fs[..k], fs[k].ino).value;
        assert fs[i] == fs[..k][i];
      }
    }
  }

  // ---------------------------------------------------------------- what the names mean

  /** The file that entry k of the result stands for: itself, or the one it links to. */
  function FileOf(fs: seq<Source>, k: nat): Str
    requires k < |fs|
  {
    if LinkOf(fs, k) == [] then fs[k].path else LinkOf(fs, k)
  }

  lemma {:induction false} LeaderStays(fs: seq<Source>, k: nat, ino: nat)
    requires k <= |fs| && KeptLeader(fs[..k], ino).Some?
    ensures KeptLeader(fs, ino) == KeptLeader(fs[..k], ino)
    decreases |fs| - k
  {
    if k == |fs| {
      assert fs[..k] == fs;
    } else {
      Extend(fs, k, ino);
      LeaderStays(fs, k + 1, ino);
    }
  }

  lemma FileIsLeader(fs: seq<Source>, k: nat)
    requires Consistent(fs) && k < |fs| && fs[k].kept && fs[k].Plain()
    ensures KeptLeader(fs, fs[k].ino) == Some(FileOf(fs, k))
  {
    var ino := fs[k].ino;
    Extend(fs, k, ino);
    LeaderStays(fs, k + 1, ino);
    if KeptLeader(fs[..k], ino).Some? {
      KeptLeaderIsName(fs[..k], ino);
    }
  }

  /** Two kept files are one file in the result exactly when they share an inode. */
  lemma LinkedIffSameInode(fs: seq<Source>, i: nat, j: nat)
    requires Consistent(fs) && i < |fs| && j < |fs|
    requires fs[i].kept && fs[i].Plain() && fs[j].kept && fs[j].Plain()
    ensures FileOf(fs, i) == FileOf(fs, j) <==> fs[i].ino == fs[j].ino
  {
    FileIsLeader(fs, i);
    FileIsLeader(fs, j);
    KeptLeaderIsName(fs, fs[i].ino);
    KeptLeaderIsName(fs, fs[j].ino);
  }

  /** Entry k of the walk as the result should show it. */
  function Shown(fs: seq<Source>, k: nat): Entry
    requires k < |fs|
  {
    Entry(fs[k].path, fs[k].stat.(linkname := LinkOf(fs, k)))
  }

  /** Entry j is the first kept one of the inode among the first n. */
  ghost predicate FirstKept(fs: seq<Source>, n: nat, ino: nat, j: nat)
  {
    && j < n <= |fs| && fs[j].kept && fs[j].Plain() && fs[j].ino == ino
    && forall i :: 0 <= i < j ==> !(fs[i].kept && fs[i].Plain() && fs[i].ino == ino)
  }

  ghost predicate NoneKept(fs: seq<Source>, n: nat, ino: nat)
    requires n <= |fs|
  {
    forall i :: 0 <= i < n ==> !(fs[i].kept && fs[i].Plain() && fs[i].ino == ino)
  }

  lemma {:induction false} LeaderIsFirst(fs: seq<Source>, n: nat, ino: nat)
    requires n <= |fs|
    ensures (match KeptLeader(fs[..n], ino)
             case Some(p) => exists j: nat :: FirstKept(fs, n, ino, j) && fs[j].path == p
             case None => NoneKept(fs, n, ino))
  {
    if n > 0 {
      assert fs[..n][..n - 1] == fs[..n - 1];
      LeaderIsFirst(fs, n - 1, ino);
      if KeptLeader(fs[..n - 1], ino).Some? {
        var j: nat :| FirstKept(fs, n - 1, ino, j) && Some(fs[j].path) == KeptLeader(fs[..n - 1], ino);
        assert FirstKept(fs, n, ino, j);
      } else if KeptLeader(fs[..n], ino).Some? {
        assert FirstKept(fs, n, ino, n - 1);
      }
    }
  }

  /** What a result entry links to: a directory to nothing, a symbolic link to its own target, any other file to
      the first kept name of its inode if that came before it, and to nothing if it is that itself. */
  lemma ShownLink(fs: seq<Source>, k: nat)
    requires k < |fs|
    ensures (var f, link := fs[k], Shown(fs, k).stat.linkname;
             && Shown(fs, k).path == f.path && Shown(fs, k).stat == f.stat.(linkname := link)
             && (IsDir(f.stat) ==> link == [])
             && (!IsDir(f.stat) && IsSymlink(f.stat) ==> link == f.target)
             && (f.Plain() ==>
                   || (link == [] && NoneKept(fs, k, f.ino))
                   || exists j: nat :: FirstKept(fs, k, f.ino, j) && link == fs[j].path))
  {
    LeaderIsFirst(fs, k, fs[k].ino);
  }

  lemma ShownStays(fs: seq<Source>, n: nat, k: nat)
    requires k < n <= |fs|
    ensures fs[..n][k] == fs[k] && Shown(fs[..n], k) == Shown(fs, k)
  {
    assert fs[..n][..k] == fs[..k];
  }

  /** The result shows every kept entry, */
  lemma {:induction false} KeptIsShown(fs: seq<Source>, k: nat)
    requires k < |fs| && fs[k].kept
    ensures Shown(fs, k) in Expected(fs)
  {
    var n := |fs| - 1;
    if k < n {
      ShownStays(fs, n, k);
      KeptIsShown(fs[..n], k);
    }
  }

  /** and nothing else. */
  lemma {:induction false} ShownIsKept(fs: seq<Source>, e: Entry) returns (k: nat)
    requires e in Expected(fs)
    ensures k < |fs| && fs[k].kept && e == Shown(fs, k)
  {
    k := |fs| - 1;
    if e in Expected(fs[..k]) {
      var n := k;
      k := ShownIsKept(fs[..n], e);
      ShownStays(fs, n, k);
    }
  }
}
