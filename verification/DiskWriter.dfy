/** Applying one change to the destination tree. */
module DiskWriting {
  import opened Bytes
  import opened Paths
  import opened Stats
  import opened Disk

  /** A stat filter that keeps every entry, its directory bit and its link name. */
  type StatMap = f: (Str, Stat) -> Stat |
    forall p, s :: IsDir(f(p, s)) == IsDir(s) && f(p, s).linkname == s.linkname
    witness (p: Str, s: Stat) => s

  /** A non-directory created with os.Link rather than with content of its own. */
  predicate IsHardLink(s: Stat)
  {
    !IsDir(s) && !IsSpecial(s) && !IsSymlink(s) && s.linkname != []
  }

  /** A file whose content has to be asked for. */
  predicate IsRegular(s: Stat)
  {
    !IsDir(s) && !IsSpecial(s) && !IsSymlink(s) && s.linkname == []
  }

  /** p becomes node; a tree of the other kind in its place goes away first. */
  function Replaced(t: Tree, p: Str, node: Node): Tree
  {
    (if p in t && IsDir(t[p].stat) != IsDir(node.stat) then Without(t, p) else t)[p := node]
  }

  /** The tree after putting stat at c.path. */
  function Put(t: Tree, c: Change, stat: Stat): Option<Tree>
  {
    if c.path !in t && (c.kind == Modify || Obstructed(t, c.path)) then None
    else if IsDir(c.stat) && HasDir(t, c.path) then Some(t[c.path := t[c.path].(stat := stat)])
    else if !HasParent(t, c.path) then None
    else if IsHardLink(c.stat) && !HasFile(t, stat.linkname) then None
    else Some(Replaced(t, c.path, Node(stat, [])))
  }

  /** The tree after a change, or None where the change fails and leaves the tree alone. */
  function Apply(t: Tree, c: Change, filter: StatMap): Option<Tree>
  {
    if c.kind != Delete then Put(t, c, filter(c.path, c.stat))
    else if c.path !in t && Obstructed(t, c.path) then None
    else Some(Without(t, c.path))
  }

  function ApplyAll(t: Tree, cs: seq<Change>, filter: StatMap): Option<Tree>
    decreases |cs|
  {
    if cs == [] then Some(t)
    else
      match Apply(t, cs[0], filter)
      case None => None
      case Some(t') => ApplyAll(t', cs[1..], filter)
  }

  lemma ReplacedWellFormed(t: Tree, p: Str, node: Node)
    requires WellFormed(t) && Acceptable(p) && HasParent(t, p)
    ensures WellFormed(Replaced(t, p, node))
  {
    hide Acceptable, Below, HasParent;
    var r := Replaced(t, p, node);
    NotBelowItself(p);
    forall q, a | q in r && Below(q, a) ensures HasDir(r, a) {
      if q == p {
        ParentCovers(t, p, a);
        if Below(a, p) { BelowTransitive(p, a, p); }
      } else {
        assert HasDir(t, a);
        if Below(a, p) { BelowTransitive(q, a, p); }
      }
    }
  }

  lemma NotBelowItself(p: Str)
    ensures !Below(p, p)
  { }

  /** Whatever a change does to a tree, it leaves a tree. */
  lemma ApplyKeepsTree(t: Tree, c: Change, filter: StatMap)
    requires WellFormed(t) && Acceptable(c.path) && Apply(t, c, filter).Some?
    ensures WellFormed(Apply(t, c, filter).value)
  {
    hide WellFormed, Acceptable, Below;
    if c.kind == Delete {
      WithoutWellFormed(t, c.path);
    } else {
      var stat := filter(c.path, c.stat);
      if IsDir(c.stat) && HasDir(t, c.path) {
        Restated(t, c.path, stat);
      } else {
        ReplacedWellFormed(t, c.path, Node(stat, []));
      }
    }
  }

  lemma Restated(t: Tree, p: Str, stat: Stat)
    requires WellFormed(t) && HasDir(t, p) && IsDir(stat)
    ensures WellFormed(t[p := t[p].(stat := stat)])
  { }

  lemma {:induction false} ApplyAllKeepsTree(t: Tree, cs: seq<Change>, filter: StatMap)
    requires WellFormed(t) && (forall c :: c in cs ==> Acceptable(c.path)) && ApplyAll(t, cs, filter).Some?
    ensures WellFormed(ApplyAll(t, cs, filter).value)
    decreases |cs|
  {
    hide WellFormed, Apply;
    if cs != [] {
      ApplyKeepsTree(t, cs[0], filter);
      ApplyAllKeepsTree(Apply(t, cs[0], filter).value, cs[1..], filter);
    }
  }

  /** What one change does to a tree. A Delete takes the path and everything below it away, and fails on a path
      that is not there if a file stands above it. Anything else needs its path, if it is a Modify, or the
      directory that holds it, and the target, if it is a link; the path then carries the stat, what was below
      it is gone unless it is a directory, and nothing else changes. */
  lemma ApplyMeaning(t: Tree, c: Change, filter: StatMap)
    requires WellFormed(t) && Acceptable(c.path)
    ensures c.kind == Delete ==>
              (Apply(t, c, filter).None? <==> c.path !in t && exists a :: Below(c.path, a) && HasFile(t, a))
    ensures c.kind != Delete ==>
              (Apply(t, c, filter).None? <==>
                 || (c.path !in t && (c.kind == Modify || (c.path != CURRENT && !HasDir(t, DirOf(c.path)))))
                 || (IsHardLink(c.stat) && !HasFile(t, c.stat.linkname)))
    ensures c.kind == Delete && Apply(t, c, filter).Some? ==>
              forall q :: q in Apply(t, c, filter).value <==> q in t && q != c.path && !Below(q, c.path)
    ensures c.kind != Delete && Apply(t, c, filter).Some? ==>
              var t' := Apply(t, c, filter).value;
              && c.path in t' && t'[c.path].stat == filter(c.path, c.stat)
              && t'[c.path].data == (if IsDir(c.stat) && HasDir(t, c.path) then t[c.path].data else [])
              && forall q :: q != c.path ==> (q in t' <==> q in t && (IsDir(c.stat) || !Below(q, c.path)))
    ensures Apply(t, c, filter).Some? ==>
              var t' := Apply(t, c, filter).value;
              forall q :: q != c.path && q in t' ==> q in t && t'[q] == t[q]
  {
    hide Acceptable, Below, WellFormed;
    PresentHasParent(t, c.path);
    AcceptableInside(c.path);
    WayClear(t, c.path);
    NothingBelowFile(t, c.path);
  }

  /** Where the path or the directory that holds it is there, nothing stands in the way. */
  lemma WayClear(t: Tree, p: Str)
    requires WellFormed(t) && Acceptable(p)
    ensures p != CURRENT && HasDir(t, DirOf(p)) ==> !Obstructed(t, p)
    ensures p == CURRENT ==> !Obstructed(t, p)
    ensures Obstructed(t, p) <==> exists a :: Below(p, a) && HasFile(t, a)
  {
    hide Acceptable, Below;
    if p == CURRENT {
      forall a ensures !Below(p, a) { NothingAboveIt(a); }
    } else {
      AcceptableInside(p);
      DirOfProper(p);
    }
  }

  lemma NothingAboveIt(a: Str)
    ensures !Below(CURRENT, a)
  {
    NothingAboveCurrent(a);
  }

  lemma NothingBelowFile(t: Tree, p: Str)
    requires WellFormed(t)
    ensures !HasDir(t, p) ==> forall q :: q in t ==> !Below(q, p)
  { }

  /** The contents a change asks for. */
  function Requests(c: Change): seq<Str>
  {
    if c.kind != Delete && IsRegular(c.stat) then [c.path] else []
  }

  function AllRequests(cs: seq<Change>): seq<Str>
  {
    if cs == [] then [] else Requests(cs[0]) + AllRequests(cs[1..])
  }

  /** An unused name next to p; next to the root that is outside the tree. */
  predicate Temporary(t: Tree, p: Str, tmp: Str)
  {
    && tmp !in t && tmp != p && IsName(Name(tmp)) && Parent(tmp) == (if p == CURRENT then UP else Parent(p))
    && !Below(tmp, p) && !Below(p, tmp)
  }

  class DiskWriter {
    const disk: FileSystem
    const filter: StatMap
    /** Paths handed to the asynchronous data callback, in order. */
    var requested: seq<Str>

    constructor (disk: FileSystem, filter: StatMap)
      ensures this.disk == disk && this.filter == filter && requested == []
    {
      this.disk := disk;
      this.filter := filter;
      requested := [];
    }

    /** Creates the node of a change under newPath. */
    method CreateNode(c: Change, stat: Stat, newPath: Str) returns (err: Option<FsError>, isRegularFile: bool)
      requires newPath !in disk.tree && stat.linkname == c.stat.linkname
      modifies disk
      ensures err.None? <==>
        (HasParent(old(disk.tree), newPath) && (IsHardLink(c.stat) ==> HasFile(old(disk.tree), stat.linkname)))
      ensures disk.tree == if err.Some? then old(disk.tree) else old(disk.tree)[newPath := Node(stat, [])]
      ensures isRegularFile <==> IsRegular(c.stat)
    {
      isRegularFile := false;
      if IsDir(c.stat) {
        err := disk.Create(newPath, Node(stat, []));
      } else if IsSpecial(c.stat) {
        err := disk.Create(newPath, Node(stat, []));
      } else if IsSymlink(c.stat) {
        err := disk.Create(newPath, Node(stat, []));
      } else if stat.linkname != [] {
        err := disk.Link(stat.linkname, newPath, Node(stat, []));
      } else {
        isRegularFile := true;
        err := disk.OpenFile(newPath, Node(stat, []));
      }
      if err.None? {
        disk.SetMetadata(newPath, stat);
      }
    }

    /** Applies one change. tmp is the path of the temporary name next to c.path, which the
        caller guarantees to be unused. */
    method HandleChange(c: Change, tmp: Str) returns (ok: bool)
      requires WellFormed(disk.tree)
      requires Temporary(disk.tree, c.path, tmp)
      modifies this, disk
      ensures ok <==> Apply(old(disk.tree), c, filter).Some?
      ensures disk.tree == if ok then Apply(old(disk.tree), c, filter).value else old(disk.tree)
      ensures requested == if ok then old(requested) + Requests(c) else old(requested)
      ensures Acceptable(c.path) ==> WellFormed(disk.tree)
    {
      ghost var t := disk.tree;
      if Acceptable(c.path) && Apply(t, c, filter).Some? { ApplyKeepsTree(t, c, filter); }
      if c.kind == Delete {
        var err := disk.RemoveAll(c.path);
        return err.None?;
      }
      ok := HandlePut(c, filter(c.path, c.stat), tmp);
    }

    /** The Add and Modify half of HandleChange, with the filtered stat. */
    method HandlePut(c: Change, stat: Stat, tmp: Str) returns (ok: bool)
      requires WellFormed(disk.tree) && c.kind != Delete
      requires Temporary(disk.tree, c.path, tmp)
      requires stat.linkname == c.stat.linkname && IsDir(stat) == IsDir(c.stat)
      modifies this, disk
      ensures ok <==> Put(old(disk.tree), c, stat).Some?
      ensures disk.tree == if ok then Put(old(disk.tree), c, stat).value else old(disk.tree)
      ensures requested == if ok then old(requested) + Requests(c) else old(requested)
    {
      var p := c.path;
      ghost var t := disk.tree;
      var rename := true;
      var node, lerr := disk.Lstat(p);
      if lerr.Some? {
        if lerr.value != NotExist || c.kind != Add {
          return false;
        }
        rename := false;
      }
      if node.Some? && IsDir(c.stat) && IsDir(node.value.stat) {
        disk.SetMetadata(p, stat);
        return true;
      }
      PresentHasParent(t, p);
      if node.Some? { SiblingHasParent(t, p, tmp); }
      var newPath := if rename then tmp else p;
      var cerr, isRegularFile := CreateNode(c, stat, newPath);
      if cerr.Some? {
        return false;
      }
      if rename {
        SwapIn(t, p, tmp, IsDir(node.value.stat) != IsDir(c.stat), Node(stat, []));
      }
      if isRegularFile {
        requested := requested + [p];
      }
      return true;
    }

    /** Moves the finished temporary node into place; t is the tree before it was made. */
    method SwapIn(ghost t: Tree, p: Str, tmp: Str, kindChanged: bool, ghost node: Node)
      requires WellFormed(t) && p in t && HasParent(t, p)
      requires tmp !in t && tmp != p && !Below(tmp, p) && !Below(p, tmp)
      requires disk.tree == t[tmp := node] && kindChanged == (IsDir(t[p].stat) != IsDir(node.stat))
      requires !kindChanged ==> !IsDir(node.stat)
      modifies disk
      ensures disk.tree == Replaced(t, p, node)
    {
      hide WellFormed, Below, HasParent;
      NoChildren(t, tmp);
      NotBelowItself(tmp);
      ghost var base := if kindChanged then Without(t, p) else t;
      if kindChanged {
        var _ := disk.RemoveAll(p);
        WithoutBeside(t, p, tmp, node);
        ParentSurvives(t, p);
      } else {
        NoChildrenOfFile(t, p);
      }
      assert disk.tree == base[tmp := node];
      ParentStays(base, p, tmp, node);
      var err := disk.Rename(tmp, p);
      Swapped(base, p, tmp, node);
    }
  }

  lemma WithoutBeside(t: Tree, p: Str, tmp: Str, node: Node)
    requires tmp !in t && tmp != p && !Below(tmp, p)
    ensures Without(t[tmp := node], p) == Without(t, p)[tmp := node]
  {
    hide Below;
  }

  lemma Swapped(t: Tree, p: Str, tmp: Str, node: Node)
    requires tmp !in t && tmp != p
    ensures t[tmp := node][p := node] - {tmp} == t[p := node]
  { }

  lemma PresentHasParent(t: Tree, p: Str)
    requires WellFormed(t)
    ensures p in t ==> HasParent(t, p)
  {
    hide Acceptable, Below;
    if p in t && p != CURRENT {
      AcceptableInside(p);
      DirOfProper(p);
    }
  }

  lemma SiblingHasParent(t: Tree, p: Str, tmp: Str)
    requires HasParent(t, p) && p in t && WellFormed(t) && Temporary(t, p, tmp)
    ensures HasParent(t, tmp)
  {
    AcceptableInside(p);
    if p == CURRENT { SplitParent(tmp); }
  }

  lemma ParentStays(t: Tree, p: Str, tmp: Str, node: Node)
    requires HasParent(t, p) && tmp !in t
    ensures HasParent(t[tmp := node], p)
  { }

  lemma NoChildren(t: Tree, p: Str)
    requires WellFormed(t) && p !in t
    ensures forall q :: q in t ==> !Below(q, p)
  { }

  lemma NoChildrenOfFile(t: Tree, p: Str)
    requires WellFormed(t) && HasFile(t, p)
    ensures forall q :: q in t ==> !Below(q, p)
  { }

  lemma ParentSurvives(t: Tree, p: Str)
    requires HasParent(t, p) && WellFormed(t) && p in t
    ensures HasParent(Without(t, p), p)
  {
    hide Acceptable, Below;
    if p != CURRENT {
      AcceptableInside(p);
      DirOfProper(p);
      NotBelowItself(p);
      if Below(DirOf(p), p) { BelowTransitive(p, DirOf(p), p); }
    }
  }
}
