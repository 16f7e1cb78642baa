/** The destination as a finite tree of nodes, with the few file-system calls the writer makes. */
module Disk {
  import opened Bytes
  import opened Paths
  import opened Stats

  datatype Node = Node(stat: Stat, data: Str)

  type Tree = map<Str, Node>

  datatype FsError = NotExist | NotDir | Exist | IsDirectory | NotEmpty

  predicate HasDir(t: Tree, p: Str) { p in t && IsDir(t[p].stat) }

  predicate HasFile(t: Tree, p: Str) { p in t && !IsDir(t[p].stat) }

  /** Paths name places in a tree, and what lies above one of them is a directory of the tree. The root,
      if there is one, is the node at ".". */
  ghost predicate WellFormed(t: Tree)
  {
    && (forall p :: p in t ==> Acceptable(p))
    && (forall p, a :: p in t && Below(p, a) ==> HasDir(t, a))
  }

  /** Something on the way to p is not a directory. */
  predicate Obstructed(t: Tree, p: Str)
  {
    exists a :: a in t && Below(p, a) && !IsDir(t[a].stat)
  }

  /** What holds p is a directory; what holds the root is not part of the tree. */
  predicate HasParent(t: Tree, p: Str) { p == CURRENT || Outside(p) || HasDir(t, DirOf(p)) }

  /** The tree without p and everything below it. */
  function Without(t: Tree, p: Str): (r: Tree)
    ensures forall q :: q in r <==> q in t && q != p && !Below(q, p)
    ensures forall q :: q in r ==> r[q] == t[q]
  {
    map q | q in t && q != p && !Below(q, p) :: t[q]
  }

  predicate RenameAllowed(t: Tree, src: Str, dst: Str)
    requires src in t
  {
    && HasParent(t, dst)
    && (dst in t ==> IsDir(t[dst].stat) == IsDir(t[src].stat) && forall q :: q in t ==> !Below(q, dst))
  }

  /** Only what is above matters: a parent that is a directory of a well-formed tree settles all of that. */
  lemma ParentCovers(t: Tree, p: Str, a: Str)
    requires WellFormed(t) && HasParent(t, p) && Acceptable(p) && Below(p, a)
    ensures HasDir(t, a)
  {
    hide Acceptable;
    AcceptableInside(p);
    NothingAboveCurrent(a);
    DirOfProper(p);
  }

  lemma WithoutWellFormed(t: Tree, p: Str)
    requires WellFormed(t)
    ensures WellFormed(Without(t, p))
  {
    hide Acceptable, Below;
    var r := Without(t, p);
    forall q, a | q in r && Below(q, a) ensures HasDir(r, a) {
      assert HasDir(t, a);
      if Below(a, p) { BelowTransitive(q, a, p); }
    }
  }

  /** A mutable directory tree. */
  class FileSystem {
    var tree: Tree

    constructor (t: Tree)
      ensures tree == t
    {
      tree := t;
    }

    method Lstat(p: Str) returns (node: Option<Node>, err: Option<FsError>)
      ensures node.Some? <==> p in tree
      ensures node.Some? ==> node.value == tree[p] && err.None?
      ensures err == if p in tree then None else if Obstructed(tree, p) then Some(NotDir) else Some(NotExist)
    {
      if p in tree {
        return Some(tree[p]), None;
      }
      return None, Some(if Obstructed(tree, p) then NotDir else NotExist);
    }

    /** Removing what is not there succeeds, unless the way to it is obstructed. */
    method RemoveAll(p: Str) returns (err: Option<FsError>)
      modifies this
      ensures err.Some? <==> p !in old(tree) && Obstructed(old(tree), p)
      ensures tree == if err.Some? then old(tree) else Without(old(tree), p)
    {
      if p !in tree && Obstructed(tree, p) {
        return Some(NotDir);
      }
      tree := Without(tree, p);
      return None;
    }

    /** mkdir, mknod and symlink: the new name must be free and its parent a directory. */
    method Create(p: Str, node: Node) returns (err: Option<FsError>)
      modifies this
      ensures err.None? <==> p !in old(tree) && HasParent(old(tree), p)
      ensures tree == if err.Some? then old(tree) else old(tree)[p := node]
    {
      if p in tree {
        return Some(Exist);
      }
      if !HasParent(tree, p) {
        return Some(NotExist);
      }
      tree := tree[p := node];
      return None;
    }

    /** Opens for writing with O_CREATE: an existing file is left as it is. */
    method OpenFile(p: Str, node: Node) returns (err: Option<FsError>)
      modifies this
      ensures err.None? <==> HasFile(old(tree), p) || (p !in old(tree) && HasParent(old(tree), p))
      ensures tree == if err.Some? || p in old(tree) then old(tree) else old(tree)[p := node]
    {
      if p in tree {
        return if IsDir(tree[p].stat) then Some(IsDirectory) else None;
      }
      err := Create(p, node);
    }

    /** link: the target must be a file. The new name is a node of its own here. */
    method Link(target: Str, p: Str, node: Node) returns (err: Option<FsError>)
      modifies this
      ensures err.None? <==> HasFile(old(tree), target) && p !in old(tree) && HasParent(old(tree), p)
      ensures tree == if err.Some? then old(tree) else old(tree)[p := node]
    {
      if target !in tree {
        return Some(NotExist);
      }
      if IsDir(tree[target].stat) {
        return Some(IsDirectory);
      }
      err := Create(p, node);
    }

    /** Rewrites mode, owner, times and extended attributes of an existing node. */
    method SetMetadata(p: Str, stat: Stat)
      requires p in tree
      modifies this
      ensures tree == old(tree)[p := old(tree)[p].(stat := stat)]
    {
      tree := tree[p := tree[p].(stat := stat)];
    }

    /** rename of a node without children onto a free name, a file onto a file, or a
        directory onto an empty one. */
    method Rename(src: Str, dst: Str) returns (err: Option<FsError>)
      requires src in tree && src != dst
      requires forall q :: q in tree ==> !Below(q, src)
      modifies this
      ensures err.None? <==> RenameAllowed(old(tree), src, dst)
      ensures tree == if err.Some? then old(tree) else old(tree)[dst := old(tree)[src]] - {src}
    {
      if !HasParent(tree, dst) {
        return Some(NotExist);
      }
      if dst in tree {
        if IsDir(tree[dst].stat) != IsDir(tree[src].stat) {
          return Some(if IsDir(tree[dst].stat) then IsDirectory else NotDir);
        }
        if exists q :: q in tree && Below(q, dst) {
          return Some(NotEmpty);
        }
      }
      tree := tree[dst := tree[src]] - {src};
      return None;
    }
  }
}
