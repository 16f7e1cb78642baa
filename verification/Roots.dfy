/** Directory handles on an unchanging tree: what a path denotes, and what opening and closing do. */
module Roots {
  import opened Bytes
  import opened Paths

  /** A directory's identity; two paths may lead to the same one. */
  type DirId = nat

  /** The directory that a name in a directory stands for. No component is a symbolic link: a link could lead
      out of an open subdirectory while staying inside the base. */
  type Dirs = map<(DirId, Str), DirId>

  /** Component by component; a name that is no proper name leads nowhere. */
  function Walk(dirs: Dirs, from: DirId, cs: seq<Str>): Option<DirId>
    decreases |cs|
  {
    if cs == [] then Some(from)
    else
      var last := cs[|cs| - 1];
      match Walk(dirs, from, cs[..|cs| - 1])
      case None => None
      case Some(n) => if IsName(last) && (n, last) in dirs then Some(dirs[(n, last)]) else None
  }

  /** What an uncached lookup of a cleaned path reaches. */
  function Resolve(dirs: Dirs, root: DirId, p: Str): Option<DirId>
  {
    if p == CURRENT then Some(root) else Walk(dirs, root, Split(p))
  }

  lemma {:induction false} WalkConcat(dirs: Dirs, from: DirId, a: seq<Str>, b: seq<Str>)
    ensures Walk(dirs, from, a + b)
         == (match Walk(dirs, from, a) case None => None case Some(n) => Walk(dirs, n, b))
    decreases |b|
  {
    if b == [] {
      assert a + b == a;
    } else {
      var c := b[..|b| - 1];
      WalkConcat(dirs, from, a, c);
      assert (a + b)[..|a + b| - 1] == a + c;
    }
  }

  /** Only proper names lead anywhere. */
  lemma {:induction false} WalkNames(dirs: Dirs, from: DirId, cs: seq<Str>)
    requires Walk(dirs, from, cs).Some?
    ensures AllNames(cs)
    decreases |cs|
  {
    if cs != [] {
      WalkNames(dirs, from, cs[..|cs| - 1]);
      assert cs == cs[..|cs| - 1] + [cs[|cs| - 1]];
    }
  }

  /** cleanRootPath. */
  function CleanRoot(p: Str): Str { if p == [] then CURRENT else Clean(p) }

  /** The components of a cleaned path are proper names, or the first one leads nowhere. */
  ghost predicate CleanedPath(d: Str)
  {
    d == CURRENT || Normal(d) || Split(d)[0] == UP || Split(d)[0] == []
  }

  lemma CleanIsCleaned(p: Str)
    ensures CleanedPath(Clean(p))
  {
    var d := Clean(p);
    var cs := CleanComps(Split(p), IsAbs(p), []);
    CleanOutput(p);
    if IsAbs(p) {
      SplitPieces(d);
    } else if cs != [] {
      SplitJoin(cs);
      if cs[0] != UP { NoUpAfterName(cs, |cs|); }
    }
  }

  lemma DirIsCleaned(p: Str)
    ensures CleanedPath(Dir(p))
  {
    hide Clean, CleanedPath;
    CleanIsCleaned(p[..LastSep(p) + 1]);
  }

  /** An open directory. */
  class Handle {
    const dirs: Dirs
    const dir: DirId
    const faulty: bool  // whether closing it reports an error
    var closes: nat

    constructor (dirs: Dirs, dir: DirId, faulty: bool)
      ensures this.dirs == dirs && this.dir == dir && this.faulty == faulty && closes == 0
    {
      this.dirs, this.dir, this.faulty, closes := dirs, dir, faulty, 0;
    }

    /** Fails on a closed handle, and on a name that leads to no directory within. */
    method OpenRoot(name: Str) returns (h: Handle?)
      ensures h == null <==> closes > 0 || Walk(dirs, dir, Split(name)).None?
      ensures h != null ==> fresh(h) && h.dirs == dirs && h.closes == 0 && Walk(dirs, dir, Split(name)) == Some(h.dir)
    {
      var d := Walk(dirs, dir, Split(name));
      if closes > 0 || d.None? {
        return null;
      }
      var fault: bool := *;
      h := new Handle(dirs, d.value, fault);
    }

    method Close() returns (err: bool)
      modifies this
      ensures closes == old(closes) + 1 && err == faulty
    {
      closes := closes + 1;
      err := faulty;
    }
  }
}
