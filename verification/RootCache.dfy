/** The reference-counted LRU of directory handles. */
module RootCaching {
  import opened Bytes
  import opened Paths
  import opened Roots
  import opened Recency

  const DEFAULT_SIZE := 128

  class CacheEntry {
    const path: Str
    const root: Handle
    var refs: int
    var evicted: bool
    var listed: bool  // the entry holds a list element
    var closeErr: bool

    constructor (path: Str, root: Handle)
      ensures this.path == path && this.root == root && refs == 0 && !evicted && !listed && !closeErr
    {
      this.path, this.root, refs, evicted, listed, closeErr := path, root, 0, false, false, false;
    }

    /** The handle has been closed once when the entry is evicted and no lease holds it, and never
        otherwise. */
    ghost predicate Settled()
      reads this, root
    {
      && root.closes == (if evicted && refs == 0 then 1 else 0)
      && (root.closes == 0 ==> !closeErr)
    }

    /** closeRootCacheEntry: an error is remembered and not retried. */
    method Close() returns (err: bool)
      requires root.closes == 0 ==> !closeErr
      modifies this`closeErr, root
      ensures root.closes == old(root.closes) + (if old(closeErr) then 0 else 1)
      ensures err == closeErr && (closeErr <==> old(closeErr) || root.faulty)
    {
      if closeErr {
        return true;
      }
      err := root.Close();
      closeErr := err;
    }

    /** A lease ends: the last one closes the handle of an evicted entry. */
    method Unref() returns (err: bool)
      requires Settled() && refs >= 1
      modifies this, root
      ensures Settled() && refs == old(refs) - 1 && evicted == old(evicted) && listed == old(listed)
      ensures err ==> refs == 0 && evicted
    {
      err := false;
      refs := refs - 1;
      if refs == 0 && evicted {
        err := Close();
      }
    }

    /** The entry leaves the cache: its handle is closed unless it is leased. */
    method Evict() returns (err: bool)
      requires Settled() && !evicted
      modifies this, root
      ensures Settled() && refs == old(refs) && evicted && !listed
      ensures err <==> refs == 0 && root.faulty
    {
      listed := false;
      evicted := true;
      err := false;
      if refs == 0 {
        err := Close();
      }
    }
  }

  class Lease {
    const root: Handle
    const base: Str
    const entry: CacheEntry
    const cache: RootCache
    var released: bool

    constructor (root: Handle, base: Str, entry: CacheEntry, cache: RootCache)
      ensures this.root == root && this.base == base && this.entry == entry && this.cache == cache && !released
    {
      this.root, this.base, this.entry, this.cache, released := root, base, entry, cache, false;
    }

    /** Gives the handle back; a second call does nothing. */
    method Release() returns (err: bool)
      requires cache.Valid() && this in cache.leases
      modifies this, entry, root, cache`held
      ensures cache.Valid() && released && cache.held == old(cache.held) - {this}
      ensures old(released) ==> !err && root.closes == old(root.closes)
    {
      hide Shape, Denote, Of, cache.FlagsOk, cache.CountsOk, cache.LeasesOk, entry.Settled;
      LeaseKnown();
      if released {
        return false;
      }
      released := true;
      cache.held := cache.held - {this};
      LeaseGone(this);
      err := entry.Unref();
      CountDrops(this);
    }

    lemma Known(c: RootCache)
      requires c.Valid() && this in c.leases
      ensures cache == c && entry in c.all && root == entry.root
    { }

    lemma LeaseKnown()
      requires cache.Valid() && this in cache.leases
      ensures entry in cache.all && root == entry.root && (released <==> this !in cache.held)
      ensures !released ==> entry.refs >= 1
      ensures entry.Settled() && forall e :: e in cache.all && e != entry ==> e.root != root
    {
      if !released { assert this in Of(cache.held, entry); }
    }
  }

  twostate lemma LeaseGone(l: Lease)
    requires old(l.cache.LeasesOk()) && l in old(l.cache.leases) && l.released
    requires l.cache.all == old(l.cache.all) && l.cache.leases == old(l.cache.leases)
    requires l.cache.held == old(l.cache.held) - {l}
    requires forall m :: m in l.cache.leases && m != l ==> m.released == old(m.released)
    ensures l.cache.LeasesOk()
  { }

  twostate lemma CountDrops(l: Lease)
    requires old(l.cache.CountsOk()) && l in old(l.cache.held)
    requires l.cache.all == old(l.cache.all) && l.cache.held == old(l.cache.held) - {l}
    requires l.entry.refs == old(l.entry.refs) - 1
    requires forall e :: e in l.cache.all && e != l.entry ==> e.refs == old(e.refs)
    ensures l.cache.CountsOk()
  {
    hide Of;
    Dropped(old(l.cache.held), l, l.cache.all);
  }

  /** The leases of an entry that are still held. */
  ghost function Of(held: set<Lease>, e: CacheEntry): set<Lease>
  {
    set l | l in held && l.entry == e
  }

  lemma Dropped(held: set<Lease>, l: Lease, all: set<CacheEntry>)
    requires l in held
    ensures forall e :: e in all ==> |Of(held - {l}, e)| == |Of(held, e)| - (if e == l.entry then 1 else 0)
  {
    forall e | e in all ensures |Of(held - {l}, e)| == |Of(held, e)| - (if e == l.entry then 1 else 0) {
      assert Of(held - {l}, e) == if e == l.entry then Of(held, e) - {l} else Of(held, e);
    }
  }

  lemma Added(held: set<Lease>, l: Lease, all: set<CacheEntry>)
    requires l !in held
    ensures forall e :: e in all ==> |Of(held + {l}, e)| == |Of(held, e)| + (if e == l.entry then 1 else 0)
  {
    forall e | e in all ensures |Of(held + {l}, e)| == |Of(held, e)| + (if e == l.entry then 1 else 0) {
      assert Of(held + {l}, e) == if e == l.entry then Of(held, e) + {l} else Of(held, e);
    }
  }

  // ---------------------------------------------------------------- map and list

  /** The map and the list hold the same entries, each under its own path; "." is in the map only. */
  ghost predicate Shape(base: CacheEntry, all: set<CacheEntry>, entries: map<Str, CacheEntry>, lru: seq<CacheEntry>)
  {
    && base in all && base.path == CURRENT && CURRENT in entries && entries[CURRENT] == base && base !in lru
    && (forall p :: p in entries ==> entries[p] in all && entries[p].path == p && (p != CURRENT ==> entries[p] in lru))
    && (forall e :: e in lru ==> e in all && e.path != CURRENT && e.path in entries && entries[e.path] == e)
    && (forall i, j :: 0 <= i < j < |lru| ==> lru[i] != lru[j])
    && |lru| + 1 == |entries|
  }

  lemma ShapePush(base: CacheEntry, all: set<CacheEntry>, entries: map<Str, CacheEntry>, lru: seq<CacheEntry>, e: CacheEntry)
    requires Shape(base, all, entries, lru) && e !in all && e.path !in entries
    ensures Shape(base, all + {e}, entries[e.path := e], [e] + lru)
  {
    var l := [e] + lru;
    forall f | f in lru ensures f in l { }
    assert l[0] == e;
  }

  /** The list without its element i. */
  function Dropping<T>(s: seq<T>, i: nat): seq<T>
    requires i < |s|
  {
    s[..i] + s[i + 1..]
  }

  lemma ShapeDrop(base: CacheEntry, all: set<CacheEntry>, entries: map<Str, CacheEntry>, lru: seq<CacheEntry>, i: nat)
    requires Shape(base, all, entries, lru) && i < |lru|
    ensures lru[i].path in entries && Shape(base, all, entries - {lru[i].path}, Dropping(lru, i))
  {
    var e, l := lru[i], Dropping(lru, i);
    assert e in lru;
    assert (entries - {e.path}).Keys == entries.Keys - {e.path};
    assert |entries - {e.path}| == |entries| - 1;
    forall f | f in lru && f != e ensures f in l {
      var j :| 0 <= j < |lru| && lru[j] == f;
      assert f == if j < i then l[j] else l[j - 1];
    }
  }

  lemma ShapeTouch(base: CacheEntry, all: set<CacheEntry>, entries: map<Str, CacheEntry>, lru: seq<CacheEntry>, i: nat)
    requires Shape(base, all, entries, lru) && i < |lru|
    ensures Shape(base, all, entries, [lru[i]] + Dropping(lru, i))
  {
    var e, l := lru[i], [lru[i]] + Dropping(lru, i);
    forall f | f in lru ensures f in l {
      var j :| 0 <= j < |lru| && lru[j] == f;
      assert f == if j < i then l[j + 1] else if j == i then l[0] else l[j];
    }
  }

  /** The paths on the list. */
  ghost function PathsOn(lru: seq<CacheEntry>): (r: seq<Str>)
    ensures |r| == |lru|
  {
    seq(|lru|, i requires 0 <= i < |lru| => lru[i].path)
  }

  lemma PathsDistinct(base: CacheEntry, all: set<CacheEntry>, entries: map<Str, CacheEntry>, lru: seq<CacheEntry>)
    requires Shape(base, all, entries, lru)
    ensures Distinct(PathsOn(lru)) && forall p :: p in PathsOn(lru) <==> p in entries && p != CURRENT
  {
    forall i, j | 0 <= i < j < |lru| ensures PathsOn(lru)[i] != PathsOn(lru)[j] {
      assert lru[i] in lru && lru[j] in lru;
    }
    forall p | p in PathsOn(lru) ensures p in entries && p != CURRENT {
      var i :| 0 <= i < |lru| && PathsOn(lru)[i] == p;
      assert lru[i] in lru;
    }
    forall p | p in entries && p != CURRENT ensures p in PathsOn(lru) {
      var i :| 0 <= i < |lru| && lru[i] == entries[p];
      assert PathsOn(lru)[i] == p;
    }
  }

  /** Moving an entry to the front uses its path. */
  lemma TouchUses(base: CacheEntry, all: set<CacheEntry>, entries: map<Str, CacheEntry>, lru: seq<CacheEntry>, k: nat,
                  size: nat)
    requires Shape(base, all, entries, lru) && k < |lru| <= size
    ensures PathsOn([lru[k]] + Dropping(lru, k)) == Used(PathsOn(lru), lru[k].path, size)
  {
    hide Shape, Without;
    PathsDistinct(base, all, entries, lru);
    MovedPaths(lru, k);
    UsedListed(PathsOn(lru), k, size);
  }

  lemma MovedPaths(lru: seq<CacheEntry>, k: nat)
    requires k < |lru|
    ensures PathsOn([lru[k]] + Dropping(lru, k)) == [PathsOn(lru)[k]] + (PathsOn(lru)[..k] + PathsOn(lru)[k + 1..])
  { }

  /** So does pushing a new one, once what does not fit has been dropped. */
  lemma PushUses(base: CacheEntry, all: set<CacheEntry>, entries: map<Str, CacheEntry>, lru: seq<CacheEntry>,
                 e: CacheEntry, lru': seq<CacheEntry>, size: nat)
    requires Shape(base, all, entries, lru) && e.path !in entries
    requires lru' <= [e] + lru && |lru'| <= size && (|lru'| == |lru| + 1 || |lru'| == size)
    ensures PathsOn(lru') == Used(PathsOn(lru), e.path, size)
  {
    hide Shape, Without;
    PathsDistinct(base, all, entries, lru);
    WithoutNone(PathsOn(lru), e.path);
    assert PathsOn([e] + lru) == [e.path] + PathsOn(lru);
    assert PathsOn(lru') == PathsOn([e] + lru)[..|lru'|];
  }

  /** The prefixes of a path that lead somewhere, from its first i names on. */
  ghost function VisitsFrom(dirs: Dirs, root: DirId, cs: seq<Str>, i: nat): seq<Str>
    requires i <= |cs|
    decreases |cs| - i
  {
    if i == |cs| || Walk(dirs, root, cs[..i + 1]).None? then []
    else [JoinAll(cs[..i + 1])] + VisitsFrom(dirs, root, cs, i + 1)
  }

  /** One more prefix that leads somewhere has been used, or there are no more. */
  lemma VisitStep(dirs: Dirs, root: DirId, cs: seq<Str>, i: nat, s: seq<Str>, size: nat)
    requires i < |cs|
    ensures Walk(dirs, root, cs[..i + 1]).Some? ==>
              (UsedAll(s, VisitsFrom(dirs, root, cs, i), size)
               == UsedAll(Used(s, JoinAll(cs[..i + 1]), size), VisitsFrom(dirs, root, cs, i + 1), size))
    ensures Walk(dirs, root, cs[..i + 1]).None? ==> UsedAll(s, VisitsFrom(dirs, root, cs, i), size) == s
  {
    hide Walk, Used;
    if Walk(dirs, root, cs[..i + 1]).Some? {
      var p := JoinAll(cs[..i + 1]);
      assert ([p] + VisitsFrom(dirs, root, cs, i + 1))[1..] == VisitsFrom(dirs, root, cs, i + 1);
    }
  }

  lemma VisitsEnd(dirs: Dirs, root: DirId, cs: seq<Str>, s: seq<Str>, size: nat)
    ensures UsedAll(s, VisitsFrom(dirs, root, cs, |cs|), size) == s && UsedAll(s, [], size) == s
  { }

  /** The directories that a lookup of a cleaned path uses. */
  ghost function Visits(dirs: Dirs, root: DirId, dir: Str): seq<Str>
  {
    if dir == CURRENT then [] else VisitsFrom(dirs, root, Split(dir), 0)
  }

  /** The directories that a lease on a path uses: those on the way to its parent, unless the cache is closed. */
  ghost function UsedBy(dirs: Dirs, root: DirId, path: Str, closed: bool): seq<Str>
  {
    if closed then [] else Visits(dirs, root, Dir(CleanRoot(path)))
  }

  /** Every entry ever made has a handle of its own, on the directory its path denotes. */
  ghost predicate Denote(base: CacheEntry, all: set<CacheEntry>)
  {
    && (forall e :: e in all ==>
          e.root.dirs == base.root.dirs && Resolve(base.root.dirs, base.root.dir, e.path) == Some(e.root.dir))
    && (forall e, f :: e in all && f in all && e != f ==> e.root != f.root)
  }

  class RootCache {
    const base: CacheEntry
    const maxSize: nat
    var entries: map<Str, CacheEntry>
    var lru: seq<CacheEntry>  // most recently used first
    var closed: bool
    ghost var all: set<CacheEntry>  // every entry ever made
    ghost var leases: set<Lease>  // every lease ever given
    ghost var held: set<Lease>  // those not yet released

    /** Evicted means in neither the map nor the list. */
    ghost predicate FlagsOk()
      reads `lru, `all, all`listed, all`evicted
    {
      forall e :: e in all ==> (e.listed <==> e in lru) && (e.evicted <==> e != base && e !in lru)
    }

    ghost predicate ClosesOk()
      reads `all, all, set e | e in all :: e.root
    {
      forall e :: e in all ==> e.Settled()
    }

    /** refs counts the leases held. */
    ghost predicate CountsOk()
      reads `all, `held, all`refs
    {
      forall e :: e in all ==> e.refs == |Of(held, e)|
    }

    ghost predicate LeasesOk()
      reads `all, `leases, `held, leases`released
    {
      && held <= leases
      && (forall l :: l in leases ==>
            l.entry in all && l.root == l.entry.root && l.cache == this && (l.released <==> l !in held))
    }

    /** What holds in the middle of a call: the list may be over its size. */
    ghost predicate Sound()
      reads `entries, `lru, `all, `leases, `held, all, leases, set e | e in all :: e.root
    {
      && Shape(base, all, entries, lru) && Denote(base, all)
      && FlagsOk() && ClosesOk() && CountsOk() && LeasesOk()
    }

    ghost predicate Valid()
      reads this, all, leases, set e | e in all :: e.root
    {
      && Sound()
      && maxSize >= 1 && |entries| - 1 <= maxSize
      && (closed ==> lru == [])
    }

    constructor (root: Handle, maxSize: int)
      requires root.closes == 0
      ensures Valid() && base.root == root && !closed && leases == held == {} && all == {base} && fresh(base)
      ensures lru == []
      ensures this.maxSize == if maxSize <= 0 then DEFAULT_SIZE else maxSize
    {
      var e := new CacheEntry(CURRENT, root);
      base := e;
      this.maxSize := if maxSize <= 0 then DEFAULT_SIZE else maxSize;
      entries := map[CURRENT := e];
      lru := [];
      closed := false;
      all := {e};
      leases, held := {}, {};
      assert Of({}, e) == {};
    }

    /** Takes element i off the list and the map, and closes its handle unless it is leased. The
        eviction loop and Close share these lines. */
    method Forget(i: nat) returns (err: bool)
      requires Sound() && i < |lru|
      modifies `entries, `lru, all, lru[i].root
      ensures Sound() && lru == Dropping(old(lru), i)
      ensures entries == old(entries) - {old(lru)[i].path}
      ensures forall e :: e in all ==> e.refs == old(e.refs)
    {
      hide Shape, Denote, Of, FlagsOk, LeasesOk;
      var entry := lru[i];
      ShapeDrop(base, all, entries, lru, i);
      ListFacts(base, all, entries, lru, i);
      EntryFacts(entry);
      lru := Dropping(lru, i);
      entries := entries - {entry.path};
      err := entry.Evict();
      FlagDrops(this, entry);
      assert CountsOk();
    }

    lemma EntryFacts(e: CacheEntry)
      requires Sound() && e in all
      ensures e.Settled() && forall f :: f in all && f != e ==> f.root != e.root
      ensures e.evicted <==> e != base && e !in lru
    { }

    method EvictLocked()
      requires Sound()
      modifies `entries, `lru, all, set e | e in all :: e.root
      ensures Sound() && |entries| - 1 <= maxSize
      ensures lru <= old(lru) && (|lru| == |old(lru)| || |lru| == maxSize)
      ensures forall e :: e in all ==> e.refs == old(e.refs)
    {
      hide Sound, Denote;
      Counted();
      while |entries| - 1 > maxSize && lru != []
        invariant Sound()
        invariant |lru| + 1 == |entries|
        invariant lru <= old(lru) && (|lru| == |old(lru)| || |lru| >= maxSize)
        invariant forall e :: e in all ==> e.refs == old(e.refs)
        decreases |lru|
      {
        Owned(|lru| - 1);
        var err := Forget(|lru| - 1);
        Counted();
      }
    }

    /** touchLocked: to the front of the list. */
    method Touch(entry: CacheEntry)
      requires Sound() && entry in all
      modifies `lru
      ensures Sound() && |lru| == |old(lru)|
      ensures !entry.listed ==> lru == old(lru)
      ensures entry.listed ==>
                forall size :: |lru| <= size ==> PathsOn(lru) == Used(PathsOn(old(lru)), entry.path, size)
    {
      hide Denote, Of, Used;
      if entry.listed {
        var k :| 0 <= k < |lru| && lru[k] == entry;
        ShapeTouch(base, all, entries, lru, k);
        forall size | |lru| <= size
          ensures PathsOn([lru[k]] + Dropping(lru, k)) == Used(PathsOn(lru), lru[k].path, size)
        {
          TouchUses(base, all, entries, lru, k, size);
        }
        SameElements(lru, k);
        lru := [entry] + Dropping(lru, k);
      }
    }

    /** A new entry at the front of the list. */
    method Push(path: Str, root: Handle) returns (entry: CacheEntry)
      requires Sound() && path !in entries && path != CURRENT && root.closes == 0 && root.dirs == base.root.dirs
      requires Resolve(base.root.dirs, base.root.dir, path) == Some(root.dir)
      requires forall e :: e in all ==> e.root != root
      modifies `entries, `lru, `all
      ensures Sound() && fresh(entry) && all == old(all) + {entry} && entry.path == path && entry.root == root
      ensures lru == [entry] + old(lru) && entry.refs == 0 && !entry.evicted
    {
      hide Shape, Of, Resolve, Denote, LeasesOk, CountsOk, FlagsOk;
      entry := new CacheEntry(path, root);
      entry.listed := true;
      ShapePush(base, all, entries, lru, entry);
      ShapeFacts(base, all, entries, lru);
      DenoteGrows(base, all, entry);
      NewIsUnleased(entry);
      lru := [entry] + lru;
      entries := entries[path := entry];
      all := all + {entry};
      LeasesGrow(this);
      FlagsGrow(this, entry);
    }

    /** A new entry has no leases. */
    lemma NewIsUnleased(e: CacheEntry)
      requires LeasesOk() && CountsOk() && e !in all && e.refs == 0
      ensures forall f :: f in all + {e} ==> f.refs == |Of(held, f)|
    {
      assert Of(held, e) == {};
    }

    lemma Counted()
      requires Sound()
      ensures |lru| + 1 == |entries|
    { }

    lemma Owned(i: nat)
      requires Sound() && i < |lru|
      ensures lru[i] in all
    { }

    lemma SoundShape()
      requires Sound()
      ensures Shape(base, all, entries, lru)
    { }

    lemma IsListed(p: Str)
      requires Sound() && p in entries && p != CURRENT
      ensures entries[p].listed && entries[p].path == p && entries[p] in all
    { }

    /** The entry under a path, if any, is a live one on the directory the path denotes. */
    lemma Found(p: Str)
      requires Sound() && p in entries
      ensures entries[p] in all && !entries[p].evicted && entries[p].path == p
      ensures Resolve(base.root.dirs, base.root.dir, p) == Some(entries[p].root.dir)
      ensures p == CURRENT || Normal(p)
    {
      var e := entries[p];
      assert e == base || e in lru;
      if p != CURRENT { WalkNames(base.root.dirs, base.root.dir, Split(p)); }
    }

    /** One turn of the walk: from the cache, or by opening a name in the directory reached so far. */
    method Descend(entry: CacheEntry, nextPath: Str, component: Str) returns (nextEntry: CacheEntry?)
      requires Sound() && |entries| - 1 <= maxSize && maxSize >= 1
      requires entry in all && !entry.evicted && nextPath != CURRENT
      requires (Resolve(base.root.dirs, base.root.dir, nextPath)
                == Walk(base.root.dirs, entry.root.dir, Split(component)))
      modifies `entries, `lru, `all, all, set e | e in all :: e.root
      ensures Sound() && |entries| - 1 <= maxSize
      ensures old(all) <= all && fresh(all - old(all)) && forall e :: e in all - old(all) ==> fresh(e.root)
      ensures nextEntry != null <==> Resolve(base.root.dirs, base.root.dir, nextPath).Some?
      ensures nextEntry != null ==> nextEntry in all && nextEntry.path == nextPath && !nextEntry.evicted
      ensures nextEntry != null ==> Resolve(base.root.dirs, base.root.dir, nextPath) == Some(nextEntry.root.dir)
      ensures nextEntry == null ==> lru == old(lru) && entries == old(entries)
      ensures nextEntry != null ==> PathsOn(lru) == Used(PathsOn(old(lru)), nextPath, maxSize)
      ensures nextPath in old(entries) ==> nextEntry == old(entries)[nextPath] && all == old(all)
    {
      hide Sound, Walk, Resolve, Used, PathsOn;
      Counted();
      SoundShape();
      if nextPath in entries { Found(nextPath); }
      if nextPath in entries && !entries[nextPath].evicted {
        nextEntry := entries[nextPath];
        IsListed(nextPath);
        Touch(nextEntry);
        Counted();
      } else {
        OpenEntry(entry);
        var osroot := entry.root.OpenRoot(component);
        if osroot == null {
          return null;
        }
        nextEntry := Push(nextPath, osroot);
        EvictLocked();
        Counted();
        PushUses(base, old(all), old(entries), old(lru), nextEntry, lru, maxSize);
        assert lru[0] == nextEntry;
        Listed(nextEntry);
      }
    }

    method GetDirLocked(dir: Str) returns (entry: CacheEntry?)
      requires Sound() && |entries| - 1 <= maxSize && maxSize >= 1 && CleanedPath(dir)
      modifies `entries, `lru, `all, all, set e | e in all :: e.root
      ensures Sound() && |entries| - 1 <= maxSize
      ensures old(all) <= all && fresh(all - old(all)) && forall e :: e in all - old(all) ==> fresh(e.root)
      ensures entry != null <==> Resolve(base.root.dirs, base.root.dir, dir).Some?
      ensures entry != null ==> entry in all && entry.path == dir && !entry.evicted
      ensures PathsOn(lru) == UsedAll(PathsOn(old(lru)), Visits(base.root.dirs, base.root.dir, dir), maxSize)
    {
      hide Sound, Normal, Walk, Clean, Base, Dir, CleanedPath, Join, PathsOn, Used, UsedAll, VisitsFrom, JoinAll;
      VisitsEnd(base.root.dirs, base.root.dir, Split(dir), PathsOn(lru), maxSize);
      BaseFacts();
      WalkNothing(base.root.dirs, base.root.dir);
      entry := base;
      if dir == CURRENT {
        return;
      }
      var path := CURRENT;
      var components := Split(dir);
      var i := 0;
      while i < |components|
        invariant 0 <= i <= |components|
        invariant Sound() && |entries| - 1 <= maxSize
        invariant old(all) <= all && fresh(all - old(all)) && forall e :: e in all - old(all) ==> fresh(e.root)
        invariant entry != null && entry in all && !entry.evicted && entry.path == path
        invariant if i == 0 then path == CURRENT else path != CURRENT && Split(path) == components[..i]
        invariant Walk(base.root.dirs, base.root.dir, components[..i]) == Some(entry.root.dir)
        invariant (UsedAll(PathsOn(lru), VisitsFrom(base.root.dirs, base.root.dir, components, i), maxSize)
                   == UsedAll(PathsOn(old(lru)), Visits(base.root.dirs, base.root.dir, dir), maxSize))
      {
        var component := components[i];
        var nextPath := if path != CURRENT then Join(path, component) else component;
        NextPath(base.root.dirs, base.root.dir, dir, path, i);
        JoinSplit(nextPath);
        VisitStep(base.root.dirs, base.root.dir, components, i, PathsOn(lru), maxSize);
        entry := Descend(entry, nextPath, component);
        if entry == null {
          return;
        }
        path := nextPath;
        i := i + 1;
      }
      assert components[..|components|] == components;
      JoinSplit(dir);
      JoinSplit(path);
      VisitsEnd(base.root.dirs, base.root.dir, components, PathsOn(lru), maxSize);
    }

    /** A lease on the directory that an uncached lookup of the path's parent reaches, however the
        cache came to hold it. */
    method Get(path: Str) returns (lease: Lease?)
      requires Valid()
      modifies `entries, `lru, `all, `leases, `held, all, set e | e in all :: e.root
      ensures Valid()
      ensures lease != null <==> !closed && Resolve(base.root.dirs, base.root.dir, Dir(CleanRoot(path))).Some?
      ensures lease == null ==> leases == old(leases) && held == old(held)
      ensures lease != null ==> fresh(lease) && lease.cache == this && lease.base == Base(CleanRoot(path))
      ensures lease != null ==> leases == old(leases) + {lease} && held == old(held) + {lease}
      ensures lease != null ==>
                Resolve(base.root.dirs, base.root.dir, Dir(CleanRoot(path))) == Some(lease.root.dir)
      ensures old(all) <= all && fresh(all - old(all)) && forall e :: e in all - old(all) ==> fresh(e.root)
      ensures (PathsOn(lru)
               == UsedAll(PathsOn(old(lru)), UsedBy(base.root.dirs, base.root.dir, path, closed), maxSize))
    {
      hide Sound, Resolve, Clean, CleanedPath, CleanRoot, Dir, Base, PathsOn, Visits;
      var cleaned := CleanRoot(path);
      var dir := Dir(cleaned);
      if closed {
        return null;
      }
      DirIsCleaned(cleaned);
      var entry := GetDirLocked(dir);
      if entry == null {
        return null;
      }
      lease := Grant(entry, Base(cleaned));
    }

    /** refs++ and a new lease. */
    method Grant(entry: CacheEntry, name: Str) returns (lease: Lease)
      requires Sound() && entry in all && !entry.evicted
      modifies `leases, `held, entry`refs
      ensures Sound() && fresh(lease) && lease.cache == this && lease.base == name
      ensures leases == old(leases) + {lease} && held == old(held) + {lease}
      ensures Resolve(base.root.dirs, base.root.dir, entry.path) == Some(lease.root.dir)
    {
      hide Shape, Denote, Of, Resolve, CountsOk, LeasesOk;
      Denoted(entry);
      entry.refs := entry.refs + 1;
      lease := new Lease(entry.root, name, entry, this);
      leases, held := leases + {lease}, held + {lease};
      CountGrows(this, lease);
    }

    lemma Denoted(e: CacheEntry)
      requires Sound() && e in all
      ensures Resolve(base.root.dirs, base.root.dir, e.path) == Some(e.root.dir)
      ensures e.refs >= 0
    { }

    /** Every entry but "." leaves; the handles still leased stay open until their last Release. */
    method Close() returns (err: bool)
      requires Valid()
      modifies `entries, `lru, `closed, all, set e | e in all :: e.root
      ensures Valid() && closed && entries.Keys == {CURRENT} && lru == []
    {
      hide Sound;
      closed := true;
      err := false;
      Counted();
      while exists path :: path in entries && path != CURRENT
        invariant closed && Sound() && |entries| - 1 <= maxSize
        decreases |lru|
      {
        var path :| path in entries && path != CURRENT;
        var k := Position(path);
        Owned(k);
        var err2 := Forget(k);
        err := err || err2;
        Counted();
      }
      Emptied();
    }

    lemma Emptied()
      requires Sound() && forall path :: path in entries ==> path == CURRENT
      ensures entries.Keys == {CURRENT} && lru == []
    {
      assert entries.Keys == {CURRENT};
      assert |entries.Keys| == 1;
    }

    /** The list element of an entry. */
    method Position(path: Str) returns (k: nat)
      requires Sound() && path in entries && path != CURRENT
      ensures k < |lru| && lru[k] == entries[path]
    {
      assert entries[path] in lru;
      k :| 0 <= k < |lru| && lru[k] == entries[path];
    }

    lemma BaseFacts()
      requires Sound()
      ensures base in all && !base.evicted && base.path == CURRENT
    { }

    /** The handle of an entry in the cache is open. */
    lemma OpenEntry(e: CacheEntry)
      requires Sound() && e in all && !e.evicted
      ensures e.root.closes == 0 && e.root.dirs == base.root.dirs
    { }

    lemma Listed(e: CacheEntry)
      requires Sound() && e in all && e in lru
      ensures !e.evicted
    { }
  }

  lemma WalkNothing(dirs: Dirs, root: DirId)
    ensures Walk(dirs, root, []) == Some(root)
  { }

  /** The next name leads on from what the names before it lead to; past a name that leads nowhere there is
      nothing. */
  lemma NextWalk(dirs: Dirs, root: DirId, cs: seq<Str>, i: nat)
    requires i < |cs| && Walk(dirs, root, cs[..i]).Some?
    ensures Walk(dirs, root, cs[..i + 1]) == Walk(dirs, Walk(dirs, root, cs[..i]).value, [cs[i]])
    ensures Walk(dirs, root, cs[..i + 1]).None? ==> Walk(dirs, root, cs).None?
    ensures AllNames(cs[..i])
  {
    hide Walk;
    WalkNames(dirs, root, cs[..i]);
    assert cs[..i + 1] == cs[..i] + [cs[i]];
    WalkConcat(dirs, root, cs[..i], [cs[i]]);
    WalkConcat(dirs, root, cs[..i + 1], cs[i + 1..]);
    assert cs[..i + 1] + cs[i + 1..] == cs;
  }

  /** Behind a first proper name a cleaned path has only proper names. */
  lemma CleanedBehind(dir: Str, i: nat)
    requires CleanedPath(dir) && dir != CURRENT && 0 < i < |Split(dir)| && AllNames(Split(dir)[..i])
    ensures Normal(dir)
  {
    hide Split;
    assert Split(dir)[0] in Split(dir)[..i];
  }

  /** The next prefix of a proper path. */
  lemma NextName(dir: Str, path: Str, i: nat)
    requires Normal(dir) && 0 < i < |Split(dir)| && Split(path) == Split(dir)[..i]
    ensures (var next := Join(path, Split(dir)[i]);
             Split(next) == Split(dir)[..i + 1] && Normal(next) && next != CURRENT)
  {
    hide Clean, Split;
    var cs, c := Split(dir), Split(dir)[i];
    SplitPieces(dir);
    assert c in cs && IsName(c);
    assert cs[..i + 1] == cs[..i] + [c];
    var next := path + [SEP] + c;
    SplitPieceConcat(next, path, c);
    assert forall d :: d in cs[..i + 1] ==> d in cs;
    NormalIsClean(next);
    PathNotEmpty(path, dir, i);
    NotNormal(CURRENT, CURRENT);
  }

  lemma PathNotEmpty(path: Str, dir: Str, i: nat)
    requires Normal(dir) && 0 < i < |Split(dir)| && Split(path) == Split(dir)[..i]
    ensures path != []
  {
    hide Split;
    SplitName([]);
    assert Split(dir)[0] in Split(dir);
  }

  /** What one turn of the walk asks for: the next prefix of the path, which denotes what the next
      name leads to. */
  lemma NextPath(dirs: Dirs, root: DirId, dir: Str, path: Str, i: nat)
    requires CleanedPath(dir) && dir != CURRENT && i < |Split(dir)|
    requires if i == 0 then path == CURRENT else path != CURRENT && Split(path) == Split(dir)[..i]
    requires Walk(dirs, root, Split(dir)[..i]).Some?
    ensures (var c := Split(dir)[i];
             var next := if path != CURRENT then Join(path, c) else c;
             && next != CURRENT
             && (Resolve(dirs, root, next).Some? ==> Split(next) == Split(dir)[..i + 1])
             && Resolve(dirs, root, next) == Walk(dirs, root, Split(dir)[..i + 1])
             && Resolve(dirs, root, next) == Walk(dirs, Walk(dirs, root, Split(dir)[..i]).value, Split(c))
             && (Resolve(dirs, root, next).None? ==> Walk(dirs, root, Split(dir)).None?))
  {
    hide Split, Walk, Join, Normal;
    var cs, c := Split(dir), Split(dir)[i];
    SplitPieces(dir);
    SplitName(c);
    NextWalk(dirs, root, cs, i);
    if i == 0 {
      assert cs[..1] == [c];
      FirstName(dir, c);
    } else {
      CleanedBehind(dir, i);
      NextName(dir, path, i);
    }
  }

  lemma FirstName(dir: Str, c: Str)
    requires CleanedPath(dir) && dir != CURRENT && Split(dir)[0] == c
    ensures c != CURRENT
  {
    hide Split;
    if Normal(dir) { assert c in Split(dir); }
  }

  lemma SameElements<T>(s: seq<T>, i: nat)
    requires i < |s|
    ensures forall x :: x in s <==> x in [s[i]] + Dropping(s, i)
  {
    var l := [s[i]] + Dropping(s, i);
    forall x | x in s ensures x in l {
      var j :| 0 <= j < |s| && s[j] == x;
      assert x == if j < i then l[j + 1] else if j == i then l[0] else l[j];
    }
  }

  lemma ShapeFacts(base: CacheEntry, all: set<CacheEntry>, entries: map<Str, CacheEntry>, lru: seq<CacheEntry>)
    requires Shape(base, all, entries, lru)
    ensures base in all && forall e :: e in lru ==> e in all
  { }

  lemma DenoteGrows(base: CacheEntry, all: set<CacheEntry>, e: CacheEntry)
    requires Denote(base, all) && e.root.dirs == base.root.dirs && forall f :: f in all ==> f.root != e.root
    requires Resolve(base.root.dirs, base.root.dir, e.path) == Some(e.root.dir)
    ensures Denote(base, all + {e})
  { }

  twostate lemma LeasesGrow(c: RootCache)
    requires old(c.LeasesOk()) && old(c.all) <= c.all && c.leases == old(c.leases) && c.held == old(c.held)
    requires forall m :: m in c.leases ==> m.released == old(m.released)
    requires forall e :: e in c.all ==> e.refs == |Of(c.held, e)|
    ensures c.LeasesOk() && c.CountsOk()
  { }

  twostate lemma CountGrows(c: RootCache, new l: Lease)
    requires old(c.LeasesOk()) && old(c.CountsOk())
    requires c.all == old(c.all) && c.leases == old(c.leases) + {l} && c.held == old(c.held) + {l}
    requires l !in old(c.leases) && !l.released && l.cache == c && l.entry in c.all && l.root == l.entry.root
    requires forall m :: m in old(c.leases) ==> m.released == old(m.released)
    requires forall e :: e in c.all ==> e.refs == old(e.refs) + (if e == l.entry then 1 else 0)
    ensures c.LeasesOk() && c.CountsOk()
  {
    hide Of;
    Added(old(c.held), l, c.all);
  }

  twostate lemma FlagsGrow(c: RootCache, new e: CacheEntry)
    requires old(c.FlagsOk()) && c.all == old(c.all) + {e} && c.lru == [e] + old(c.lru)
    requires e.listed && !e.evicted
    requires forall f :: f in old(c.all) ==> f != e && f.listed == old(f.listed) && f.evicted == old(f.evicted)
    ensures c.FlagsOk()
  {
    assert c.lru[0] == e;
    assert forall f :: f in c.lru <==> f == e || f in old(c.lru);
  }

  twostate lemma FlagDrops(c: RootCache, new e: CacheEntry)
    requires old(c.FlagsOk()) && c.all == old(c.all) && e in c.all
    requires !e.listed && e.evicted && e != c.base && e !in c.lru
    requires forall f :: f in c.all && f != e ==>
               f.listed == old(f.listed) && f.evicted == old(f.evicted) && (f in c.lru <==> f in old(c.lru))
    ensures c.FlagsOk()
  { }

  lemma ListFacts(base: CacheEntry, all: set<CacheEntry>, entries: map<Str, CacheEntry>, lru: seq<CacheEntry>, i: nat)
    requires Shape(base, all, entries, lru) && i < |lru|
    ensures base in all && base !in lru && lru[i] in all && lru[i] != base
    ensures forall e :: e in all ==> (e in Dropping(lru, i) <==> e in lru && e != lru[i])
  {
    forall e | e in lru && e != lru[i] ensures e in Dropping(lru, i) {
      var j :| 0 <= j < |lru| && lru[j] == e;
      assert e == if j < i then Dropping(lru, i)[j] else Dropping(lru, i)[j - 1];
    }
  }

  // ---------------------------------------------------------------- what every state keeps

  /** A lease that is held has an open handle, on the directory its entry's path denotes. */
  lemma HeldIsOpen(c: RootCache, l: Lease)
    requires c.Valid() && l in c.held
    ensures l.root.closes == 0
    ensures Resolve(c.base.root.dirs, c.base.root.dir, l.entry.path) == Some(l.root.dir)
  {
    hide Shape, Resolve;
    assert l in Of(c.held, l.entry);
  }

  /** No handle is closed twice; the base handle is never closed. */
  lemma ClosedAtMostOnce(c: RootCache, e: CacheEntry)
    requires c.Valid() && e in c.all
    ensures e.root.closes <= 1 && c.base.root.closes == 0
  {
    hide Denote, Resolve;
  }

  /** After Close and the last Release every handle the cache opened has been closed, exactly once. */
  lemma NothingLeaks(c: RootCache, e: CacheEntry)
    requires c.Valid() && c.closed && c.held == {} && e in c.all && e != c.base
    ensures e.root.closes == 1
  {
    hide Denote, Resolve, Shape;
    assert Of(c.held, e) == {};
  }

  datatype Op = Lookup(path: Str) | Giveback(n: nat) | Shutdown

  /** The directories that an operation uses. */
  ghost function OpUses(dirs: Dirs, root: DirId, op: Op, closed: bool): seq<Str>
  {
    match op
    case Lookup(p) => UsedBy(dirs, root, p, closed)
    case Giveback(n) => []
    case Shutdown => []
  }

  /** The directories that a list of operations uses, in order, up to a shutdown. */
  ghost function AllUses(dirs: Dirs, root: DirId, ops: seq<Op>): seq<Str>
  {
    if ops == [] then []
    else
      var before := ops[..|ops| - 1];
      AllUses(dirs, root, before) + OpUses(dirs, root, ops[|ops| - 1], Shutdown in before)
  }

  lemma NothingUsed(s: seq<Str>, size: nat)
    ensures UsedAll(s, [], size) == s
  { }

  /** One operation, on a cache with its leases. */
  method Apply(cache: RootCache, given: seq<Lease>, op: Op) returns (given': seq<Lease>)
    requires cache.Valid() && (forall l :: l in given <==> l in cache.leases)
    modifies cache, cache.all, cache.leases, set e | e in cache.all :: e.root
    ensures cache.Valid() && (forall l :: l in given' <==> l in cache.leases) && given <= given'
    ensures old(cache.all) <= cache.all && fresh(cache.all - old(cache.all))
    ensures old(cache.leases) <= cache.leases && fresh(cache.leases - old(cache.leases))
    ensures forall e :: e in cache.all - old(cache.all) ==> fresh(e.root)
    ensures cache.closed <==> op.Shutdown? || old(cache.closed)
    ensures !op.Shutdown? ==>
              (PathsOn(cache.lru)
               == UsedAll(PathsOn(old(cache.lru)),
                          OpUses(cache.base.root.dirs, cache.base.root.dir, op, old(cache.closed)), cache.maxSize))
  {
    hide cache.Sound, cache.Valid, Resolve, PathsOn, Used, UsedBy, UsedAll;
    NothingUsed(PathsOn(cache.lru), cache.maxSize);
    given' := given;
    match op
    case Lookup(p) =>
      var lease := cache.Get(p);
      if lease != null { given' := given + [lease]; }
    case Giveback(n) =>
      if n < |given| {
        assert given[n] in cache.leases;
        given[n].Known(cache);
        var err := given[n].Release();
      }
    case Shutdown =>
      var err := cache.Close();
  }

  /** Any run of operations: throughout, held leases are open and the base handle is untouched; and
      after a Shutdown with every lease given back nothing is left open. */
  method Session(root: Handle, maxSize: int, ops: seq<Op>) returns (cache: RootCache, given: seq<Lease>)
    requires root.closes == 0
    modifies root
    ensures cache.Valid() && cache.base.root == root && root.closes == 0
    ensures forall l :: l in given <==> l in cache.leases
    ensures forall l :: l in given && !l.released ==> l.root.closes == 0
    ensures (Shutdown in ops && (forall l :: l in given ==> l.released)
             ==> forall e :: e in cache.all && e != cache.base ==> e.root.closes == 1)
    ensures Shutdown in ops ==> cache.lru == []
    ensures Shutdown !in ops ==> PathsOn(cache.lru) == Take(Recent(AllUses(root.dirs, root.dir, ops)), cache.maxSize)
    ensures cache.maxSize == if maxSize <= 0 then DEFAULT_SIZE else maxSize
  {
    hide RootCache.Valid, RootCache.Sound, Resolve, PathsOn, UsedAll;
    cache := new RootCache(root, maxSize);
    given := [];
    NothingUsed([], cache.maxSize);
    assert PathsOn([]) == [];
    var i := 0;
    while i < |ops|
      invariant 0 <= i <= |ops|
      invariant cache.Valid() && cache.base.root == root && fresh(cache) && fresh(cache.all) && fresh(cache.leases)
      invariant forall e :: e in cache.all && e.root != root ==> fresh(e.root)
      invariant forall l :: l in given <==> l in cache.leases
      invariant cache.closed <==> Shutdown in ops[..i]
      invariant cache.maxSize == if maxSize <= 0 then DEFAULT_SIZE else maxSize
      invariant Shutdown !in ops[..i] ==>
                  PathsOn(cache.lru) == UsedAll([], AllUses(root.dirs, root.dir, ops[..i]), cache.maxSize)
      decreases |ops| - i
    {
      assert ops[..i + 1][..i] == ops[..i];
      UsesGrow(root.dirs, root.dir, ops, i, cache.maxSize);
      given := Apply(cache, given, ops[i]);
      i := i + 1;
    }
    assert ops[..|ops|] == ops;
    if Shutdown in ops { ClosedIsEmpty(cache); }
    HoldsMostRecent(AllUses(root.dirs, root.dir, ops), cache.maxSize);
    Outcome(cache, given, Shutdown in ops);
  }

  lemma ClosedIsEmpty(c: RootCache)
    requires c.Valid() && c.closed
    ensures c.lru == []
  { }

  lemma UsesGrow(dirs: Dirs, root: DirId, ops: seq<Op>, i: nat, size: nat)
    requires i < |ops|
    ensures (UsedAll([], AllUses(dirs, root, ops[..i + 1]), size)
             == UsedAll(UsedAll([], AllUses(dirs, root, ops[..i]), size),
                        OpUses(dirs, root, ops[i], Shutdown in ops[..i]), size))
  {
    hide OpUses;
    assert ops[..i + 1][..i] == ops[..i];
    UsedConcat([], AllUses(dirs, root, ops[..i]), OpUses(dirs, root, ops[i], Shutdown in ops[..i]), size);
  }

  lemma Outcome(c: RootCache, given: seq<Lease>, shutdown: bool)
    requires c.Valid() && (forall l :: l in given <==> l in c.leases) && (shutdown ==> c.closed)
    ensures c.base.root.closes == 0
    ensures forall l :: l in given && !l.released ==> l.root.closes == 0
    ensures (shutdown && (forall l :: l in given ==> l.released)
             ==> forall e :: e in c.all && e != c.base ==> e.root.closes == 1)
  {
    hide Shape, Denote, Of, Resolve;
    c.BaseFacts();
    ClosedAtMostOnce(c, c.base);
    forall l | l in given && !l.released ensures l.root.closes == 0 { HeldIsOpen(c, l); }
    if shutdown && forall l :: l in given ==> l.released {
      assert c.held == {};
      forall e | e in c.all && e != c.base ensures e.root.closes == 1 { NothingLeaks(c, e); }
    }
  }
}
