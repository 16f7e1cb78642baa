/** Replaying the difference of two walks turns the lower tree into the upper one. */
module Syncing {
  import opened Bytes
  import opened Paths
  import opened Stats
  import opened Disk
  import opened DiskWriting
  import opened Diffing

  // ---------------------------------------------------------------- walks

  ghost function PathsOf(s: seq<Entry>): set<Str> { set e | e in s :: e.path }

  ghost predicate DirIn(s: seq<Entry>, a: Str) { exists y :: y in s && y.path == a && IsDir(y.stat) }

  /** Strictly increasing in walk order. */
  ghost predicate Sorted(s: seq<Entry>)
  {
    forall i, j :: 0 <= i < j < |s| ==> Before(s[i].path, s[j].path)
  }

  /** Increasing, except that a directory may be repeated. */
  ghost predicate SortedWithRepeats(s: seq<Entry>)
  {
    forall i, j :: 0 <= i < j < |s| ==> Before(s[i].path, s[j].path) || (s[i] == s[j] && IsDir(s[i].stat))
  }

  /** Every path is proper: what a walk below a root reports. */
  ghost predicate Inner(s: seq<Entry>)
  {
    forall e :: e in s ==> Normal(e.path)
  }

  /** Every path is proper, or ".": what the validators let through. */
  ghost predicate Named(s: seq<Entry>)
  {
    forall e :: e in s ==> Acceptable(e.path)
  }

  /** Every ancestor of an entry is itself an entry, and a directory. */
  ghost predicate Closed(s: seq<Entry>)
  {
    forall e, a :: e in s && Under(e.path, a) ==> DirIn(s, a)
  }

  /** A hard link names an earlier file of the same walk. */
  ghost predicate Linked(s: seq<Entry>)
  {
    forall x :: x in s && IsHardLink(x.stat) ==> FileBefore(s, x.stat.linkname, x.path)
  }

  ghost predicate FileBefore(s: seq<Entry>, target: Str, p: Str)
  {
    exists y :: y in s && y.path == target && !IsDir(y.stat) && Before(target, p)
  }

  /** The walk of a directory tree, without its root. */
  ghost predicate TreeWalk(s: seq<Entry>)
  {
    Sorted(s) && Inner(s) && Closed(s)
  }

  /** s is what walking the tree t reports. */
  ghost predicate Lists(t: Tree, s: seq<Entry>)
  {
    && TreeWalk(s) && HasDir(t, CURRENT) && t.Keys == PathsOf(s) + {CURRENT}
    && forall e :: e in s ==> t[e.path].stat == e.stat
  }

  /** A stream in walk order, possibly with repeated directories, whose parents are all there. */
  ghost predicate Stream(s: seq<Entry>)
  {
    SortedWithRepeats(s) && Named(s) && Closed(s)
  }

  /** A stream the receiver may be fed: its hard links are resolved as well. */
  ghost predicate Feed(s: seq<Entry>)
  {
    Stream(s) && Linked(s)
  }

  /** An entry for the root of the tree, if there is one, is a directory. */
  ghost predicate RootIsDir(s: seq<Entry>)
  {
    forall x :: x in s && x.path == CURRENT ==> IsDir(x.stat)
  }

  /** Hard links point backwards. */
  ghost predicate TargetsEarlier(s: seq<Entry>)
  {
    forall x :: x in s && IsHardLink(x.stat) ==> Before(x.stat.linkname, x.path)
  }

  /** The lower side has the same file at x's path. */
  ghost predicate Matched(cfg: Config, l: seq<Entry>, x: Entry)
  {
    exists e :: e in l && e.path == x.path && SameFile(cfg, e, Filtered(cfg, x))
  }

  /** Every link that has to be made names an earlier file of the stream. */
  ghost predicate Linkable(cfg: Config, l: seq<Entry>, u: seq<Entry>)
  {
    forall x :: x in u && IsHardLink(x.stat) && !Matched(cfg, l, x) ==> FileBefore(u, x.stat.linkname, x.path)
  }

  /** The replay did not fail, and the root is still a directory. */
  ghost predicate Replayed(r: Option<Tree>) { r.Some? && HasDir(r.value, CURRENT) }

  // ---------------------------------------------------------------- invariant of the replay

  predicate Covers(rmdir: Str, p: Str) { rmdir != [] && rmdir <= p }

  /** The upper entries still to come hang below directories already made or still to come. */
  ghost predicate UpperGrounded(t: Tree, done: set<Str>, u: seq<Entry>)
  {
    forall x, a :: x in u && Under(x.path, a) ==> (a in done && HasDir(t, a)) || DirIn(u, a)
  }

  /** The links still to be made name files already made or still to come before them. */
  ghost predicate LinksGrounded(cfg: Config, t: Tree, done: set<Str>, l: seq<Entry>, u: seq<Entry>)
  {
    forall x :: x in u && IsHardLink(x.stat) && !Matched(cfg, l, x) ==> LinkGrounded(t, done, u, x)
  }

  ghost predicate LinkGrounded(t: Tree, done: set<Str>, u: seq<Entry>, x: Entry)
  {
    (x.stat.linkname in done && HasFile(t, x.stat.linkname)) || FileBefore(u, x.stat.linkname, x.path)
  }

  /** An ancestor of a lower entry that the upper side still has is still in the lower side too. */
  ghost predicate LowerGrounded(done: set<Str>, l: seq<Entry>, u: seq<Entry>)
  {
    forall e, a :: e in l && Under(e.path, a) && a in PathsOf(u) ==> a in PathsOf(l) || a in done
  }

  /** Behind the finished paths lie only entries still to come. */
  ghost predicate Ordered(t: Tree, done: set<Str>, l: seq<Entry>, u: seq<Entry>)
  {
    && Sorted(l) && SortedWithRepeats(u) && Inner(l) && Named(u)
    && (forall d, e :: d in done && e in l ==> Before(d, e.path))
    && (forall d, x :: d in done && x in u ==>
          Before(d, x.path) || (d == x.path && IsDir(x.stat) && HasDir(t, d)))
  }

  /** The tree holds the finished paths and, unchanged, some of the lower entries: all those
      the upper side has as well. */
  ghost predicate Holds(t: Tree, done: set<Str>, l: seq<Entry>, u: seq<Entry>)
  {
    && WellFormed(t) && HasDir(t, CURRENT) && done <= t.Keys && t.Keys <= done + PathsOf(l) + {CURRENT}
    && (forall e :: e in l && e.path in t ==> t[e.path].stat == e.stat)
    && (forall e, x :: e in l && x in u && e.path == x.path ==> e.path in t)
  }

  /** A suppressed prefix belongs to a directory already passed; nothing below it is left in
      the tree and nothing below it is still to come from the upper side. */
  ghost predicate Suppressing(t: Tree, l: seq<Entry>, u: seq<Entry>, rmdir: Str)
  {
    rmdir != [] ==>
      var d := rmdir[..|rmdir| - 1];
      && rmdir == DirPrefix(d)
      && (forall e :: e in l ==> Before(d, e.path) && (Under(e.path, d) ==> e.path !in t))
      && (forall x :: x in u ==> Before(d, x.path) && !Under(x.path, d))
  }

  /** The way to every lower entry that is not suppressed is clear. */
  ghost predicate Reachable(t: Tree, l: seq<Entry>, rmdir: Str)
  {
    forall e :: e in l ==> Covers(rmdir, e.path) || !Obstructed(t, e.path)
  }

  /** What holds between rounds, whatever becomes of links and of the root. */
  ghost predicate Footing(t: Tree, done: set<Str>, l: seq<Entry>, u: seq<Entry>, rmdir: Str)
  {
    && Ordered(t, done, l, u) && Holds(t, done, l, u)
    && UpperGrounded(t, done, u) && LowerGrounded(done, l, u)
    && Suppressing(t, l, u, rmdir) && Reachable(t, l, rmdir)
  }

  ghost predicate Inv(cfg: Config, t: Tree, done: set<Str>, l: seq<Entry>, u: seq<Entry>, rmdir: Str)
  {
    Footing(t, done, l, u, rmdir) && LinksGrounded(cfg, t, done, l, u) && RootIsDir(u)
  }

  /** t' is t with node at p, minus what was below p when node is not a directory. */
  ghost predicate IsPut(t: Tree, p: Str, stat: Stat, t': Tree)
  {
    && t'.Keys == (if IsDir(stat) then t.Keys else set q | q in t && !Under(q, p)) + {p}
    && (forall q :: q in t' && q != p ==> t'[q] == t[q])
    && t'[p].stat == stat && (!IsDir(stat) ==> t'[p].data == [])
  }

  /** Everything above p is a directory of t. */
  ghost predicate Clear(t: Tree, p: Str)
  {
    forall a :: Below(p, a) ==> HasDir(t, a)
  }

  lemma ClearPath(t: Tree, p: Str)
    requires Clear(t, p) && Acceptable(p)
    ensures !Obstructed(t, p) && HasParent(t, p)
  {
    hide Acceptable, Below;
    AcceptableInside(p);
    if p != CURRENT { DirOfProper(p); }
  }

  lemma PutWorks(t: Tree, c: Change, filter: StatMap)
    requires WellFormed(t) && c.kind != Delete && Acceptable(c.path) && Clear(t, c.path)
    requires c.path in t || c.kind == Add
    requires c.path == CURRENT ==> IsDir(c.stat) && HasDir(t, CURRENT)
    requires IsHardLink(c.stat) ==> HasFile(t, c.stat.linkname)
    ensures (var r := Apply(t, c, filter);
             r.Some? && IsPut(t, c.path, filter(c.path, c.stat), r.value) && WellFormed(r.value))
  {
    hide WellFormed, Acceptable, Clear, Obstructed, HasParent;
    var p := c.path;
    ClearPath(t, p);
    PutShape(t, p, filter(p, c.stat), Apply(t, c, filter).value);
    ApplyKeepsTree(t, c, filter);
  }

  lemma PutShape(t: Tree, p: Str, stat: Stat, t': Tree)
    requires WellFormed(t) && (p == CURRENT ==> IsDir(stat) && HasDir(t, p))
    requires if IsDir(stat) && HasDir(t, p) then t' == t[p := t[p].(stat := stat)]
             else t' == Replaced(t, p, Node(stat, []))
    ensures IsPut(t, p, stat, t')
  {
    if p != CURRENT && !HasDir(t, p) {
      assert forall q :: q in t ==> !Below(q, p);
    }
  }

  // ---------------------------------------------------------------- single rounds

  lemma HeadFirst(u: seq<Entry>, y: Entry)
    requires SortedWithRepeats(u) && y in u
    ensures y == u[0] || y in u[1..]
    ensures y.path == u[0].path ==> y == u[0]
    ensures !Before(y.path, u[0].path)
    ensures y.path != u[0].path ==> Before(u[0].path, y.path)
  {
    var i :| 0 <= i < |u| && u[i] == y;
    if i > 0 { assert u[1..][i - 1] == y; }
    BeforeTotal(y.path, u[0].path);
  }

  lemma HeadFirstLower(l: seq<Entry>, e: Entry)
    requires Sorted(l) && e in l
    ensures e == l[0] || (e in l[1..] && Before(l[0].path, e.path))
  {
    var i :| 0 <= i < |l| && l[i] == e;
    if i > 0 { assert l[1..][i - 1] == e; }
  }

  lemma TailLower(l: seq<Entry>)
    requires Sorted(l) && l != []
    ensures Sorted(l[1..]) && PathsOf(l) == PathsOf(l[1..]) + {l[0].path}
    ensures forall e :: e in l[1..] ==> e in l && Before(l[0].path, e.path)
  {
    forall e | e in l[1..] ensures e in l && Before(l[0].path, e.path) {
      var i :| 0 <= i < |l| - 1 && l[1..][i] == e;
      assert l[i + 1] == e;
    }
    forall p | p in PathsOf(l) ensures p in PathsOf(l[1..]) + {l[0].path} {
      var e :| e in l && e.path == p;
      HeadFirstLower(l, e);
    }
  }

  lemma TailUpper(u: seq<Entry>)
    requires SortedWithRepeats(u) && u != []
    ensures SortedWithRepeats(u[1..]) && PathsOf(u) == PathsOf(u[1..]) + {u[0].path}
    ensures forall x :: x in u[1..] ==> x in u && (Before(u[0].path, x.path) || (x == u[0] && IsDir(x.stat)))
  {
    forall x | x in u[1..] ensures x in u && (Before(u[0].path, x.path) || (x == u[0] && IsDir(x.stat))) {
      var i :| 0 <= i < |u| - 1 && u[1..][i] == x;
      assert u[i + 1] == x;
    }
    forall p | p in PathsOf(u) ensures p in PathsOf(u[1..]) + {u[0].path} {
      var e :| e in u && e.path == p;
      HeadFirst(u, e);
    }
  }

  /** The first upper entry has all its ancestors in place. */
  lemma HeadReady(t: Tree, done: set<Str>, u: seq<Entry>)
    requires u != [] && SortedWithRepeats(u) && UpperGrounded(t, done, u)
    ensures forall a :: Under(u[0].path, a) ==> a in done && HasDir(t, a)
  {
    var x := u[0];
    forall a | Under(x.path, a) ensures a in done && HasDir(t, a) {
      if DirIn(u, a) {
        var y :| y in u && y.path == a;
        HeadFirst(u, y);
        PrefixBefore(a, x.path);
      }
    }
  }

  lemma HeadClear(t: Tree, done: set<Str>, u: seq<Entry>)
    requires u != [] && SortedWithRepeats(u) && UpperGrounded(t, done, u) && HasDir(t, CURRENT)
    ensures Clear(t, u[0].path)
  {
    HeadReady(t, done, u);
  }

  /** The target of the first upper entry, if it is a link still to be made, is in place. */
  lemma HeadLinked(cfg: Config, t: Tree, done: set<Str>, l: seq<Entry>, u: seq<Entry>)
    requires u != [] && SortedWithRepeats(u) && LinksGrounded(cfg, t, done, l, u)
    requires IsHardLink(u[0].stat) && !Matched(cfg, l, u[0])
    ensures u[0].stat.linkname in done && HasFile(t, u[0].stat.linkname)
  {
    var x := u[0];
    if FileBefore(u, x.stat.linkname, x.path) {
      var y :| y in u && y.path == x.stat.linkname && Before(x.stat.linkname, x.path);
      HeadFirst(u, y);
    }
  }

  /** Once the first upper entry stands in the tree the rest is grounded. */
  lemma GroundedAfter(t: Tree, t': Tree, done: set<Str>, u: seq<Entry>)
    requires u != [] && SortedWithRepeats(u) && UpperGrounded(t, done, u)
    requires u[0].path in t' && IsDir(t'[u[0].path].stat) == IsDir(u[0].stat)
    requires forall d :: d in done && d != u[0].path ==> d in t && d in t' && t'[d] == t[d]
    requires u[0].path in done ==> IsDir(u[0].stat) && HasDir(t, u[0].path)
    ensures UpperGrounded(t', done + {u[0].path}, u[1..])
  {
    TailUpper(u);
    var done' := done + {u[0].path};
    forall x, a | x in u[1..] && Under(x.path, a)
      ensures (a in done' && HasDir(t', a)) || DirIn(u[1..], a)
    {
      if !(a in done && HasDir(t, a)) {
        var y :| y in u && y.path == a && IsDir(y.stat);
        HeadFirst(u, y);
      }
    }
  }

  /** A finished head changes nothing for a later link: its target may be the head itself. */
  lemma LinkAfterHead(t: Tree, t': Tree, done: set<Str>, u: seq<Entry>, x: Entry)
    requires u != [] && SortedWithRepeats(u) && x in u[1..] && IsHardLink(x.stat) && Before(x.stat.linkname, x.path)
    requires u[0].path in t' && IsDir(t'[u[0].path].stat) == IsDir(u[0].stat)
    requires forall d :: d in done && d != u[0].path ==> d in t && d in t' && t'[d] == t[d]
    requires u[0].path in done ==> IsDir(u[0].stat) && HasDir(t, u[0].path)
    ensures LinkGrounded(t, done, u, x) <==> LinkGrounded(t', done + {u[0].path}, u[1..], x)
  {
    TailUpper(u);
    var g := x.stat.linkname;
    assert u[0] in u;
    if FileBefore(u, g, x.path) {
      var y :| y in u && y.path == g && !IsDir(y.stat) && Before(g, x.path);
      HeadFirst(u, y);
    }
  }

  /** All that is left of the links once the head is finished, and what the head itself needed. */
  lemma LinksAfterHead(cfg: Config, t: Tree, t': Tree, done: set<Str>, l: seq<Entry>, l': seq<Entry>, u: seq<Entry>)
    requires u != [] && SortedWithRepeats(u) && TargetsEarlier(u)
    requires forall x :: x in u[1..] && IsHardLink(x.stat) ==> (Matched(cfg, l, x) <==> Matched(cfg, l', x))
    requires u[0].path in t' && IsDir(t'[u[0].path].stat) == IsDir(u[0].stat)
    requires forall d :: d in done && d != u[0].path ==> d in t && d in t' && t'[d] == t[d]
    requires u[0].path in done ==> IsDir(u[0].stat) && HasDir(t, u[0].path)
    ensures LinksGrounded(cfg, t, done, l, u) <==>
              && (IsHardLink(u[0].stat) && !Matched(cfg, l, u[0]) ==> LinkGrounded(t, done, u, u[0]))
              && LinksGrounded(cfg, t', done + {u[0].path}, l', u[1..])
    ensures TargetsEarlier(u[1..])
  {
    hide Matched, LinkGrounded, Before;
    TailUpper(u);
    assert u[0] in u;
    forall x | x in u[1..] && IsHardLink(x.stat)
      ensures LinkGrounded(t, done, u, x) <==> LinkGrounded(t', done + {u[0].path}, u[1..], x)
    {
      LinkAfterHead(t, t', done, u, x);
    }
    forall x | x in u ensures x == u[0] || x in u[1..] { HeadFirst(u, x); }
  }

  /** A prefix that does not cover a path between its directory and e does not cover e. */
  lemma NoLongerCovered(t: Tree, l: seq<Entry>, u: seq<Entry>, rmdir: Str, p: Str, e: Entry)
    requires Suppressing(t, l, u, rmdir) && !Covers(rmdir, p) && e in l && Before(p, e.path)
    requires rmdir != [] ==> Before(rmdir[..|rmdir| - 1], p)
    ensures !Covers(rmdir, e.path)
  {
    if Covers(rmdir, e.path) {
      DescendantsContiguous(rmdir[..|rmdir| - 1], p, e.path);
    }
  }

  lemma BeforeAll(l: seq<Entry>, p: Str)
    requires Sorted(l) && (l != [] ==> Before(p, l[0].path))
    ensures forall e :: e in l ==> Before(p, e.path) && e.path != p
    ensures p !in PathsOf(l)
  {
    forall e | e in l ensures Before(p, e.path) && e.path != p {
      HeadFirstLower(l, e);
      if e != l[0] { BeforeTransitive(p, l[0].path, e.path); }
      BeforeTotal(p, e.path);
    }
  }

  lemma BeforeAllUpper(u: seq<Entry>, p: Str)
    requires SortedWithRepeats(u) && (u != [] ==> Before(p, u[0].path))
    ensures forall e :: e in u ==> Before(p, e.path) && e.path != p
    ensures p !in PathsOf(u) && !DirIn(u, p)
  {
    forall e | e in u ensures Before(p, e.path) && e.path != p {
      HeadFirst(u, e);
      if e.path != u[0].path { BeforeTransitive(p, u[0].path, e.path); }
      BeforeTotal(p, e.path);
    }
  }

  /** Suppression ends in good order: nothing left is covered. */
  lemma NoneCovered(t: Tree, l: seq<Entry>, u: seq<Entry>, rmdir: Str, p: Str)
    requires Suppressing(t, l, u, rmdir) && !Covers(rmdir, p)
    requires rmdir != [] ==> Before(rmdir[..|rmdir| - 1], p)
    ensures forall e :: e in l && Before(p, e.path) ==> !Covers(rmdir, e.path)
  {
    forall e | e in l && Before(p, e.path) ensures !Covers(rmdir, e.path) {
      NoLongerCovered(t, l, u, rmdir, p, e);
    }
  }

  lemma UpperNotCovered(t: Tree, l: seq<Entry>, u: seq<Entry>, rmdir: Str, x: Entry)
    requires Suppressing(t, l, u, rmdir) && x in u
    ensures !Covers(rmdir, x.path)
    ensures rmdir != [] ==> Before(rmdir[..|rmdir| - 1], x.path)
  { }

  lemma AddOrdered(t: Tree, t': Tree, done: set<Str>, l: seq<Entry>, u: seq<Entry>)
    requires u != [] && Ordered(t, done, l, u)
    requires forall e :: e in l ==> Before(u[0].path, e.path)
    requires u[0].path in t' && IsDir(t'[u[0].path].stat) == IsDir(u[0].stat)
    requires forall d :: d in done && d != u[0].path ==> HasDir(t, d) ==> HasDir(t', d)
    ensures Ordered(t', done + {u[0].path}, l, u[1..])
  {
    TailUpper(u);
    forall d, x | d in done + {u[0].path} && x in u[1..]
      ensures Before(d, x.path) || (d == x.path && IsDir(x.stat) && HasDir(t', d))
    {
      if d != u[0].path { assert d in done && x in u; }
    }
  }

  lemma AddHolds(t: Tree, t': Tree, done: set<Str>, l: seq<Entry>, u: seq<Entry>, p: Str, stat: Stat)
    requires Holds(t, done, l, u) && p !in PathsOf(l)
    requires IsPut(t, p, stat, t') && WellFormed(t') && HasDir(t', CURRENT)
    requires p in t ==> IsDir(stat) && (p in done || p == CURRENT)
    requires forall e :: e in l ==> e.path != p
    ensures t'.Keys == t.Keys + {p}
    ensures forall u' | (forall x :: x in u' ==> x in u) :: Holds(t', done + {p}, l, u')
  {
    if p !in t && p != CURRENT {
      assert forall q :: q in t ==> !Below(q, p);
    }
    assert t'.Keys == t.Keys + {p};
  }

  lemma AddReachable(t: Tree, t': Tree, done: set<Str>, l: seq<Entry>, u: seq<Entry>, rmdir: Str, stat: Stat)
    requires u != [] && Ordered(t, done, l, u) && LowerGrounded(done, l, u)
    requires Suppressing(t, l, u, rmdir) && Reachable(t, l, rmdir)
    requires forall e :: e in l ==> Before(u[0].path, e.path) && e.path != u[0].path
    requires u[0].path in done ==> IsDir(u[0].stat)
    requires IsPut(t, u[0].path, stat, t') && IsDir(stat) == IsDir(u[0].stat) && HasDir(t', CURRENT)
    ensures Reachable(t', l, [])
  {
    var x, p := u[0], u[0].path;
    UpperNotCovered(t, l, u, rmdir, x);
    NoneCovered(t, l, u, rmdir, p);
    assert x in u && p in PathsOf(u) && (IsDir(x.stat) || (p !in PathsOf(l) && p !in done));
    forall e | e in l ensures !Obstructed(t', e.path) {
      assert !Obstructed(t, e.path);
    }
  }

  /** The root stays a directory, unless it is itself replaced. */
  lemma RootStays(t: Tree, p: Str, stat: Stat, t': Tree)
    requires HasDir(t, CURRENT) && IsPut(t, p, stat, t') && (p == CURRENT ==> IsDir(stat))
    ensures HasDir(t', CURRENT)
  {
    NothingAboveCurrent(p);
  }

  /** An Add, if it does not make the root a file and, being a link, finds its target. */
  lemma AddKeepsFooting(cfg: Config, t: Tree, done: set<Str>, l: seq<Entry>, u: seq<Entry>, rmdir: Str)
    returns (t': Tree)
    requires Footing(t, done, l, u, rmdir)
    requires u != [] && (l != [] ==> Before(u[0].path, l[0].path))
    requires u[0].path == CURRENT ==> IsDir(u[0].stat)
    requires IsHardLink(u[0].stat) ==> HasFile(t, u[0].stat.linkname)
    ensures Apply(t, Change(Add, u[0].path, u[0].stat), cfg.filter) == Some(t')
    ensures IsPut(t, u[0].path, Filtered(cfg, u[0]), t')
    ensures Footing(t', done + {u[0].path}, l, u[1..], [])
    ensures u[0].path in done ==> IsDir(u[0].stat) && HasDir(t, u[0].path)
    ensures forall d :: d in done && d != u[0].path ==> d in t && d in t' && t'[d] == t[d]
  {
    hide Ordered, Holds, UpperGrounded, LowerGrounded, Suppressing, Reachable, Before, WellFormed, Acceptable, Clear,
         Apply, IsPut;
    var x, p := u[0], u[0].path;
    var stat := Filtered(cfg, x);
    assert x in u;
    UpperParts(t, done, l, u);
    HoldsParts(t, done, l, u);
    HeadClear(t, done, u);
    PutWorks(t, Change(Add, p, x.stat), cfg.filter);
    t' := Apply(t, Change(Add, p, x.stat), cfg.filter).value;
    BeforeAll(l, p);
    AddDone(t, t', done, l, u, stat);
    AddHolds(t, t', done, l, u, p, stat);
    TailUpper(u);
    AddOrdered(t, t', done, l, u);
    GroundedAfter(t, t', done, u);
    LowerUpperTaken(done, l, u);
    AddReachable(t, t', done, l, u, rmdir, stat);
    NothingSuppressed(t', l, u[1..]);
  }

  lemma NothingSuppressed(t: Tree, l: seq<Entry>, u: seq<Entry>)
    ensures Suppressing(t, l, u, [])
  { }

  lemma HoldsParts(t: Tree, done: set<Str>, l: seq<Entry>, u: seq<Entry>)
    requires Holds(t, done, l, u)
    ensures WellFormed(t) && HasDir(t, CURRENT) && done <= t.Keys && t.Keys <= done + PathsOf(l) + {CURRENT}
  { }

  /** What is finished, and the root, when an Add has been applied. */
  lemma AddDone(t: Tree, t': Tree, done: set<Str>, l: seq<Entry>, u: seq<Entry>, stat: Stat)
    requires u != [] && Ordered(t, done, l, u) && done <= t.Keys && HasDir(t, CURRENT)
    requires IsPut(t, u[0].path, stat, t') && IsDir(stat) == IsDir(u[0].stat)
    requires u[0].path == CURRENT ==> IsDir(u[0].stat)
    ensures HasDir(t', CURRENT) && u[0].path in t' && IsDir(t'[u[0].path].stat) == IsDir(u[0].stat)
    ensures u[0].path in done ==> IsDir(u[0].stat) && HasDir(t, u[0].path)
    ensures forall d :: d in done && d != u[0].path ==> d in t && d in t' && t'[d] == t[d]
  {
    hide Before;
    assert u[0] in u;
    RootStays(t, u[0].path, stat, t');
    BeforeTotal(u[0].path, u[0].path);
    DoneStays(t, t', done, u, stat);
  }

  lemma LowerUpperTaken(done: set<Str>, l: seq<Entry>, u: seq<Entry>)
    requires u != [] && SortedWithRepeats(u) && LowerGrounded(done, l, u)
    ensures LowerGrounded(done + {u[0].path}, l, u[1..])
  {
    TailUpper(u);
  }

  /** What is finished lies before the head, so it is left as it is. */
  lemma DoneStays(t: Tree, t': Tree, done: set<Str>, u: seq<Entry>, stat: Stat)
    requires u != [] && done <= t.Keys && IsPut(t, u[0].path, stat, t')
    requires forall d :: d in done && d != u[0].path ==> Before(d, u[0].path)
    ensures forall d :: d in done && d != u[0].path ==> d in t && d in t' && t'[d] == t[d]
  {
    forall d | d in done && d != u[0].path ensures d in t && d in t' && t'[d] == t[d] { DoneSurvives(d, u[0].path); }
  }

  lemma AddKeepsInv(cfg: Config, t: Tree, done: set<Str>, l: seq<Entry>, u: seq<Entry>, rmdir: Str)
    requires Inv(cfg, t, done, l, u, rmdir) && TargetsEarlier(u)
    requires u != [] && (l != [] ==> Before(u[0].path, l[0].path))
    ensures var c := Change(Add, u[0].path, u[0].stat);
            var r := Apply(t, c, cfg.filter);
            r.Some? && IsPut(t, c.path, Filtered(cfg, u[0]), r.value) &&
            Inv(cfg, r.value, done + {u[0].path}, l, u[1..], [])
    ensures u[0].path in done ==> IsDir(u[0].stat)
    ensures TargetsEarlier(u[1..])
  {
    hide Ordered, Holds, UpperGrounded, LowerGrounded, Suppressing, Reachable, Matched, Before, LinksGrounded, Apply;
    assert u[0] in u;
    UpperParts(t, done, l, u);
    BeforeAll(l, u[0].path);
    NotMatched(cfg, l, u[0]);
    if IsHardLink(u[0].stat) { HeadLinked(cfg, t, done, l, u); }
    var t' := AddKeepsFooting(cfg, t, done, l, u, rmdir);
    LinksAfterHead(cfg, t, t', done, l, l, u);
    TailUpper(u);
  }

  lemma UpperParts(t: Tree, done: set<Str>, l: seq<Entry>, u: seq<Entry>)
    requires Ordered(t, done, l, u)
    ensures Sorted(l) && SortedWithRepeats(u) && Inner(l) && Named(u)
  { }

  lemma NotMatched(cfg: Config, l: seq<Entry>, x: Entry)
    requires x.path !in PathsOf(l)
    ensures !Matched(cfg, l, x)
  { }

  lemma DeleteGrounded(t: Tree, done: set<Str>, u: seq<Entry>, p: Str)
    requires UpperGrounded(t, done, u) && Normal(p)
    requires forall d :: d in done ==> Before(d, p)
    ensures UpperGrounded(Without(t, p), done, u)
  {
    hide Normal;
    var t' := Without(t, p);
    DoneNotRemoved(t, done, p);
    forall x, a | x in u && Under(x.path, a) ensures (a in done && HasDir(t', a)) || DirIn(u, a) {
      assert (a in done && HasDir(t, a)) || DirIn(u, a);
    }
  }

  lemma DoneNotRemoved(t: Tree, done: set<Str>, p: Str)
    requires Normal(p) && forall d :: d in done ==> Before(d, p)
    ensures forall d :: d in done && d in t ==> d in Without(t, p)
  {
    hide Normal;
    ProperInside(p);
    forall d | d in done && d in t ensures d in Without(t, p) { DoneSurvives(d, p); }
  }

  lemma LinksAfterDelete(cfg: Config, t: Tree, done: set<Str>, l: seq<Entry>, u: seq<Entry>)
    requires l != [] && Sorted(l) && Normal(l[0].path) && done <= t.Keys
    requires forall d :: d in done ==> Before(d, l[0].path)
    requires forall x :: x in u ==> x.path != l[0].path
    ensures LinksGrounded(cfg, t, done, l, u) <==> LinksGrounded(cfg, Without(t, l[0].path), done, l[1..], u)
    ensures LinksGrounded(cfg, t, done, l, u) <==> LinksGrounded(cfg, t, done, l[1..], u)
  {
    hide Normal, Matched, FileBefore;
    DoneNotRemoved(t, done, l[0].path);
    forall x | x in u ensures Matched(cfg, l, x) <==> Matched(cfg, l[1..], x) { MatchedTail(cfg, l, x); }
    forall x | x in u
      ensures LinkGrounded(t, done, u, x) <==> LinkGrounded(Without(t, l[0].path), done, u, x)
    { }
  }

  lemma DoneSurvives(d: Str, p: Str)
    requires Before(d, p)
    ensures d != p && !Under(d, p)
  {
    BeforeTotal(d, p);
    if Under(d, p) { PrefixBefore(p, d); }
  }

  lemma DeleteOrdered(t: Tree, done: set<Str>, l: seq<Entry>, u: seq<Entry>)
    requires l != [] && Ordered(t, done, l, u)
    ensures Ordered(Without(t, l[0].path), done, l[1..], u)
  {
    TailLower(l);
    assert l[0] in l;
    DoneNotRemoved(t, done, l[0].path);
  }

  lemma DeleteHolds(t: Tree, done: set<Str>, l: seq<Entry>, u: seq<Entry>, p: Str)
    requires l != [] && Sorted(l) && Holds(t, done, l, u) && p == l[0].path && Normal(p)
    requires forall d :: d in done ==> Before(d, p)
    requires forall x :: x in u ==> x.path != p && !Under(x.path, p)
    ensures Holds(Without(t, p), done, l[1..], u)
  {
    hide Normal;
    TailLower(l);
    ProperInside(p);
    NothingAboveCurrent(p);
    WithoutWellFormed(t, p);
    DoneNotRemoved(t, done, p);
  }

  lemma DeleteReachable(t: Tree, l: seq<Entry>, u: seq<Entry>, rmdir: Str, rmdir': Str)
    requires l != [] && Sorted(l) && !Covers(rmdir, l[0].path) && HasDir(t, CURRENT)
    requires Suppressing(t, l, u, rmdir) && Reachable(t, l, rmdir)
    ensures Reachable(Without(t, l[0].path), l[1..], rmdir')
  {
    TailLower(l);
    NoneCovered(t, l, u, rmdir, l[0].path);
    forall e | e in l[1..] ensures !Obstructed(Without(t, l[0].path), e.path) {
      assert !Obstructed(t, e.path);
    }
  }

  lemma UpperNotBelow(t: Tree, done: set<Str>, u: seq<Entry>, p: Str)
    requires UpperGrounded(t, done, u) && p !in done && !DirIn(u, p)
    ensures forall x :: x in u ==> !Under(x.path, p)
  { }

  lemma DeleteKeepsFooting(cfg: Config, t: Tree, done: set<Str>, l: seq<Entry>, u: seq<Entry>, rmdir: Str)
    requires Footing(t, done, l, u, rmdir)
    requires l != [] && (u != [] ==> Before(l[0].path, u[0].path)) && !Covers(rmdir, l[0].path)
    ensures var c := Change(Delete, l[0].path, EMPTY_STAT);
            Apply(t, c, cfg.filter) == Some(Without(t, l[0].path))
    ensures Footing(Without(t, l[0].path), done, l[1..], u,
                    if rmdir == [] && IsDir(l[0].stat) then DirPrefix(l[0].path) else [])
    ensures LinksGrounded(cfg, t, done, l, u) <==> LinksGrounded(cfg, Without(t, l[0].path), done, l[1..], u)
  {
    hide UpperGrounded, LowerGrounded, LinksGrounded, Holds, Suppressing, Normal, WellFormed, Obstructed;
    var p := l[0].path;
    var t' := Without(t, p);
    assert l[0] in l;
    HoldsParts(t, done, l, u);
    TailLower(l);
    BeforeTotal(p, p);
    ReachableHead(t, l, rmdir);
    BeforeAllUpper(u, p);
    UpperNotBelow(t, done, u, p);
    DeleteOrdered(t, done, l, u);
    DeleteHolds(t, done, l, u, p);
    DeleteGrounded(t, done, u, p);
    LinksAfterDelete(cfg, t, done, l, u);
    LowerTaken(done, l, u);
    var rmdir' := if rmdir == [] && IsDir(l[0].stat) then DirPrefix(p) else [];
    DeleteSuppressing(t, l, u, rmdir');
    DeleteReachable(t, l, u, rmdir, rmdir');
  }

  lemma ReachableHead(t: Tree, l: seq<Entry>, rmdir: Str)
    requires l != [] && Reachable(t, l, rmdir) && !Covers(rmdir, l[0].path)
    ensures !Obstructed(t, l[0].path)
  {
    assert l[0] in l;
  }

  lemma LowerTaken(done: set<Str>, l: seq<Entry>, u: seq<Entry>)
    requires l != [] && Sorted(l) && LowerGrounded(done, l, u) && l[0].path !in PathsOf(u)
    ensures LowerGrounded(done, l[1..], u)
  {
    TailLower(l);
  }

  lemma DeleteSuppressing(t: Tree, l: seq<Entry>, u: seq<Entry>, rmdir': Str)
    requires l != [] && Sorted(l) && Normal(l[0].path) && (rmdir' == [] || rmdir' == DirPrefix(l[0].path))
    requires forall x :: x in u ==> Before(l[0].path, x.path) && !Under(x.path, l[0].path)
    ensures Suppressing(Without(t, l[0].path), l[1..], u, rmdir')
  {
    hide Normal, Before;
    TailLower(l);
    ProperInside(l[0].path);
    assert DirPrefix(l[0].path)[..|DirPrefix(l[0].path)| - 1] == l[0].path;
  }

  lemma DeleteKeepsInv(cfg: Config, t: Tree, done: set<Str>, l: seq<Entry>, u: seq<Entry>, rmdir: Str)
    requires Inv(cfg, t, done, l, u, rmdir)
    requires l != [] && (u != [] ==> Before(l[0].path, u[0].path)) && !Covers(rmdir, l[0].path)
    ensures var c := Change(Delete, l[0].path, EMPTY_STAT);
            Apply(t, c, cfg.filter) == Some(Without(t, l[0].path))
    ensures Inv(cfg, Without(t, l[0].path), done, l[1..], u,
                if rmdir == [] && IsDir(l[0].stat) then DirPrefix(l[0].path) else [])
  {
    hide Footing, LinksGrounded;
    DeleteKeepsFooting(cfg, t, done, l, u, rmdir);
  }

  lemma CoveredGone(t: Tree, l: seq<Entry>, u: seq<Entry>, rmdir: Str, e: Entry)
    requires Suppressing(t, l, u, rmdir) && e in l && Covers(rmdir, e.path)
    ensures e.path !in t
  {
    assert Under(e.path, rmdir[..|rmdir| - 1]);
  }

  lemma SkipKeepsFooting(cfg: Config, t: Tree, done: set<Str>, l: seq<Entry>, u: seq<Entry>, rmdir: Str)
    requires Footing(t, done, l, u, rmdir)
    requires l != [] && (u != [] ==> Before(l[0].path, u[0].path)) && Covers(rmdir, l[0].path)
    ensures Footing(t, done, l[1..], u, rmdir) && l[0].path !in t
    ensures LinksGrounded(cfg, t, done, l, u) <==> LinksGrounded(cfg, t, done, l[1..], u)
  {
    hide LinksGrounded, Normal;
    assert l[0] in l;
    BeforeAllUpper(u, l[0].path);
    CoveredGone(t, l, u, rmdir, l[0]);
    SkipHolds(t, done, l, u);
    SkipSuppressing(t, l, u, rmdir);
    SkipOrdered(t, done, l, u);
    LinksAfterDelete(cfg, t, done, l, u);
  }

  lemma SkipKeepsInv(cfg: Config, t: Tree, done: set<Str>, l: seq<Entry>, u: seq<Entry>, rmdir: Str)
    requires Inv(cfg, t, done, l, u, rmdir)
    requires l != [] && (u != [] ==> Before(l[0].path, u[0].path)) && Covers(rmdir, l[0].path)
    ensures Inv(cfg, t, done, l[1..], u, rmdir) && l[0].path !in t
  {
    hide Footing, LinksGrounded;
    SkipKeepsFooting(cfg, t, done, l, u, rmdir);
  }

  lemma SkipOrdered(t: Tree, done: set<Str>, l: seq<Entry>, u: seq<Entry>)
    requires l != [] && Ordered(t, done, l, u) && LowerGrounded(done, l, u) && l[0].path !in PathsOf(u)
    ensures Ordered(t, done, l[1..], u) && LowerGrounded(done, l[1..], u)
  {
    TailLower(l);
  }

  lemma SkipSuppressing(t: Tree, l: seq<Entry>, u: seq<Entry>, rmdir: Str)
    requires l != [] && Sorted(l) && Suppressing(t, l, u, rmdir) && Reachable(t, l, rmdir)
    ensures Suppressing(t, l[1..], u, rmdir) && Reachable(t, l[1..], rmdir)
  {
    TailLower(l);
  }

  lemma SkipHolds(t: Tree, done: set<Str>, l: seq<Entry>, u: seq<Entry>)
    requires l != [] && Sorted(l) && Holds(t, done, l, u) && l[0].path !in t
    ensures Holds(t, done, l[1..], u)
  {
    TailLower(l);
  }

  /** Both walks stand at the same path: the rest of the invariant when that path is finished in t'. */
  lemma ModifyGrounded(t: Tree, t': Tree, done: set<Str>, l: seq<Entry>, u: seq<Entry>)
    requires l != [] && u != [] && l[0].path == u[0].path
    requires Ordered(t, done, l, u) && UpperGrounded(t, done, u) && LowerGrounded(done, l, u)
    requires u[0].path in t' && IsDir(t'[u[0].path].stat) == IsDir(u[0].stat)
    requires forall d :: d in done ==> d in t && d in t' && t'[d] == t[d]
    ensures Ordered(t', done + {u[0].path}, l[1..], u[1..])
    ensures UpperGrounded(t', done + {u[0].path}, u[1..])
    ensures LowerGrounded(done + {u[0].path}, l[1..], u[1..])
    ensures u[0].path !in done
  {
    hide UpperGrounded, Before;
    TailLower(l);
    BeforeTotal(l[0].path, l[0].path);
    assert l[0] in l && u[0].path !in done;
    assert Ordered(t, done, l[1..], u);
    hide LowerGrounded;
    LowerBothTaken(done, l, u);
    AddOrdered(t, t', done, l[1..], u);
    GroundedAfter(t, t', done, u);
  }

  lemma LowerBothTaken(done: set<Str>, l: seq<Entry>, u: seq<Entry>)
    requires l != [] && u != [] && l[0].path == u[0].path && Sorted(l) && SortedWithRepeats(u)
    requires LowerGrounded(done, l, u)
    ensures LowerGrounded(done + {u[0].path}, l[1..], u[1..])
  {
    hide Before;
    TailLower(l);
    TailUpper(u);
  }

  lemma ModifyHolds(t: Tree, t': Tree, done: set<Str>, l: seq<Entry>, u: seq<Entry>)
    requires l != [] && u != [] && l[0].path == u[0].path && Sorted(l) && SortedWithRepeats(u)
    requires Holds(t, done, l, u) && WellFormed(t') && HasDir(t', CURRENT)
    requires u[0].path in t' && t'.Keys <= t.Keys
    requires done <= t'.Keys
    requires forall q :: q in t' && q != u[0].path ==> t'[q] == t[q]
    requires forall x :: x in u[1..] ==> x.path in t ==> x.path in t'
    ensures Holds(t', done + {u[0].path}, l[1..], u[1..])
  {
    TailLower(l);
    TailUpper(u);
    BeforeTotal(l[0].path, l[0].path);
  }

  lemma SameKind(cfg: Config, a: Entry, x: Entry)
    requires SameFile(cfg, a, Filtered(cfg, x))
    ensures IsDir(a.stat) == IsDir(x.stat)
  { }

  lemma KeepKeepsFooting(cfg: Config, t: Tree, done: set<Str>, l: seq<Entry>, u: seq<Entry>, rmdir: Str)
    requires Footing(t, done, l, u, rmdir)
    requires l != [] && u != [] && l[0].path == u[0].path && SameFile(cfg, l[0], Filtered(cfg, u[0]))
    ensures Footing(t, done + {u[0].path}, l[1..], u[1..], [])
    ensures u[0].path in t && u[0].path !in done && IsDir(t[u[0].path].stat) == IsDir(u[0].stat)
    ensures done <= t.Keys
  {
    var p := u[0].path;
    SameKind(cfg, l[0], u[0]);
    assert l[0] in l && u[0] in u;
    ModifyGrounded(t, t, done, l, u);
    ModifyHolds(t, t, done, l, u);
    TailLower(l);
    UpperNotCovered(t, l, u, rmdir, u[0]);
    NoneCovered(t, l, u, rmdir, p);
  }

  lemma KeepKeepsInv(cfg: Config, t: Tree, done: set<Str>, l: seq<Entry>, u: seq<Entry>, rmdir: Str)
    requires Inv(cfg, t, done, l, u, rmdir) && TargetsEarlier(u)
    requires l != [] && u != [] && l[0].path == u[0].path && SameFile(cfg, l[0], Filtered(cfg, u[0]))
    ensures Inv(cfg, t, done + {u[0].path}, l[1..], u[1..], []) && TargetsEarlier(u[1..])
    ensures u[0].path in t && u[0].path !in done && IsDir(t[u[0].path].stat) == IsDir(u[0].stat)
  {
    hide Ordered, Holds, UpperGrounded, LowerGrounded, Suppressing, Reachable, Matched, Before, LinksGrounded, SameFile;
    UpperParts(t, done, l, u);
    KeepKeepsFooting(cfg, t, done, l, u, rmdir);
    MatchedRest(cfg, l, u);
    LinksAfterHead(cfg, t, t, done, l, l[1..], u);
    TailUpper(u);
  }

  /** Both heads taken: what is matched among the rest stays so. */
  lemma MatchedRest(cfg: Config, l: seq<Entry>, u: seq<Entry>)
    requires l != [] && u != [] && l[0].path == u[0].path && Sorted(l) && SortedWithRepeats(u)
    ensures forall x :: x in u[1..] && IsHardLink(x.stat) ==> (Matched(cfg, l, x) <==> Matched(cfg, l[1..], x))
  {
    hide Matched;
    TailUpper(u);
    BeforeTotal(u[0].path, u[0].path);
    forall x | x in u[1..] && IsHardLink(x.stat) ensures Matched(cfg, l, x) <==> Matched(cfg, l[1..], x) {
      MatchedTail(cfg, l, x);
    }
  }

  lemma NothingUpperBelowFile(t: Tree, done: set<Str>, u: seq<Entry>)
    requires u != [] && SortedWithRepeats(u) && UpperGrounded(t, done, u)
    requires u[0].path !in done && !IsDir(u[0].stat)
    ensures forall x :: x in u ==> !Under(x.path, u[0].path)
  {
    if DirIn(u, u[0].path) {
      var y :| y in u && y.path == u[0].path && IsDir(y.stat);
      HeadFirst(u, y);
    }
  }

  lemma ModifyReachable(t: Tree, t': Tree, l: seq<Entry>, u: seq<Entry>, rmdir: Str, stat: Stat)
    requires l != [] && u != [] && l[0].path == u[0].path && Sorted(l)
    requires Suppressing(t, l, u, rmdir) && Reachable(t, l, rmdir)
    requires u[0].path in t && IsDir(t[u[0].path].stat) == IsDir(l[0].stat)
    requires IsPut(t, u[0].path, stat, t') && HasDir(t', CURRENT)
    ensures Reachable(t', l[1..], if IsDir(l[0].stat) && !IsDir(stat) then DirPrefix(l[0].path) else [])
  {
    var p := u[0].path;
    TailLower(l);
    assert u[0] in u;
    UpperNotCovered(t, l, u, rmdir, u[0]);
    NoneCovered(t, l, u, rmdir, p);
    forall e | e in l[1..]
      ensures (IsDir(l[0].stat) && !IsDir(stat) && Under(e.path, p)) || !Obstructed(t', e.path)
    {
      assert !Obstructed(t, e.path);
    }
  }

  lemma ModifySuppressing(t: Tree, done: set<Str>, l: seq<Entry>, u: seq<Entry>, t': Tree, stat: Stat)
    requires l != [] && u != [] && l[0].path == u[0].path && Sorted(l) && SortedWithRepeats(u)
    requires UpperGrounded(t, done, u) && u[0].path !in done
    requires IsDir(stat) == IsDir(u[0].stat) && IsPut(t, u[0].path, stat, t')
    ensures Suppressing(t', l[1..], u[1..], if IsDir(l[0].stat) && !IsDir(stat) then DirPrefix(l[0].path) else [])
  {
    var p := u[0].path;
    TailLower(l);
    TailUpper(u);
    if IsDir(l[0].stat) && !IsDir(stat) {
      NothingUpperBelowFile(t, done, u);
      assert DirPrefix(p)[..|DirPrefix(p)| - 1] == p;
      forall e | e in l[1..] ensures Before(p, e.path) && (Under(e.path, p) ==> e.path !in t') {
        BeforeTotal(p, e.path);
      }
    }
  }

  /** A Modify that writes, if it finds its target, should it be a link. */
  lemma PutKeepsFooting(cfg: Config, t: Tree, done: set<Str>, l: seq<Entry>, u: seq<Entry>, rmdir: Str)
    returns (t': Tree)
    requires Footing(t, done, l, u, rmdir)
    requires l != [] && u != [] && l[0].path == u[0].path
    requires IsHardLink(u[0].stat) ==> HasFile(t, u[0].stat.linkname)
    ensures Apply(t, Change(Modify, u[0].path, u[0].stat), cfg.filter) == Some(t')
    ensures IsPut(t, u[0].path, Filtered(cfg, u[0]), t')
    ensures Footing(t', done + {u[0].path}, l[1..], u[1..],
                    if IsDir(l[0].stat) && !IsDir(Filtered(cfg, u[0])) then DirPrefix(l[0].path) else [])
    ensures u[0].path in t && u[0].path !in done
    ensures forall d :: d in done ==> d in t && d in t' && t'[d] == t[d]
  {
    hide UpperGrounded, LowerGrounded, Suppressing, Reachable, Before, WellFormed, Normal, Clear;
    var x, p := u[0], u[0].path;
    var stat := Filtered(cfg, x);
    assert l[0] in l && x in u;
    ProperInside(p);
    HeadClear(t, done, u);
    PutWorks(t, Change(Modify, p, x.stat), cfg.filter);
    t' := Apply(t, Change(Modify, p, x.stat), cfg.filter).value;
    RootStays(t, p, stat, t');
    BeforeTotal(p, p);
    DoneStays(t, t', done, u, stat);
    ModifyGrounded(t, t', done, l, u);
    if !IsDir(stat) { NothingUpperBelowFile(t, done, u); }
    TailUpper(u);
    ModifyHolds(t, t', done, l, u);
    ModifySuppressing(t, done, l, u, t', stat);
    ModifyReachable(t, t', l, u, rmdir, stat);
  }

  lemma PutKeepsInv(cfg: Config, t: Tree, done: set<Str>, l: seq<Entry>, u: seq<Entry>, rmdir: Str)
    requires Inv(cfg, t, done, l, u, rmdir) && TargetsEarlier(u)
    requires l != [] && u != [] && l[0].path == u[0].path && !SameFile(cfg, l[0], Filtered(cfg, u[0]))
    ensures var stat := Filtered(cfg, u[0]);
            var r := Apply(t, Change(Modify, u[0].path, u[0].stat), cfg.filter);
            r.Some? && IsPut(t, u[0].path, stat, r.value) &&
            Inv(cfg, r.value, done + {u[0].path}, l[1..], u[1..],
                if IsDir(l[0].stat) && !IsDir(stat) then DirPrefix(l[0].path) else [])
    ensures u[0].path in t && u[0].path !in done && TargetsEarlier(u[1..])
  {
    hide Ordered, Holds, UpperGrounded, LowerGrounded, Suppressing, Reachable, Matched, Before, LinksGrounded, SameFile,
         Apply;
    assert u[0] in u;
    UpperParts(t, done, l, u);
    MatchedTail(cfg, l, u[0]);
    if IsHardLink(u[0].stat) { HeadLinked(cfg, t, done, l, u); }
    var t' := PutKeepsFooting(cfg, t, done, l, u, rmdir);
    MatchedRest(cfg, l, u);
    LinksAfterHead(cfg, t, t', done, l, l[1..], u);
    TailUpper(u);
  }

  // ---------------------------------------------------------------- whole replays

  /** x occurs more than once. */
  ghost predicate Repeated(u: seq<Entry>, x: Entry)
  {
    exists i, j :: 0 <= i < j < |u| && u[i] == x && u[j] == x
  }

  ghost predicate Kept(t: Tree, t': Tree, p: Str) { p in t && p in t' && t'[p] == t[p] }

  /** p carries stat; a non-directory was made anew, without content. */
  ghost predicate Updated(t': Tree, p: Str, stat: Stat)
  {
    p in t' && t'[p].stat == stat && (!IsDir(stat) ==> t'[p].data == [])
  }

  /** Finished paths and the root stay, upper paths are all there, and each is either the lower
      node judged the same or the upper node. */
  ghost predicate Settled(cfg: Config, t: Tree, done: set<Str>, l: seq<Entry>, u: seq<Entry>, t': Tree)
  {
    && t'.Keys == done + PathsOf(u) + {CURRENT}
    && (forall d :: d in done + {CURRENT} && d !in PathsOf(u) ==> Kept(t, t', d))
    && (forall x :: x in u ==>
          if Matched(cfg, l, x) && !Repeated(u, x) then Kept(t, t', x.path)
          else Updated(t', x.path, Filtered(cfg, x)))
  }

  lemma RepeatedTail(u: seq<Entry>, x: Entry)
    requires u != [] && x in u
    ensures x != u[0] ==> (Repeated(u, x) <==> Repeated(u[1..], x))
    ensures x == u[0] ==> (Repeated(u, x) <==> x in u[1..])
  {
    if x == u[0] && x in u[1..] {
      var j :| 0 <= j < |u| - 1 && u[1..][j] == x;
      assert u[0] == x && u[j + 1] == x;
    }
    if x != u[0] && Repeated(u[1..], x) {
      var i, j :| 0 <= i < j < |u| - 1 && u[1..][i] == x && u[1..][j] == x;
      assert u[i + 1] == x && u[j + 1] == x;
    }
    if Repeated(u, x) {
      var i, j :| 0 <= i < j < |u| && u[i] == x && u[j] == x;
      assert u[1..][j - 1] == x;
      if i > 0 { assert u[1..][i - 1] == x; }
    }
  }

  lemma MatchedTail(cfg: Config, l: seq<Entry>, x: Entry)
    requires l != [] && Sorted(l)
    ensures x.path != l[0].path ==> (Matched(cfg, l, x) <==> Matched(cfg, l[1..], x))
    ensures x.path == l[0].path ==> !Matched(cfg, l[1..], x)
    ensures x.path == l[0].path ==> (Matched(cfg, l, x) <==> SameFile(cfg, l[0], Filtered(cfg, x)))
  {
    TailLower(l);
    BeforeTotal(l[0].path, l[0].path);
    if Matched(cfg, l, x) {
      var e :| e in l && e.path == x.path && SameFile(cfg, e, Filtered(cfg, x));
      HeadFirstLower(l, e);
    }
  }

  /** After the head of the upper side is finished in t1, what settles the rest settles all. */
  lemma SettledAfterUpper(cfg: Config, t: Tree, t1: Tree, done: set<Str>, l: seq<Entry>, l1: seq<Entry>,
                          u: seq<Entry>, t': Tree)
    requires u != [] && SortedWithRepeats(u)
    requires forall x :: x in u && x.path != u[0].path ==> (Matched(cfg, l, x) <==> Matched(cfg, l1, x))
    requires !Matched(cfg, l1, u[0])
    requires u[0].path in t1
    requires forall q :: q in t1 && q != u[0].path ==> q in t && t1[q] == t[q]
    requires if Matched(cfg, l, u[0]) then u[0].path in t && t1[u[0].path] == t[u[0].path]
             else Updated(t1, u[0].path, Filtered(cfg, u[0]))
    requires Settled(cfg, t1, done + {u[0].path}, l1, u[1..], t')
    requires u[0].path in done ==> !Matched(cfg, l, u[0])
    ensures Settled(cfg, t, done, l, u, t')
  {
    var p := u[0].path;
    TailUpper(u);
    forall x | x in u
      ensures if Matched(cfg, l, x) && !Repeated(u, x) then Kept(t, t', x.path)
              else Updated(t', x.path, Filtered(cfg, x))
    {
      HeadFirst(u, x);
      RepeatedTail(u, x);
      if x.path == p && x !in u[1..] {
        forall y | y in u[1..] ensures y.path != p { HeadFirst(u, y); }
        assert Kept(t1, t', p);
      }
    }
    assert u[0] in u;
  }

  lemma SettledAfterLower(cfg: Config, t: Tree, t1: Tree, done: set<Str>, l: seq<Entry>, u: seq<Entry>, t': Tree)
    requires l != [] && Sorted(l)
    requires forall x :: x in u ==> x.path != l[0].path
    requires forall q :: q in t1 ==> q in t && t1[q] == t[q]
    requires Settled(cfg, t1, done, l[1..], u, t')
    ensures Settled(cfg, t, done, l, u, t')
  {
    forall x | x in u ensures Matched(cfg, l, x) <==> Matched(cfg, l[1..], x) {
      MatchedTail(cfg, l, x);
    }
  }

  lemma ApplyFirst(t: Tree, c: Change, rest: seq<Change>, filter: StatMap)
    requires Apply(t, c, filter).Some?
    ensures ApplyAll(t, [c] + rest, filter) == ApplyAll(Apply(t, c, filter).value, rest, filter)
  {
    assert ([c] + rest)[1..] == rest;
  }

  /** From any state of the merge, replaying what it still emits settles the tree. */
  lemma {:induction false} Replay(cfg: Config, t: Tree, done: set<Str>, l: seq<Entry>, u: seq<Entry>, rmdir: Str)
    returns (t': Tree)
    requires Inv(cfg, t, done, l, u, rmdir) && TargetsEarlier(u)
    ensures ApplyAll(t, Merge(cfg, l, u, rmdir), cfg.filter) == Some(t')
    ensures Settled(cfg, t, done, l, u, t')
    decreases |l| + |u|
  {
    if l == [] && u == [] {
      t' := t;
    } else {
      match PathChange(Head(l), Head(u))
      case Add =>
        t' := ReplayAdd(cfg, t, done, l, u, rmdir);
      case Delete =>
        t' := ReplayDelete(cfg, t, done, l, u, rmdir);
      case Modify =>
        t' := ReplayModify(cfg, t, done, l, u, rmdir);
    }
  }

  lemma HeadsInOrder(l: seq<Entry>, u: seq<Entry>)
    requires l != [] || u != []
    ensures PathChange(Head(l), Head(u)).Add? ==> u != [] && (l != [] ==> Before(u[0].path, l[0].path))
    ensures PathChange(Head(l), Head(u)).Delete? ==> l != [] && (u != [] ==> Before(l[0].path, u[0].path))
    ensures PathChange(Head(l), Head(u)).Modify? ==> l != [] && u != [] && l[0].path == u[0].path
  {
    if l != [] && u != [] { BeforeTotal(l[0].path, u[0].path); }
  }

  lemma {:induction false} ReplayAdd(cfg: Config, t: Tree, done: set<Str>, l: seq<Entry>, u: seq<Entry>, rmdir: Str)
    returns (t': Tree)
    requires Inv(cfg, t, done, l, u, rmdir) && TargetsEarlier(u)
    requires u != [] && PathChange(Head(l), Head(u)) == Add
    ensures ApplyAll(t, Merge(cfg, l, u, rmdir), cfg.filter) == Some(t')
    ensures Settled(cfg, t, done, l, u, t')
    decreases |l| + |u|, 0
  {
    hide Holds, UpperGrounded, LinksGrounded, LowerGrounded, Suppressing, Reachable, Apply, ApplyAll, SameFile, Settled,
         Before, Repeated, Normal;
    HeadsInOrder(l, u);
    AddKeepsInv(cfg, t, done, l, u, rmdir);
    var c := Change(Add, u[0].path, u[0].stat);
    var t1 := Apply(t, c, cfg.filter).value;
    t' := Replay(cfg, t1, done + {u[0].path}, l, u[1..], []);
    ApplyFirst(t, c, Merge(cfg, l, u[1..], []), cfg.filter);
    BeforeAll(l, u[0].path);
    SettledAfterUpper(cfg, t, t1, done, l, l, u, t');
  }

  lemma MergeDelete(cfg: Config, l: seq<Entry>, u: seq<Entry>, rmdir: Str)
    requires l != [] && PathChange(Head(l), Head(u)) == Delete
    ensures Merge(cfg, l, u, rmdir) ==
      if Covers(rmdir, l[0].path) then Merge(cfg, l[1..], u, rmdir)
      else
        [Change(Delete, l[0].path, EMPTY_STAT)]
        + Merge(cfg, l[1..], u, if rmdir == [] && IsDir(l[0].stat) then DirPrefix(l[0].path) else [])
  { }

  lemma MergeModify(cfg: Config, l: seq<Entry>, u: seq<Entry>, rmdir: Str)
    requires l != [] && u != [] && PathChange(Head(l), Head(u)) == Modify
    ensures var stat := Filtered(cfg, u[0]);
      var rest := Merge(cfg, l[1..], u[1..], if IsDir(l[0].stat) && !IsDir(stat) then DirPrefix(l[0].path) else []);
      Merge(cfg, l, u, rmdir) ==
      if SameFile(cfg, l[0], stat) then rest else [Change(Modify, u[0].path, u[0].stat)] + rest
  { }

  lemma UpperApart(t: Tree, done: set<Str>, l: seq<Entry>, u: seq<Entry>)
    requires Ordered(t, done, l, u)
    ensures Sorted(l) && SortedWithRepeats(u)
    ensures l != [] && (u != [] ==> Before(l[0].path, u[0].path)) ==> forall x :: x in u ==> x.path != l[0].path
  {
    if l != [] && (u != [] ==> Before(l[0].path, u[0].path)) { BeforeAllUpper(u, l[0].path); }
  }

  lemma {:induction false} ReplayDelete(cfg: Config, t: Tree, done: set<Str>, l: seq<Entry>, u: seq<Entry>, rmdir: Str)
    returns (t': Tree)
    requires Inv(cfg, t, done, l, u, rmdir) && TargetsEarlier(u)
    requires l != [] && PathChange(Head(l), Head(u)) == Delete
    ensures ApplyAll(t, Merge(cfg, l, u, rmdir), cfg.filter) == Some(t')
    ensures Settled(cfg, t, done, l, u, t')
    decreases |l| + |u|, 0
  {
    HeadsInOrder(l, u);
    UpperApart(t, done, l, u);
    MergeDelete(cfg, l, u, rmdir);
    if Covers(rmdir, l[0].path) {
      SkipKeepsInv(cfg, t, done, l, u, rmdir);
      t' := Replay(cfg, t, done, l[1..], u, rmdir);
      SettledAfterLower(cfg, t, t, done, l, u, t');
    } else {
      DeleteKeepsInv(cfg, t, done, l, u, rmdir);
      var rmdir' := if rmdir == [] && IsDir(l[0].stat) then DirPrefix(l[0].path) else [];
      t' := Replay(cfg, Without(t, l[0].path), done, l[1..], u, rmdir');
      ApplyFirst(t, Change(Delete, l[0].path, EMPTY_STAT), Merge(cfg, l[1..], u, rmdir'), cfg.filter);
      SettledAfterLower(cfg, t, Without(t, l[0].path), done, l, u, t');
    }
  }

  lemma MatchedAfterModify(cfg: Config, t: Tree, done: set<Str>, l: seq<Entry>, u: seq<Entry>, rmdir: Str)
    requires Inv(cfg, t, done, l, u, rmdir) && l != [] && u != [] && l[0].path == u[0].path
    ensures forall x :: x in u && x.path != u[0].path ==> (Matched(cfg, l, x) <==> Matched(cfg, l[1..], x))
    ensures !Matched(cfg, l[1..], u[0])
    ensures Matched(cfg, l, u[0]) <==> SameFile(cfg, l[0], Filtered(cfg, u[0]))
  {
    forall x | x in u && x.path != u[0].path ensures Matched(cfg, l, x) <==> Matched(cfg, l[1..], x) {
      MatchedTail(cfg, l, x);
    }
    MatchedTail(cfg, l, u[0]);
  }

  lemma {:induction false} ReplayKeep(cfg: Config, t: Tree, done: set<Str>, l: seq<Entry>, u: seq<Entry>, rmdir: Str)
    returns (t': Tree)
    requires Inv(cfg, t, done, l, u, rmdir) && TargetsEarlier(u)
    requires l != [] && u != [] && l[0].path == u[0].path && SameFile(cfg, l[0], Filtered(cfg, u[0]))
    ensures ApplyAll(t, Merge(cfg, l[1..], u[1..], []), cfg.filter) == Some(t')
    ensures Settled(cfg, t, done, l, u, t')
    decreases |l| + |u|, 0
  {
    UpperApart(t, done, l, u);
    MatchedAfterModify(cfg, t, done, l, u, rmdir);
    KeepKeepsInv(cfg, t, done, l, u, rmdir);
    t' := Replay(cfg, t, done + {u[0].path}, l[1..], u[1..], []);
    SettledAfterUpper(cfg, t, t, done, l, l[1..], u, t');
  }

  lemma {:induction false} ReplayPut(cfg: Config, t: Tree, done: set<Str>, l: seq<Entry>, u: seq<Entry>, rmdir: Str,
                                     rmdir': Str)
    returns (t': Tree)
    requires Inv(cfg, t, done, l, u, rmdir) && TargetsEarlier(u)
    requires l != [] && u != [] && l[0].path == u[0].path && !SameFile(cfg, l[0], Filtered(cfg, u[0]))
    requires rmdir' == if IsDir(l[0].stat) && !IsDir(Filtered(cfg, u[0])) then DirPrefix(l[0].path) else []
    ensures ApplyAll(t, [Change(Modify, u[0].path, u[0].stat)] + Merge(cfg, l[1..], u[1..], rmdir'), cfg.filter)
            == Some(t')
    ensures Settled(cfg, t, done, l, u, t')
    decreases |l| + |u|, 0
  {
    hide Ordered, Holds, UpperGrounded, LinksGrounded, LowerGrounded, Suppressing, Reachable, Apply, ApplyAll, Merge,
         Matched, SameFile, Settled, Before, Repeated;
    UpperApart(t, done, l, u);
    MatchedAfterModify(cfg, t, done, l, u, rmdir);
    PutKeepsInv(cfg, t, done, l, u, rmdir);
    var c := Change(Modify, u[0].path, u[0].stat);
    var t1 := Apply(t, c, cfg.filter).value;
    t' := Replay(cfg, t1, done + {u[0].path}, l[1..], u[1..], rmdir');
    ApplyFirst(t, c, Merge(cfg, l[1..], u[1..], rmdir'), cfg.filter);
    SettledAfterUpper(cfg, t, t1, done, l, l[1..], u, t');
  }

  lemma {:induction false} ReplayModify(cfg: Config, t: Tree, done: set<Str>, l: seq<Entry>, u: seq<Entry>, rmdir: Str)
    returns (t': Tree)
    requires Inv(cfg, t, done, l, u, rmdir) && TargetsEarlier(u)
    requires l != [] && u != [] && PathChange(Head(l), Head(u)) == Modify
    ensures ApplyAll(t, Merge(cfg, l, u, rmdir), cfg.filter) == Some(t')
    ensures Settled(cfg, t, done, l, u, t')
    decreases |l| + |u|, 1
  {
    HeadsInOrder(l, u);
    MergeModify(cfg, l, u, rmdir);
    var stat := Filtered(cfg, u[0]);
    if SameFile(cfg, l[0], stat) {
      SameKind(cfg, l[0], u[0]);
      t' := ReplayKeep(cfg, t, done, l, u, rmdir);
    } else {
      t' := ReplayPut(cfg, t, done, l, u, rmdir,
                      if IsDir(l[0].stat) && !IsDir(stat) then DirPrefix(l[0].path) else []);
    }
  }

  /** The destination becomes the source: replaying the difference between a tree and a feed
      never fails, ends with exactly the feed's paths, keeps each node the comparison judged
      the same, and gives every other path the feed's (filtered) stat. A root the feed has no
      entry for stays as it is. */
  lemma SyncTheorem(cfg: Config, t: Tree, l: seq<Entry>, u: seq<Entry>) returns (t': Tree)
    requires Lists(t, l) && Stream(u) && TargetsEarlier(u) && Linkable(cfg, l, u) && RootIsDir(u)
    ensures ApplyAll(t, Merge(cfg, l, u, []), cfg.filter) == Some(t')
    ensures t'.Keys == PathsOf(u) + {CURRENT} && HasDir(t', CURRENT)
    ensures CURRENT !in PathsOf(u) ==> t'[CURRENT] == t[CURRENT]
    ensures forall x :: x in u ==>
              if Matched(cfg, l, x) && !Repeated(u, x) then Kept(t, t', x.path)
              else Updated(t', x.path, Filtered(cfg, x))
  {
    StartFooting(t, l, u);
    StartLinks(cfg, t, l, u);
    t' := Replay(cfg, t, {}, l, u, []);
    if CURRENT in PathsOf(u) {
      var x :| x in u && x.path == CURRENT;
    } else {
      assert Kept(t, t', CURRENT);
    }
  }

  lemma StartFooting(t: Tree, l: seq<Entry>, u: seq<Entry>)
    requires Lists(t, l) && Stream(u)
    ensures Footing(t, {}, l, u, [])
  {
    ListedWellFormed(t, l);
    forall e | e in l ensures !Obstructed(t, e.path) {
      assert e.path in t;
    }
    forall e, a | e in l && Under(e.path, a) ensures a in PathsOf(l) {
      assert DirIn(l, a);
    }
    assert Sorted(l) && SortedWithRepeats(u);
  }

  lemma StartLinks(cfg: Config, t: Tree, l: seq<Entry>, u: seq<Entry>)
    ensures LinksGrounded(cfg, t, {}, l, u) <==> Linkable(cfg, l, u)
  { }

  lemma ListedWellFormed(t: Tree, l: seq<Entry>)
    requires Lists(t, l)
    ensures WellFormed(t)
  {
    forall p, a | p in t && Below(p, a) ensures HasDir(t, a) {
      if p == CURRENT {
        NothingAboveCurrent(a);
      } else if a != CURRENT {
        var e :| e in l && e.path == p;
        assert DirIn(l, a);
      }
    }
  }
}
