/** Consequences of the replay: merge mode, the contents asked for, and the order of changes. */
module Overlaying {
  import opened Bytes
  import opened Paths
  import opened Stats
  import opened Disk
  import opened DiskWriting
  import opened Diffing
  import opened Syncing
  import opened SyncingExactly

  // ---------------------------------------------------------------- merge mode

  /** An old file at g is not replaced by a directory of u, and not buried under a file of u. */
  ghost predicate Stays(u: seq<Entry>, g: Str)
  {
    forall y :: y in u ==> (y.path == g ==> !IsDir(y.stat)) && (Under(g, y.path) ==> IsDir(y.stat))
  }

  /** The target of a link is an earlier file of the stream, or an old file that stays. */
  ghost predicate Served(t: Tree, u: seq<Entry>, x: Entry)
  {
    (HasFile(t, x.stat.linkname) && Stays(u, x.stat.linkname)) || FileBefore(u, x.stat.linkname, x.path)
  }

  ghost predicate LinksServed(t: Tree, u: seq<Entry>)
  {
    forall x :: x in u && IsHardLink(x.stat) ==> Served(t, u, x)
  }

  /** The directories of the stream are in place, whatever becomes of its links. */
  ghost predicate OverlayFooting(t: Tree, done: set<Str>, u: seq<Entry>)
  {
    && WellFormed(t) && HasDir(t, CURRENT) && Ordered(t, done, [], u) && done <= t.Keys
    && UpperGrounded(t, done, u) && TargetsEarlier(u) && RootIsDir(u)
  }

  /** Some entry of u puts a non-directory above q. */
  ghost predicate Buried(u: seq<Entry>, q: Str)
  {
    exists x :: x in u && Under(q, x.path) && !IsDir(x.stat)
  }

  /** t' is u laid over t. */
  ghost predicate Overlaid(cfg: Config, t: Tree, u: seq<Entry>, t': Tree)
  {
    && (forall q :: q in t' <==> q in PathsOf(u) || (q in t && !Buried(u, q)))
    && (forall q :: q in t' && q !in PathsOf(u) ==> t'[q] == t[q])
    && (forall x :: x in u ==> Updated(t', x.path, Filtered(cfg, x)))
  }

  lemma BuriedTail(u: seq<Entry>, q: Str)
    requires u != [] && SortedWithRepeats(u)
    ensures Buried(u, q) <==> (Under(q, u[0].path) && !IsDir(u[0].stat)) || Buried(u[1..], q)
    ensures !Buried(u[1..], u[0].path)
  {
    TailUpper(u);
    if Buried(u, q) {
      var x :| x in u && Under(q, x.path) && !IsDir(x.stat);
      HeadFirst(u, x);
    }
    assert u[0] in u;
    forall x | x in u[1..] ensures !Under(u[0].path, x.path) {
      if Before(u[0].path, x.path) { DoneSurvives(u[0].path, x.path); }
    }
  }

  lemma OverlayPut(cfg: Config, t: Tree, done: set<Str>, u: seq<Entry>) returns (t1: Tree)
    requires u != [] && OverlayFooting(t, done, u) && (IsHardLink(u[0].stat) ==> HasFile(t, u[0].stat.linkname))
    ensures Apply(t, Change(Add, u[0].path, u[0].stat), cfg.filter) == Some(t1)
    ensures IsPut(t, u[0].path, Filtered(cfg, u[0]), t1) && WellFormed(t1)
  {
    hide Normal, WellFormed, Apply, UpperGrounded, Before, Clear, IsPut;
    var c := Change(Add, u[0].path, u[0].stat);
    HeadClear(t, done, u);
    assert u[0] in u;
    PutWorks(t, c, cfg.filter);
    t1 := Apply(t, c, cfg.filter).value;
  }

  /** One entry laid over the tree, if it is no link or its target is there. */
  lemma OverlayStep(cfg: Config, t: Tree, done: set<Str>, u: seq<Entry>) returns (t1: Tree)
    requires u != [] && OverlayFooting(t, done, u) && (IsHardLink(u[0].stat) ==> HasFile(t, u[0].stat.linkname))
    ensures Apply(t, Change(Add, u[0].path, u[0].stat), cfg.filter) == Some(t1)
    ensures IsPut(t, u[0].path, Filtered(cfg, u[0]), t1)
    ensures OverlayFooting(t1, done + {u[0].path}, u[1..])
    ensures LinksServed(t, u) <==> LinksServed(t1, u[1..])
  {
    hide Normal, WellFormed, Apply, Ordered, UpperGrounded, Before, IsPut, LinksServed;
    UpperParts(t, done, [], u);
    t1 := OverlayPut(cfg, t, done, u);
    RootIsDirTail(u);
    TargetsTail(u);
    AddDone(t, t1, done, [], u, Filtered(cfg, u[0]));
    AddOrdered(t, t1, done, [], u);
    GroundedAfter(t, t1, done, u);
    ServedAfter(t, t1, u, Filtered(cfg, u[0]));
  }

  lemma TargetsTail(u: seq<Entry>)
    requires u != [] && TargetsEarlier(u)
    ensures TargetsEarlier(u[1..]) && (IsHardLink(u[0].stat) ==> Before(u[0].stat.linkname, u[0].path))
  {
    assert u[0] in u && forall x :: x in u[1..] ==> x in u;
  }

  /** The first link has its target in the tree, or has none. */
  lemma HeadServed(t: Tree, u: seq<Entry>)
    requires u != [] && SortedWithRepeats(u) && Before(u[0].stat.linkname, u[0].path)
    ensures Served(t, u, u[0]) <==> HasFile(t, u[0].stat.linkname)
  {
    hide Before, IsDir;
    var g, p := u[0].stat.linkname, u[0].path;
    forall y | y in u ensures y.path != g && !Under(g, y.path) {
      HeadFirst(u, y);
      if y.path != p { BeforeTransitive(g, p, y.path); }
      BeforeTotal(g, g);
      DoneSurvives(g, y.path);
    }
  }

  lemma ServedByHead(t: Tree, t1: Tree, u: seq<Entry>, stat: Stat, x: Entry)
    requires u != [] && SortedWithRepeats(u) && x in u[1..] && Before(x.stat.linkname, x.path)
    requires IsPut(t, u[0].path, stat, t1) && IsDir(stat) == IsDir(u[0].stat) && x.stat.linkname == u[0].path
    ensures Served(t, u, x) <==> Served(t1, u[1..], x)
  {
    hide Before;
    TailUpper(u);
    BuriedTail(u, u[0].path);
    BeforeTotal(u[0].path, u[0].path);
    assert u[0] in u;
    forall y | y in u ensures y.path == u[0].path ==> y == u[0] { HeadFirst(u, y); }
  }

  lemma ServedByOther(t: Tree, t1: Tree, u: seq<Entry>, stat: Stat, x: Entry)
    requires u != [] && SortedWithRepeats(u) && x in u[1..] && x.stat.linkname != u[0].path
    requires IsPut(t, u[0].path, stat, t1) && IsDir(stat) == IsDir(u[0].stat)
    ensures Served(t, u, x) <==> Served(t1, u[1..], x)
  {
    hide Before;
    TailUpper(u);
    assert u[0] in u;
    forall y | y in u ensures y == u[0] || y in u[1..] { HeadFirst(u, y); }
  }

  lemma ServedAfter(t: Tree, t1: Tree, u: seq<Entry>, stat: Stat)
    requires u != [] && SortedWithRepeats(u) && TargetsEarlier(u)
    requires IsHardLink(u[0].stat) ==> HasFile(t, u[0].stat.linkname)
    requires IsPut(t, u[0].path, stat, t1) && IsDir(stat) == IsDir(u[0].stat)
    ensures LinksServed(t, u) <==> LinksServed(t1, u[1..])
  {
    hide Before, IsPut, Served, IsHardLink, IsDir, SortedWithRepeats;
    TargetsTail(u);
    TailUpper(u);
    forall x | x in u[1..] && IsHardLink(x.stat) ensures Served(t, u, x) <==> Served(t1, u[1..], x) {
      if x.stat.linkname == u[0].path { ServedByHead(t, t1, u, stat, x); } else { ServedByOther(t, t1, u, stat, x); }
    }
    if IsHardLink(u[0].stat) { HeadServed(t, u); }
    assert u[0] in u;
    forall x | x in u ensures x == u[0] || x in u[1..] { HeadFirst(u, x); }
  }

  lemma HeadTargetThere(t: Tree, done: set<Str>, u: seq<Entry>)
    requires u != [] && OverlayFooting(t, done, u)
    ensures LinksServed(t, u) && IsHardLink(u[0].stat) ==> HasFile(t, u[0].stat.linkname)
    ensures IsHardLink(u[0].stat) && !HasFile(t, u[0].stat.linkname) ==> !LinksServed(t, u)
  {
    hide WellFormed, UpperGrounded, Before, Served;
    TargetsTail(u);
    assert u[0] in u;
    if IsHardLink(u[0].stat) { HeadServed(t, u); }
  }

  /** A link that is not served makes the overlay fail. */
  lemma {:induction false} OverlayFails(cfg: Config, t: Tree, done: set<Str>, u: seq<Entry>, rmdir: Str)
    requires OverlayFooting(t, done, u) && !LinksServed(t, u)
    ensures ApplyAll(t, Merge(cfg, [], u, rmdir), cfg.filter).None?
    decreases |u|
  {
    hide OverlayFooting, Served, Apply, ApplyAll, IsHardLink, IsPut;
    assert u != [];
    var c, rest := Change(Add, u[0].path, u[0].stat), Merge(cfg, [], u[1..], []);
    if IsHardLink(c.stat) && !HasFile(t, c.stat.linkname) {
      LinkFails(t, c, cfg.filter);
      ApplyNone(t, c, rest, cfg.filter);
    } else {
      var t1 := OverlayStep(cfg, t, done, u);
      OverlayFails(cfg, t1, done + {u[0].path}, u[1..], []);
      ApplyFirst(t, c, rest, cfg.filter);
    }
  }

  lemma {:induction false} OverlayReplay(cfg: Config, t: Tree, done: set<Str>, u: seq<Entry>, rmdir: Str)
    returns (t': Tree)
    requires OverlayFooting(t, done, u) && LinksServed(t, u)
    ensures ApplyAll(t, Merge(cfg, [], u, rmdir), cfg.filter) == Some(t')
    ensures Overlaid(cfg, t, u, t')
    decreases |u|
  {
    if u == [] {
      t' := t;
    } else {
      var c := Change(Add, u[0].path, u[0].stat);
      HeadTargetThere(t, done, u);
      var t1 := OverlayStep(cfg, t, done, u);
      t' := OverlayReplay(cfg, t1, done + {u[0].path}, u[1..], []);
      ApplyFirst(t, c, Merge(cfg, [], u[1..], []), cfg.filter);
      OverlaidAfter(cfg, t, t1, u, t');
    }
  }

  lemma OverlaidAfter(cfg: Config, t: Tree, t1: Tree, u: seq<Entry>, t': Tree)
    requires u != [] && SortedWithRepeats(u)
    requires IsPut(t, u[0].path, Filtered(cfg, u[0]), t1) && Overlaid(cfg, t1, u[1..], t')
    ensures Overlaid(cfg, t, u, t')
  {
    var p := u[0].path;
    TailUpper(u);
    forall q ensures q in t' <==> q in PathsOf(u) || (q in t && !Buried(u, q)) {
      BuriedTail(u, q);
    }
    forall x | x in u ensures Updated(t', x.path, Filtered(cfg, x)) {
      HeadFirst(u, x);
      BuriedTail(u, p);
      if x !in u[1..] {
        forall y | y in u[1..] ensures y.path != p { HeadFirst(u, y); }
      }
    }
  }

  /** Merge mode: with an empty lower walk the result is the stream laid over the old tree. A
      path has the stream's node where the stream has the path; otherwise it has the old node,
      exactly when every proper ancestor the stream contains is a directory. */
  lemma MergeModeOverlays(cfg: Config, t: Tree, u: seq<Entry>) returns (t': Tree)
    requires WellFormed(t) && HasDir(t, CURRENT)
    requires Stream(u) && TargetsEarlier(u) && LinksServed(t, u) && RootIsDir(u)
    ensures ApplyAll(t, Merge(cfg, [], u, []), cfg.filter) == Some(t')
    ensures forall x :: x in u ==> Updated(t', x.path, Filtered(cfg, x))
    ensures forall q :: q !in PathsOf(u) ==>
              (q in t' <==> q in t && forall x :: x in u && Under(q, x.path) ==> IsDir(x.stat))
    ensures forall q :: q in t' && q !in PathsOf(u) ==> t'[q] == t[q]
  {
    assert Ordered(t, {}, [], u);
    t' := OverlayReplay(cfg, t, {}, u, []);
  }

  /** In merge mode a stream with its parents, whose links point backwards, is replayed if and only if the
      target of every link is an earlier file of the stream, or an old file that stays, and "." is no other
      than a directory. */
  lemma MergeModeExactly(cfg: Config, t: Tree, u: seq<Entry>)
    requires WellFormed(t) && HasDir(t, CURRENT) && Stream(u) && TargetsEarlier(u)
    ensures Replayed(ApplyAll(t, Merge(cfg, [], u, []), cfg.filter)) <==> LinksServed(t, u) && RootIsDir(u)
    ensures RootIsDir(u) && !LinksServed(t, u) ==> ApplyAll(t, Merge(cfg, [], u, []), cfg.filter).None?
    ensures !RootIsDir(u) ==> Lost(ApplyAll(t, Merge(cfg, [], u, []), cfg.filter))
  {
    hide WellFormed, ApplyAll, Merge, Before, Served;
    if !RootIsDir(u) {
      RootLost(cfg, t, [], u, []);
    } else if LinksServed(t, u) {
      var t' := MergeModeOverlays(cfg, t, u);
      RootInOverlay(cfg, t, u, t');
    } else {
      assert Ordered(t, {}, [], u);
      OverlayFails(cfg, t, {}, u, []);
    }
  }

  lemma LinkedIsServed(t: Tree, u: seq<Entry>)
    requires Linked(u)
    ensures LinksServed(t, u) && TargetsEarlier(u)
  { }

  lemma RootInOverlay(cfg: Config, t: Tree, u: seq<Entry>, t': Tree)
    requires HasDir(t, CURRENT) && RootIsDir(u)
    requires forall x :: x in u ==> Updated(t', x.path, Filtered(cfg, x))
    requires forall q :: q !in PathsOf(u) ==>
               (q in t' <==> q in t && forall x :: x in u && Under(q, x.path) ==> IsDir(x.stat))
    requires forall q :: q in t' && q !in PathsOf(u) ==> t'[q] == t[q]
    ensures HasDir(t', CURRENT)
  {
    if CURRENT in PathsOf(u) {
      var x :| x in u && x.path == CURRENT;
    } else {
      forall x | x in u ensures !Under(CURRENT, x.path) { NothingAboveCurrent(x.path); }
    }
  }

  // ---------------------------------------------------------------- requests

  /** The regular files of u that the lower side does not have already, in order. */
  ghost function Wanted(cfg: Config, l: seq<Entry>, u: seq<Entry>): seq<Str>
  {
    if u == [] then []
    else (if IsRegular(u[0].stat) && !Matched(cfg, l, u[0]) then [u[0].path] else []) + Wanted(cfg, l, u[1..])
  }

  lemma {:induction false} WantedTail(cfg: Config, l: seq<Entry>, u: seq<Entry>)
    requires l != [] && Sorted(l) && forall x :: x in u ==> x.path != l[0].path || IsDir(x.stat)
    ensures Wanted(cfg, l, u) == Wanted(cfg, l[1..], u)
  {
    if u != [] {
      MatchedTail(cfg, l, u[0]);
      assert forall x :: x in u[1..] ==> x in u;
      WantedTail(cfg, l, u[1..]);
    }
  }

  lemma RequestsCons(e: seq<Change>, rest: seq<Change>)
    requires |e| <= 1
    ensures AllRequests(e + rest) == (if e == [] then [] else Requests(e[0])) + AllRequests(rest)
  {
    if e != [] { assert (e + rest)[1..] == rest; } else { assert e + rest == rest; }
  }

  /** The replay asks for exactly the contents it does not have, each once and in walk order. */
  lemma {:induction false} RequestsExact(cfg: Config, l: seq<Entry>, u: seq<Entry>, rmdir: Str)
    requires Sorted(l) && SortedWithRepeats(u)
    ensures AllRequests(Merge(cfg, l, u, rmdir)) == Wanted(cfg, l, u)
    decreases |l| + |u|
  {
    if l != [] || u != [] {
      HeadsInOrder(l, u);
      var t := Decide(cfg, Head(l), Head(u), rmdir);
      RequestsCons(t.emit, Merge(cfg, Rest(l, t.tookLower), Rest(u, t.tookUpper), t.rmdir));
      match PathChange(Head(l), Head(u))
      case Add =>
        TailUpper(u);
        RequestsExact(cfg, l, u[1..], t.rmdir);
        BeforeAll(l, u[0].path);
      case Delete =>
        TailLower(l);
        RequestsExact(cfg, l[1..], u, t.rmdir);
        BeforeAllUpper(u, l[0].path);
        WantedTail(cfg, l, u);
      case Modify =>
        TailLower(l);
        TailUpper(u);
        RequestsExact(cfg, l[1..], u[1..], t.rmdir);
        MatchedTail(cfg, l, u[0]);
        RepeatsAreDirs(u);
        WantedTail(cfg, l, u[1..]);
    }
  }

  lemma RepeatsAreDirs(u: seq<Entry>)
    requires u != [] && SortedWithRepeats(u)
    ensures forall x :: x in u[1..] ==> x.path != u[0].path || IsDir(x.stat)
  {
    TailUpper(u);
    BeforeTotal(u[0].path, u[0].path);
  }

  // ---------------------------------------------------------------- order of the changes

  ghost predicate ChangesAfter(p: Str, cs: seq<Change>)
  {
    forall c :: c in cs ==> Before(p, c.path)
  }

  /** Strictly increasing paths: each path is touched at most once. */
  ghost predicate StrictlyIncreasing(cs: seq<Change>)
  {
    forall i, j :: 0 <= i < j < |cs| ==> Before(cs[i].path, cs[j].path)
  }

  lemma {:induction false} MergeOrder(cfg: Config, l: seq<Entry>, u: seq<Entry>, rmdir: Str, p: Str)
    requires Sorted(l) && Sorted(u)
    requires forall e :: e in l ==> Before(p, e.path)
    requires forall e :: e in u ==> Before(p, e.path)
    ensures ChangesAfter(p, Merge(cfg, l, u, rmdir))
    ensures StrictlyIncreasing(Merge(cfg, l, u, rmdir))
    decreases |l| + |u|
  {
    if l != [] || u != [] {
      HeadsInOrder(l, u);
      var t := Decide(cfg, Head(l), Head(u), rmdir);
      var l', u' := Rest(l, t.tookLower), Rest(u, t.tookUpper);
      var rest := Merge(cfg, l', u', t.rmdir);
      var q := if t.tookLower then l[0].path else u[0].path;
      assert Before(p, q) by {
        assert t.tookLower ==> l[0] in l;
        assert t.tookUpper ==> u[0] in u;
      }
      RestAfter(l, u, t.tookLower, t.tookUpper, q);
      MergeOrder(cfg, l', u', t.rmdir, q);
      assert forall c :: c in t.emit ==> c.path == q;
      forall c | c in t.emit + rest ensures Before(p, c.path) {
        if c !in t.emit { BeforeTransitive(p, q, c.path); }
      }
      forall i, j | 0 <= i < j < |t.emit + rest|
        ensures Before((t.emit + rest)[i].path, (t.emit + rest)[j].path)
      {
        assert (t.emit + rest)[j] in rest;
      }
    }
  }

  lemma RestAfter(l: seq<Entry>, u: seq<Entry>, tookLower: bool, tookUpper: bool, q: Str)
    requires Sorted(l) && Sorted(u)
    requires tookLower ==>
               l != [] && l[0].path == q && (u != [] ==> if tookUpper then u[0].path == q else Before(q, u[0].path))
    requires tookUpper ==>
               u != [] && u[0].path == q && (l != [] ==> if tookLower then l[0].path == q else Before(q, l[0].path))
    requires tookLower || tookUpper
    ensures Sorted(Rest(l, tookLower)) && Sorted(Rest(u, tookUpper))
    ensures forall e :: e in Rest(l, tookLower) ==> Before(q, e.path)
    ensures forall e :: e in Rest(u, tookUpper) ==> Before(q, e.path)
  {
    if tookLower { TailLower(l); } else { BeforeAll(l, q); }
    if tookUpper { TailLower(u); } else { BeforeAll(u, q); }
  }

  /** Between two tree walks every emitted change is at a later path than the one before. */
  lemma ChangesIncrease(cfg: Config, l: seq<Entry>, u: seq<Entry>)
    requires TreeWalk(l) && TreeWalk(u)
    ensures StrictlyIncreasing(Merge(cfg, l, u, []))
  {
    forall e | e in l ensures Before([], e.path) { AcceptableInside(e.path); }
    forall e | e in u ensures Before([], e.path) { AcceptableInside(e.path); }
    MergeOrder(cfg, l, u, [], []);
  }

  // ---------------------------------------------------------------- no failing change

  lemma {:induction false} PrefixApplies(t: Tree, cs: seq<Change>, filter: StatMap, n: nat)
    requires n <= |cs| && ApplyAll(t, cs, filter).Some?
    ensures ApplyAll(t, cs[..n], filter).Some?
    ensures n < |cs| ==> Apply(ApplyAll(t, cs[..n], filter).value, cs[n], filter).Some?
    decreases n
  {
    if n > 0 {
      PrefixApplies(Apply(t, cs[0], filter).value, cs[1..], filter, n - 1);
      assert cs[..n][1..] == cs[1..][..n - 1];
    }
  }

  /** During the replay every Modify finds its path, every Add and Modify finds its parent
      as a directory, and no Delete is obstructed. */
  lemma NoChangeFails(cfg: Config, t: Tree, l: seq<Entry>, u: seq<Entry>, n: nat)
    requires Lists(t, l) && Stream(u) && TargetsEarlier(u) && Linkable(cfg, l, u) && RootIsDir(u)
    requires n < |Merge(cfg, l, u, [])|
    ensures var cs := Merge(cfg, l, u, []);
            var c, r := cs[n], ApplyAll(t, cs[..n], cfg.filter);
            && r.Some?
            && (c.kind == Modify ==> c.path in r.value)
            && (c.kind != Delete ==> HasParent(r.value, c.path))
            && (c.kind != Delete && IsHardLink(c.stat) ==> HasFile(r.value, c.stat.linkname))
            && (c.kind == Delete ==> c.path in r.value || !Obstructed(r.value, c.path))
  {
    var t' := SyncTheorem(cfg, t, l, u);
    var cs := Merge(cfg, l, u, []);
    PrefixApplies(t, cs, cfg.filter, n);
    MergeAcceptable(cfg, l, u, []);
    ListedWellFormed(t, l);
    assert forall c :: c in cs[..n] ==> c in cs;
    ApplyAllKeepsTree(t, cs[..n], cfg.filter);
    PresentHasParent(ApplyAll(t, cs[..n], cfg.filter).value, cs[n].path);
  }
}
