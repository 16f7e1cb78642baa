/** Which streams can be replayed, and what stands in the way of the others. */
module SyncingExactly {
  import opened Bytes
  import opened Paths
  import opened Stats
  import opened Disk
  import opened DiskWriting
  import opened Diffing
  import opened Syncing

  // ---------------------------------------------------------------- the paths of the changes

  ghost predicate ChangesWithin(cs: seq<Change>, ps: set<Str>) { forall c :: c in cs ==> c.path in ps }

  /** Every change of a diff is at a path of one of the walks. */
  lemma {:induction false} MergeWithin(cfg: Config, l: seq<Entry>, u: seq<Entry>, rmdir: Str)
    ensures ChangesWithin(Merge(cfg, l, u, rmdir), PathsOf(l) + PathsOf(u))
    decreases |l| + |u|
  {
    hide SameFile, HasBit, Before;
    if l != [] || u != [] {
      var t := Decide(cfg, Head(l), Head(u), rmdir);
      var l', u' := Rest(l, t.tookLower), Rest(u, t.tookUpper);
      assert l != [] ==> l[0] in l && forall e :: e in l[1..] ==> e in l;
      assert u != [] ==> u[0] in u && forall e :: e in u[1..] ==> e in u;
      MergeWithin(cfg, l', u', t.rmdir);
      assert PathsOf(l') + PathsOf(u') <= PathsOf(l) + PathsOf(u);
      assert forall c :: c in t.emit ==> c.path in PathsOf(l) + PathsOf(u);
    }
  }

  ghost predicate AllAcceptable(cs: seq<Change>) { forall c :: c in cs ==> Acceptable(c.path) }

  lemma MergeAcceptable(cfg: Config, l: seq<Entry>, u: seq<Entry>, rmdir: Str)
    requires Inner(l) && Named(u)
    ensures AllAcceptable(Merge(cfg, l, u, rmdir))
  {
    hide Normal, Merge;
    MergeWithin(cfg, l, u, rmdir);
  }

  // ---------------------------------------------------------------- an entry that takes the root's place

  lemma RootTaken(t: Tree, c: Change, filter: StatMap)
    requires WellFormed(t) && c.kind != Delete && c.path == CURRENT && !IsDir(c.stat) && Apply(t, c, filter).Some?
    ensures Apply(t, c, filter).value.Keys == {CURRENT} && HasFile(Apply(t, c, filter).value, CURRENT)
  {
    hide Normal;
    var t' := Apply(t, c, filter).value;
    ApplyKeepsTree(t, c, filter);
    forall p | p in t' ensures p == CURRENT {
      BelowRoot(p);
    }
  }

  /** The replay failed, or there is nothing left but a root that is no directory. */
  ghost predicate Lost(r: Option<Tree>) { r.Some? ==> r.value.Keys == {CURRENT} && HasFile(r.value, CURRENT) }

  /** Behind a root that is no directory there is no place for anything. */
  lemma NoPlaceLeft(t: Tree, cs: seq<Change>, filter: StatMap)
    requires t.Keys == {CURRENT} && HasFile(t, CURRENT)
    requires forall c :: c in cs ==> Normal(c.path)
    ensures Lost(ApplyAll(t, cs, filter))
  {
    hide Normal;
    if cs != [] {
      ProperInside(cs[0].path);
      assert Obstructed(t, cs[0].path);
    }
  }

  lemma RootReplaced(cfg: Config, t: Tree, l: seq<Entry>, u: seq<Entry>, rmdir: Str)
    requires WellFormed(t) && SortedWithRepeats(u) && Inner(l) && Named(u) && u != []
    requires u[0].path == CURRENT && !IsDir(u[0].stat) && PathChange(Head(l), Head(u)) == Add
    ensures Lost(ApplyAll(t, Merge(cfg, l, u, rmdir), cfg.filter))
  {
    hide Normal, WellFormed, Apply, Before, SortedWithRepeats;
    var c, rest := Change(Add, CURRENT, u[0].stat), Merge(cfg, l, u[1..], []);
    TailUpper(u);
    BeforeTotal(CURRENT, CURRENT);
    MergeWithin(cfg, l, u[1..], []);
    if Apply(t, c, cfg.filter).Some? {
      RootTaken(t, c, cfg.filter);
      NoPlaceLeft(Apply(t, c, cfg.filter).value, rest, cfg.filter);
      ApplyFirst(t, c, rest, cfg.filter);
    } else {
      assert ([c] + rest)[0] == c;
    }
  }

  lemma NoRootBelow(l: seq<Entry>)
    requires Inner(l)
    ensures CURRENT !in PathsOf(l)
  {
    hide Normal;
    forall e | e in l ensures e.path != CURRENT { ProperInside(e.path); }
  }

  /** One turn of the merge, up to its change. */
  lemma TurnFails(cfg: Config, t: Tree, l: seq<Entry>, u: seq<Entry>, rmdir: Str)
    requires l != [] || u != []
    ensures var k := Decide(cfg, Head(l), Head(u), rmdir);
            var rest := Merge(cfg, Rest(l, k.tookLower), Rest(u, k.tookUpper), k.rmdir);
            && |k.emit| <= 1
            && ApplyAll(t, Merge(cfg, l, u, rmdir), cfg.filter) ==
                 if k.emit == [] then ApplyAll(t, rest, cfg.filter)
                 else if Apply(t, k.emit[0], cfg.filter).None? then None
                 else ApplyAll(Apply(t, k.emit[0], cfg.filter).value, rest, cfg.filter)
  {
    hide Apply, SameFile;
    var k := Decide(cfg, Head(l), Head(u), rmdir);
    var rest := Merge(cfg, Rest(l, k.tookLower), Rest(u, k.tookUpper), k.rmdir);
    if k.emit == [] {
      assert k.emit + rest == rest;
    } else {
      assert k.emit == [k.emit[0]];
      assert ([k.emit[0]] + rest)[1..] == rest;
    }
  }

  lemma TurnAcceptable(cfg: Config, l: seq<Entry>, u: seq<Entry>, rmdir: Str)
    requires (l != [] || u != []) && Inner(l) && Named(u)
    ensures var k := Decide(cfg, Head(l), Head(u), rmdir);
            && (forall c :: c in k.emit ==> Acceptable(c.path))
            && Inner(Rest(l, k.tookLower)) && Named(Rest(u, k.tookUpper))
  {
    hide Normal, SameFile, Before;
    assert l != [] ==> l[0] in l && forall e :: e in l[1..] ==> e in l;
    assert u != [] ==> u[0] in u && forall e :: e in u[1..] ==> e in u;
  }

  /** A feed with an entry "." that is no directory destroys the tree it is replayed on, or fails. */
  lemma {:induction false} RootLost(cfg: Config, t: Tree, l: seq<Entry>, u: seq<Entry>, rmdir: Str)
    requires WellFormed(t) && Sorted(l) && SortedWithRepeats(u) && Inner(l) && Named(u) && !RootIsDir(u)
    ensures Lost(ApplyAll(t, Merge(cfg, l, u, rmdir), cfg.filter))
    decreases |l| + |u|
  {
    hide Acceptable, Normal, WellFormed, Apply, ApplyAll, Merge, Before, Sorted, SortedWithRepeats, SameFile, Lost;
    var k := Decide(cfg, Head(l), Head(u), rmdir);
    var x :| x in u && x.path == CURRENT && !IsDir(x.stat);
    HeadsInOrder(l, u);
    HeadFirst(u, x);
    TailUpper(u);
    NoRootBelow(l);
    if l != [] { TailLower(l); assert l[0] in l; }
    if k.tookUpper && u[0] == x {
      RootReplaced(cfg, t, l, u, rmdir);
    } else {
      TurnFails(cfg, t, l, u, rmdir);
      TurnAcceptable(cfg, l, u, rmdir);
      FailureIsLoss();
      var l', u' := Rest(l, k.tookLower), Rest(u, k.tookUpper);
      assert x in u';
      if k.emit == [] {
        RootLost(cfg, t, l', u', k.rmdir);
      } else if Apply(t, k.emit[0], cfg.filter).Some? {
        ApplyKeepsTree(t, k.emit[0], cfg.filter);
        RootLost(cfg, Apply(t, k.emit[0], cfg.filter).value, l', u', k.rmdir);
      }
    }
  }

  lemma FailureIsLoss()
    ensures Lost(None)
  { }

  // ---------------------------------------------------------------- a link whose target is missing

  /** A link that does not find its target is not made. */
  lemma LinkFails(t: Tree, c: Change, filter: StatMap)
    requires c.kind != Delete && IsHardLink(c.stat) && !HasFile(t, c.stat.linkname)
    ensures Apply(t, c, filter).None?
  { }

  /** The first link of the stream: its target counts as soon as the tree has it as a file. */
  lemma HeadTarget(t: Tree, done: set<Str>, l: seq<Entry>, u: seq<Entry>)
    requires u != [] && Ordered(t, done, l, u) && Holds(t, done, l, u) && TargetsEarlier(u)
    requires IsHardLink(u[0].stat) && (l != [] ==> !Before(l[0].path, u[0].path))
    ensures LinkGrounded(t, done, u, u[0]) <==> HasFile(t, u[0].stat.linkname)
  {
    hide WellFormed, UpperGrounded;
    var g, p := u[0].stat.linkname, u[0].path;
    assert u[0] in u;
    if FileBefore(u, g, p) {
      var y :| y in u && y.path == g && Before(g, p);
      HeadFirst(u, y);
    }
    if HasFile(t, g) && g !in done {
      var e :| e in l && e.path == g;
      HeadFirstLower(l, e);
      if e != l[0] { BeforeTransitive(l[0].path, g, p); }
    }
  }

  /** A link whose target is neither there nor to come before it makes the replay fail. */
  lemma {:induction false} LinkLost(cfg: Config, t: Tree, done: set<Str>, l: seq<Entry>, u: seq<Entry>, rmdir: Str)
    requires Footing(t, done, l, u, rmdir) && TargetsEarlier(u) && RootIsDir(u)
    requires !LinksGrounded(cfg, t, done, l, u)
    ensures ApplyAll(t, Merge(cfg, l, u, rmdir), cfg.filter) == None
    decreases |l| + |u|, 1
  {
    hide Footing, Matched, LinkGrounded, Apply, ApplyAll, Merge, Before;
    match PathChange(Head(l), Head(u))
    case Add => LinkLostAdd(cfg, t, done, l, u, rmdir);
    case Delete => LinkLostDelete(cfg, t, done, l, u, rmdir);
    case Modify => LinkLostModify(cfg, t, done, l, u, rmdir);
  }

  lemma FootingParts(t: Tree, done: set<Str>, l: seq<Entry>, u: seq<Entry>, rmdir: Str)
    requires Footing(t, done, l, u, rmdir)
    ensures Ordered(t, done, l, u) && Holds(t, done, l, u) && Sorted(l) && SortedWithRepeats(u) && done <= t.Keys
  { }

  lemma RootIsDirTail(u: seq<Entry>)
    requires u != [] && RootIsDir(u)
    ensures RootIsDir(u[1..]) && (u[0].path == CURRENT ==> IsDir(u[0].stat))
  {
    assert u[0] in u && forall x :: x in u[1..] ==> x in u;
  }

  lemma ApplyNone(t: Tree, c: Change, rest: seq<Change>, filter: StatMap)
    requires Apply(t, c, filter).None?
    ensures ApplyAll(t, [c] + rest, filter) == None
  {
    assert ([c] + rest)[0] == c;
  }

  lemma {:induction false} LinkLostAdd(cfg: Config, t: Tree, done: set<Str>, l: seq<Entry>, u: seq<Entry>, rmdir: Str)
    requires Footing(t, done, l, u, rmdir) && TargetsEarlier(u) && RootIsDir(u)
    requires !LinksGrounded(cfg, t, done, l, u)
    requires (l != [] || u != []) && PathChange(Head(l), Head(u)) == Add
    ensures ApplyAll(t, Merge(cfg, l, u, rmdir), cfg.filter) == None
    decreases |l| + |u|, 0
  {
    hide Footing, LinksGrounded, Matched, LinkGrounded, Apply, ApplyAll, Before, Ordered, Holds, Sorted, IsPut,
         SortedWithRepeats, RootIsDir, TargetsEarlier, IsHardLink;
    var c, rest := Change(Add, u[0].path, u[0].stat), Merge(cfg, l, u[1..], []);
    HeadsInOrder(l, u);
    FootingParts(t, done, l, u, rmdir);
    if IsHardLink(c.stat) && !HasFile(t, c.stat.linkname) {
      LinkFails(t, c, cfg.filter);
      ApplyNone(t, c, rest, cfg.filter);
    } else {
      RootIsDirTail(u);
      var t' := AddKeepsFooting(cfg, t, done, l, u, rmdir);
      if l != [] { BeforeTotal(u[0].path, l[0].path); }
      if IsHardLink(u[0].stat) { HeadTarget(t, done, l, u); }
      PutKind(t, c, Filtered(cfg, u[0]), t');
      LinksAfterHead(cfg, t, t', done, l, l, u);
      LinkLost(cfg, t', done + {u[0].path}, l, u[1..], []);
      ApplyFirst(t, c, rest, cfg.filter);
    }
  }

  lemma PutKind(t: Tree, c: Change, stat: Stat, t': Tree)
    requires IsPut(t, c.path, stat, t')
    ensures c.path in t' && IsDir(t'[c.path].stat) == IsDir(stat)
  { }

  lemma {:induction false} LinkLostDelete(cfg: Config, t: Tree, done: set<Str>, l: seq<Entry>, u: seq<Entry>,
                                          rmdir: Str)
    requires Footing(t, done, l, u, rmdir) && TargetsEarlier(u) && RootIsDir(u)
    requires !LinksGrounded(cfg, t, done, l, u)
    requires (l != [] || u != []) && PathChange(Head(l), Head(u)) == Delete
    ensures ApplyAll(t, Merge(cfg, l, u, rmdir), cfg.filter) == None
    decreases |l| + |u|, 0
  {
    hide Footing, LinksGrounded, Apply, ApplyAll, Before, RootIsDir, TargetsEarlier, Merge;
    HeadsInOrder(l, u);
    MergeDelete(cfg, l, u, rmdir);
    if Covers(rmdir, l[0].path) {
      SkipKeepsFooting(cfg, t, done, l, u, rmdir);
      LinkLost(cfg, t, done, l[1..], u, rmdir);
    } else {
      var rmdir' := if rmdir == [] && IsDir(l[0].stat) then DirPrefix(l[0].path) else [];
      DeleteKeepsFooting(cfg, t, done, l, u, rmdir);
      LinkLost(cfg, Without(t, l[0].path), done, l[1..], u, rmdir');
      ApplyFirst(t, Change(Delete, l[0].path, EMPTY_STAT), Merge(cfg, l[1..], u, rmdir'), cfg.filter);
    }
  }

  lemma {:induction false} LinkLostModify(cfg: Config, t: Tree, done: set<Str>, l: seq<Entry>, u: seq<Entry>,
                                          rmdir: Str)
    requires Footing(t, done, l, u, rmdir) && TargetsEarlier(u) && RootIsDir(u)
    requires !LinksGrounded(cfg, t, done, l, u)
    requires (l != [] || u != []) && PathChange(Head(l), Head(u)) == Modify
    ensures ApplyAll(t, Merge(cfg, l, u, rmdir), cfg.filter) == None
    decreases |l| + |u|, 0
  {
    hide Footing, LinksGrounded, Matched, LinkGrounded, Apply, ApplyAll, Before, Ordered, Holds, Sorted, Merge, IsPut,
         SortedWithRepeats, RootIsDir, TargetsEarlier, SameFile, IsHardLink;
    HeadsInOrder(l, u);
    MergeModify(cfg, l, u, rmdir);
    FootingParts(t, done, l, u, rmdir);
    RootIsDirTail(u);
    BeforeTotal(u[0].path, l[0].path);
    MatchedRest(cfg, l, u);
    MatchedTail(cfg, l, u[0]);
    var stat := Filtered(cfg, u[0]);
    var rmdir' := if IsDir(l[0].stat) && !IsDir(stat) then DirPrefix(l[0].path) else [];
    var c, rest := Change(Modify, u[0].path, u[0].stat), Merge(cfg, l[1..], u[1..], rmdir');
    if SameFile(cfg, l[0], stat) {
      SameKind(cfg, l[0], u[0]);
      KeepKeepsFooting(cfg, t, done, l, u, rmdir);
      LinksAfterHead(cfg, t, t, done, l, l[1..], u);
      LinkLost(cfg, t, done + {u[0].path}, l[1..], u[1..], []);
    } else if IsHardLink(c.stat) && !HasFile(t, c.stat.linkname) {
      LinkFails(t, c, cfg.filter);
      ApplyNone(t, c, rest, cfg.filter);
    } else {
      var t' := PutKeepsFooting(cfg, t, done, l, u, rmdir);
      if IsHardLink(u[0].stat) { HeadTarget(t, done, l, u); }
      PutKind(t, c, stat, t');
      LinksAfterHead(cfg, t, t', done, l, l[1..], u);
      LinkLost(cfg, t', done + {u[0].path}, l[1..], u[1..], rmdir');
      ApplyFirst(t, c, rest, cfg.filter);
    }
  }

  // ---------------------------------------------------------------- exactly

  /** A stream with its parents, whose links point backwards, is replayed on a tree if and only if
      every link that has to be made finds its target and "." is no other than a directory. */
  lemma SyncExactly(cfg: Config, t: Tree, l: seq<Entry>, u: seq<Entry>)
    requires Lists(t, l) && Stream(u) && TargetsEarlier(u)
    ensures Replayed(ApplyAll(t, Merge(cfg, l, u, []), cfg.filter)) <==> Linkable(cfg, l, u) && RootIsDir(u)
    ensures RootIsDir(u) && !Linkable(cfg, l, u) ==> ApplyAll(t, Merge(cfg, l, u, []), cfg.filter).None?
    ensures !RootIsDir(u) ==> Lost(ApplyAll(t, Merge(cfg, l, u, []), cfg.filter))
  {
    hide Linkable, LinksGrounded, Footing, ApplyAll, Merge, Closed, WellFormed, Sorted, SortedWithRepeats, Matched,
         Normal;
    StartFooting(t, l, u);
    StartLinks(cfg, t, l, u);
    ListedWellFormed(t, l);
    if !RootIsDir(u) {
      RootLost(cfg, t, l, u, []);
    } else if Linkable(cfg, l, u) {
      var _ := SyncTheorem(cfg, t, l, u);
    } else {
      LinkLost(cfg, t, {}, l, u, []);
    }
  }

  /** What links to earlier files only is replayed if and only if "." is no other than a directory. */
  lemma FeedExactly(cfg: Config, t: Tree, l: seq<Entry>, u: seq<Entry>)
    requires Lists(t, l) && Feed(u)
    ensures Replayed(ApplyAll(t, Merge(cfg, l, u, []), cfg.filter)) <==> RootIsDir(u)
    ensures !RootIsDir(u) ==> Lost(ApplyAll(t, Merge(cfg, l, u, []), cfg.filter))
  {
    hide Lists, Stream, ApplyAll, Merge, Before, Matched;
    LinkedIsLinkable(cfg, l, u);
    SyncExactly(cfg, t, l, u);
  }

  lemma LinkedIsLinkable(cfg: Config, l: seq<Entry>, u: seq<Entry>)
    requires Linked(u)
    ensures Linkable(cfg, l, u) && TargetsEarlier(u)
  { }
}
