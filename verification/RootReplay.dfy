/** Replaying a diff through the writer that opens the parent directory before every change. */
module RootReplay {
  import opened Bytes
  import opened Paths
  import opened Stats
  import opened Disk
  import opened DiskWriting
  import opened Diffing
  import opened Syncing
  import opened SyncingExactly

  /** The root cannot be removed or replaced through its own handle, only given new metadata. */
  predicate RootAllows(t: Tree, c: Change)
  {
    c.path == CURRENT ==> c.OpensDir() && HasDir(t, CURRENT)
  }

  /** One change, once its parent is open. */
  function RootWrite(t: Tree, c: Change, filter: StatMap): Option<Tree>
  {
    if RootAllows(t, c) then Apply(t, c, filter) else None
  }

  /** One change: the parent directory is opened first, for a Delete too. */
  function RootApply(t: Tree, c: Change, filter: StatMap): Option<Tree>
  {
    if HasParent(t, c.path) then RootWrite(t, c, filter) else None
  }

  function RootApplyAll(t: Tree, cs: seq<Change>, filter: StatMap): Option<Tree>
    decreases |cs|
  {
    if cs == [] then Some(t)
    else
      match RootApply(t, cs[0], filter)
      case None => None
      case Some(t') => RootApplyAll(t', cs[1..], filter)
  }

  // ---------------------------------------------------------------- changes below deleted directories

  predicate BelowAny(gone: seq<Str>, p: Str) { exists i :: 0 <= i < |gone| && Under(p, gone[i]) }

  /** Some change lies below the path of an earlier Delete, or below one of the given paths. */
  predicate Redundant(cs: seq<Change>, gone: seq<Str>)
    decreases |cs|
  {
    cs != [] &&
    (BelowAny(gone, cs[0].path) || Redundant(cs[1..], if cs[0].kind == Delete then gone + [cs[0].path] else gone))
  }

  predicate BelowDelete(cs: seq<Change>, i: int, j: int)
  {
    0 <= i < j < |cs| && cs[i].kind == Delete && Under(cs[j].path, cs[i].path)
  }

  /** A change below the path of an earlier Delete. */
  predicate RedundantPair(cs: seq<Change>) { exists i, j :: 0 <= i < |cs| && 0 <= j < |cs| && BelowDelete(cs, i, j) }

  predicate SomeBelow(cs: seq<Change>, gone: seq<Str>) { exists j :: 0 <= j < |cs| && BelowAny(gone, cs[j].path) }

  lemma SomeBelowSplit(cs: seq<Change>, gone: seq<Str>)
    requires cs != []
    ensures SomeBelow(cs, gone) <==> BelowAny(gone, cs[0].path) || SomeBelow(cs[1..], gone)
  {
    if SomeBelow(cs, gone) {
      var j :| 0 <= j < |cs| && BelowAny(gone, cs[j].path);
      if j > 0 { assert cs[1..][j - 1] == cs[j]; }
    }
    if SomeBelow(cs[1..], gone) {
      var j :| 0 <= j < |cs[1..]| && BelowAny(gone, cs[1..][j].path);
      assert cs[j + 1] == cs[1..][j];
    }
  }

  lemma BelowAnyGrows(gone: seq<Str>, d: Str, p: Str)
    ensures BelowAny(gone + [d], p) <==> BelowAny(gone, p) || Under(p, d)
    ensures BelowAny([d], p) <==> Under(p, d)
  {
    var g := gone + [d];
    if BelowAny(gone, p) {
      var i :| 0 <= i < |gone| && Under(p, gone[i]);
      assert g[i] == gone[i];
    }
    assert g[|gone|] == d && [d][0] == d;
  }

  lemma SomeBelowGrows(cs: seq<Change>, gone: seq<Str>, d: Str)
    ensures SomeBelow(cs, gone + [d]) <==> SomeBelow(cs, gone) || SomeBelow(cs, [d])
  {
    hide BelowAny, Under;
    forall j | 0 <= j < |cs|
      ensures BelowAny(gone + [d], cs[j].path) <==> BelowAny(gone, cs[j].path) || BelowAny([d], cs[j].path)
    {
      BelowAnyGrows(gone, d, cs[j].path);
    }
  }

  lemma PairSplit(cs: seq<Change>)
    requires cs != []
    ensures RedundantPair(cs) <==>
              (cs[0].kind == Delete && SomeBelow(cs[1..], [cs[0].path])) || RedundantPair(cs[1..])
  {
    var r, d := cs[1..], cs[0].path;
    if RedundantPair(cs) {
      var i, j :| 0 <= i < |cs| && 0 <= j < |cs| && BelowDelete(cs, i, j);
      BelowAnyGrows([], d, cs[j].path);
      assert r[j - 1] == cs[j];
      if i > 0 { assert BelowDelete(r, i - 1, j - 1); }
    }
    if RedundantPair(r) {
      var i, j :| 0 <= i < |r| && 0 <= j < |r| && BelowDelete(r, i, j);
      assert BelowDelete(cs, i + 1, j + 1);
    }
    if cs[0].kind == Delete && SomeBelow(r, [d]) {
      var j :| 0 <= j < |r| && BelowAny([d], r[j].path);
      BelowAnyGrows([], d, r[j].path);
      assert BelowDelete(cs, 0, j + 1);
    }
  }

  lemma {:induction false} RedundantMeaning(cs: seq<Change>, gone: seq<Str>)
    ensures Redundant(cs, gone) <==> SomeBelow(cs, gone) || RedundantPair(cs)
    decreases |cs|
  {
    hide SomeBelow, RedundantPair, BelowAny;
    if cs == [] {
      NoneOfNothing(gone);
    } else {
      RedundantMeaning(cs[1..], if cs[0].kind == Delete then gone + [cs[0].path] else gone);
      SomeBelowSplit(cs, gone);
      SomeBelowGrows(cs[1..], gone, cs[0].path);
      PairSplit(cs);
    }
  }

  lemma NoneOfNothing(gone: seq<Str>)
    ensures !SomeBelow([], gone) && !RedundantPair([])
  { }

  lemma NoneBelowNothing(cs: seq<Change>)
    ensures !SomeBelow(cs, [])
  { }

  // ---------------------------------------------------------------- the replay

  /** A lower entry still to come is in the tree, or suppressed, or below a deleted directory. */
  ghost predicate Known(t: Tree, gone: seq<Str>, l: seq<Entry>, rmdir: Str)
  {
    forall e :: e in l ==> e.path in t || Covers(rmdir, e.path) || BelowAny(gone, e.path)
  }

  /** Nothing is left, and nothing comes, at or below a deleted directory. */
  ghost predicate Absent(t: Tree, gone: seq<Str>, u: seq<Entry>)
  {
    forall i :: 0 <= i < |gone| ==>
      && gone[i] != []
      && (forall q :: q in t ==> q != gone[i] && !Under(q, gone[i]))
      && (forall x :: x in u ==> x.path != gone[i] && !Under(x.path, gone[i]))
  }

  /** Below a deleted directory there is no parent to open. */
  lemma NoParent(t: Tree, gone: seq<Str>, u: seq<Entry>, p: Str)
    requires Absent(t, gone, u) && BelowAny(gone, p) && Normal(p)
    ensures !HasParent(t, p)
  {
    hide Normal, Parent, Outside;
    ProperInside(p);
    var i :| 0 <= i < |gone| && Under(p, gone[i]);
    AncestorOfParent(p, gone[i]);
  }

  lemma RootFirst(t: Tree, c: Change, rest: seq<Change>, filter: StatMap, gone: seq<Str>)
    ensures RootApplyAll(t, [c] + rest, filter)
         == (match RootApply(t, c, filter) case None => None case Some(t') => RootApplyAll(t', rest, filter))
    ensures Redundant([c] + rest, gone) <==>
              BelowAny(gone, c.path) || Redundant(rest, if c.kind == Delete then gone + [c.path] else gone)
  {
    assert ([c] + rest)[1..] == rest;
  }

  lemma {:induction false} RootReplayFrom(cfg: Config, t: Tree, done: set<Str>, l: seq<Entry>, u: seq<Entry>, rmdir: Str,
                                          gone: seq<Str>)
    requires Inv(cfg, t, done, l, u, rmdir) && TargetsEarlier(u) && Known(t, gone, l, rmdir) && Absent(t, gone, u)
    ensures RootApplyAll(t, Merge(cfg, l, u, rmdir), cfg.filter).Some? <==> !Redundant(Merge(cfg, l, u, rmdir), gone)
    ensures RootApplyAll(t, Merge(cfg, l, u, rmdir), cfg.filter).Some? ==>
              (RootApplyAll(t, Merge(cfg, l, u, rmdir), cfg.filter)
               == ApplyAll(t, Merge(cfg, l, u, rmdir), cfg.filter))
    decreases |l| + |u|
  {
    hide Inv, Known, Absent, Apply, RootApply, RootApplyAll, ApplyAll, Redundant, Covers, Before, Normal;
    if l == [] && u == [] {
      NothingToDo(cfg, t, rmdir, gone);
    } else {
      HeadsInOrder(l, u);
      match PathChange(Head(l), Head(u))
      case Add =>
        MergeAdd(cfg, l, u, rmdir);
        var c := Change(Add, u[0].path, u[0].stat);
        var t1 := RootAdd(cfg, t, done, l, u, rmdir, gone);
        RootReplayFrom(cfg, t1, done + {u[0].path}, l, u[1..], [], gone);
        RootFirst(t, c, Merge(cfg, l, u[1..], []), cfg.filter, gone);
        ApplyFirst(t, c, Merge(cfg, l, u[1..], []), cfg.filter);
      case Delete =>
        MergeDelete(cfg, l, u, rmdir);
        if Covers(rmdir, l[0].path) {
          SkipKeepsInv(cfg, t, done, l, u, rmdir);
          TailKnown(t, gone, l, rmdir);
          RootReplayFrom(cfg, t, done, l[1..], u, rmdir, gone);
        } else {
          var c := Change(Delete, l[0].path, EMPTY_STAT);
          var rmdir' := if rmdir == [] && IsDir(l[0].stat) then DirPrefix(l[0].path) else [];
          RootFirst(t, c, Merge(cfg, l[1..], u, rmdir'), cfg.filter, gone);
          if BelowAny(gone, l[0].path) {
            HeadProperIn(cfg, t, done, l, u, rmdir);
            NoParent(t, gone, u, l[0].path);
            NoRootApply(t, c, cfg.filter);
          } else {
            RootDelete(cfg, t, done, l, u, rmdir, gone);
            RootReplayFrom(cfg, Without(t, l[0].path), done, l[1..], u, rmdir', gone + [l[0].path]);
            ApplyFirst(t, c, Merge(cfg, l[1..], u, rmdir'), cfg.filter);
          }
        }
      case Modify =>
        MergeModify(cfg, l, u, rmdir);
        var stat := Filtered(cfg, u[0]);
        if SameFile(cfg, l[0], stat) {
          SameKind(cfg, l[0], u[0]);
          RootKeep(cfg, t, done, l, u, rmdir, gone);
          RootReplayFrom(cfg, t, done + {u[0].path}, l[1..], u[1..], [], gone);
        } else {
          var c := Change(Modify, u[0].path, u[0].stat);
          var rmdir' := if IsDir(l[0].stat) && !IsDir(stat) then DirPrefix(l[0].path) else [];
          var t1 := RootPut(cfg, t, done, l, u, rmdir, gone);
          RootReplayFrom(cfg, t1, done + {u[0].path}, l[1..], u[1..], rmdir', gone);
          RootFirst(t, c, Merge(cfg, l[1..], u[1..], rmdir'), cfg.filter, gone);
          ApplyFirst(t, c, Merge(cfg, l[1..], u[1..], rmdir'), cfg.filter);
        }
    }
  }

  lemma NothingToDo(cfg: Config, t: Tree, rmdir: Str, gone: seq<Str>)
    ensures RootApplyAll(t, Merge(cfg, [], [], rmdir), cfg.filter) == Some(t)
    ensures ApplyAll(t, Merge(cfg, [], [], rmdir), cfg.filter) == Some(t) && !Redundant(Merge(cfg, [], [], rmdir), gone)
  { }

  lemma NoRootApply(t: Tree, c: Change, filter: StatMap)
    requires !HasParent(t, c.path)
    ensures RootApply(t, c, filter).None?
  { }

  lemma TailKnown(t: Tree, gone: seq<Str>, l: seq<Entry>, rmdir: Str)
    requires Known(t, gone, l, rmdir) && l != []
    ensures Known(t, gone, l[1..], rmdir)
  { }

  lemma AbsentAfterPut(t: Tree, t1: Tree, gone: seq<Str>, u: seq<Entry>, stat: Stat)
    requires Absent(t, gone, u) && u != [] && IsPut(t, u[0].path, stat, t1)
    ensures Absent(t1, gone, u[1..]) && !BelowAny(gone, u[0].path)
  {
    assert u[0] in u;
    assert forall x :: x in u[1..] ==> x in u;
  }

  lemma KnownAfterAdd(t: Tree, t1: Tree, done: set<Str>, gone: seq<Str>, l: seq<Entry>, u: seq<Entry>, rmdir: Str,
                      stat: Stat)
    requires Known(t, gone, l, rmdir) && u != [] && IsPut(t, u[0].path, stat, t1) && IsDir(stat) == IsDir(u[0].stat)
    requires WellFormed(t) && Ordered(t, done, l, u) && Holds(t, done, l, u) && Suppressing(t, l, u, rmdir)
    requires RootIsDir(u)
    requires l != [] ==> Before(u[0].path, l[0].path)
    ensures Known(t1, gone, l, [])
  {
    hide Ordered, Holds, Before;
    SortedParts(t, done, l, u);
    BeforeAll(l, u[0].path);
    assert u[0] in u;
    UpperNotCovered(t, l, u, rmdir, u[0]);
    NoneCovered(t, l, u, rmdir, u[0].path);
    SamePathSameKind(t, done, l, u);
  }

  lemma SortedParts(t: Tree, done: set<Str>, l: seq<Entry>, u: seq<Entry>)
    requires Ordered(t, done, l, u)
    ensures Sorted(l) && SortedWithRepeats(u) && Inner(l)
  { }

  lemma HeadProper(l: seq<Entry>)
    requires Inner(l) && l != []
    ensures Normal(l[0].path) && l[0].path != CURRENT
  {
    hide Normal;
    assert l[0] in l;
    ProperInside(l[0].path);
  }

  lemma HeadProperIn(cfg: Config, t: Tree, done: set<Str>, l: seq<Entry>, u: seq<Entry>, rmdir: Str)
    requires Inv(cfg, t, done, l, u, rmdir) && l != []
    ensures Normal(l[0].path)
  {
    HeadProper(l);
  }

  lemma RootAdd(cfg: Config, t: Tree, done: set<Str>, l: seq<Entry>, u: seq<Entry>, rmdir: Str, gone: seq<Str>)
    returns (t1: Tree)
    requires Inv(cfg, t, done, l, u, rmdir) && TargetsEarlier(u) && Known(t, gone, l, rmdir) && Absent(t, gone, u)
    requires u != [] && PathChange(Head(l), Head(u)) == Add
    ensures (var c := Change(Add, u[0].path, u[0].stat);
             && RootApply(t, c, cfg.filter) == Apply(t, c, cfg.filter) == Some(t1)
             && !BelowAny(gone, c.path))
    ensures Inv(cfg, t1, done + {u[0].path}, l, u[1..], []) && TargetsEarlier(u[1..])
    ensures Known(t1, gone, l, []) && Absent(t1, gone, u[1..])
  {
    hide Ordered, Holds, UpperGrounded, LinksGrounded, LowerGrounded, Suppressing, Reachable, Known, Absent, Apply,
         WellFormed, Before, Covers, Under, BelowAny, Merge;
    HeadsInOrder(l, u);
    AddKeepsInv(cfg, t, done, l, u, rmdir);
    t1 := Apply(t, Change(Add, u[0].path, u[0].stat), cfg.filter).value;
    TreeOk(t, done, l, u);
    AddHasParent(t, done, l, u);
    assert u[0] in u;
    KnownAfterAdd(t, t1, done, gone, l, u, rmdir, Filtered(cfg, u[0]));
    AbsentAfterPut(t, t1, gone, u, Filtered(cfg, u[0]));
  }

  lemma TreeOk(t: Tree, done: set<Str>, l: seq<Entry>, u: seq<Entry>)
    requires Holds(t, done, l, u)
    ensures WellFormed(t) && HasDir(t, CURRENT)
    ensures forall e :: e in l && e.path in t ==> t[e.path].stat == e.stat
  { }

  lemma AddHasParent(t: Tree, done: set<Str>, l: seq<Entry>, u: seq<Entry>)
    requires u != [] && Ordered(t, done, l, u) && UpperGrounded(t, done, u) && HasDir(t, CURRENT)
    ensures HasParent(t, u[0].path)
  {
    assert u[0] in u;
    HeadClear(t, done, u);
    ClearPath(t, u[0].path);
  }

  /** A directory in the way of an added entry is a repetition of it. */
  lemma SamePathSameKind(t: Tree, done: set<Str>, l: seq<Entry>, u: seq<Entry>)
    requires Ordered(t, done, l, u) && Holds(t, done, l, u) && u != [] && (l != [] ==> Before(u[0].path, l[0].path))
    requires RootIsDir(u)
    ensures HasDir(t, u[0].path) ==> IsDir(u[0].stat)
    ensures forall e :: e in l && e.path in t && Under(e.path, u[0].path) ==> HasDir(t, u[0].path)
  {
    hide WellFormed, Before, IsDir, Under, Normal;
    BeforeAll(l, u[0].path);
    BeforeTotal(u[0].path, u[0].path);
    assert u[0] in u;
    AboveIsDir(t, u[0].path);
  }

  lemma AboveIsDir(t: Tree, p: Str)
    requires WellFormed(t)
    ensures forall q :: q in t && Under(q, p) ==> HasDir(t, p)
  {
    hide Normal;
    forall q | q in t && Under(q, p) ensures HasDir(t, p) { AcceptableInside(q); }
  }

  lemma MergeAdd(cfg: Config, l: seq<Entry>, u: seq<Entry>, rmdir: Str)
    requires u != [] && PathChange(Head(l), Head(u)) == Add
    ensures Merge(cfg, l, u, rmdir) == [Change(Add, u[0].path, u[0].stat)] + Merge(cfg, l, u[1..], [])
  { }

  lemma KnownAfterDelete(t: Tree, gone: seq<Str>, l: seq<Entry>, u: seq<Entry>, rmdir: Str, rmdir': Str)
    requires Known(t, gone, l, rmdir) && l != [] && Sorted(l) && Suppressing(t, l, u, rmdir)
    requires !Covers(rmdir, l[0].path) && Normal(l[0].path)
    ensures Known(Without(t, l[0].path), gone + [l[0].path], l[1..], rmdir')
  {
    hide Before, Normal;
    var p := l[0].path;
    var t', gone' := Without(t, p), gone + [p];
    assert l[0] in l;
    ProperInside(p);
    TailLower(l);
    SuppressedEarlier(t, l, u, rmdir);
    NoneCovered(t, l, u, rmdir, p);
    forall e | e in l[1..] ensures e.path in t' || BelowAny(gone', e.path) {
      assert e in l && Before(p, e.path);
      BeforeTotal(p, e.path);
      BelowAnyGrows(gone, p, e.path);
    }
  }

  lemma SuppressedEarlier(t: Tree, l: seq<Entry>, u: seq<Entry>, rmdir: Str)
    requires l != [] && Suppressing(t, l, u, rmdir)
    ensures rmdir != [] ==> Before(rmdir[..|rmdir| - 1], l[0].path)
  {
    assert l[0] in l;
  }

  lemma AbsentAfterDelete(t: Tree, done: set<Str>, gone: seq<Str>, l: seq<Entry>, u: seq<Entry>)
    requires Absent(t, gone, u) && l != [] && Ordered(t, done, l, u) && UpperGrounded(t, done, u)
    requires (u != [] ==> Before(l[0].path, u[0].path)) && WellFormed(t) && l[0].path in t
    ensures Absent(Without(t, l[0].path), gone + [l[0].path], u)
  {
    hide Before, Normal, WellFormed;
    var p := l[0].path;
    BeforeAllUpper(u, p);
    assert l[0] in l;
    AcceptableInside(p);
    BeforeTotal(p, p);
    UpperNotBelow(t, done, u, p);
  }

  lemma RootDelete(cfg: Config, t: Tree, done: set<Str>, l: seq<Entry>, u: seq<Entry>, rmdir: Str, gone: seq<Str>)
    requires Inv(cfg, t, done, l, u, rmdir) && TargetsEarlier(u) && Known(t, gone, l, rmdir) && Absent(t, gone, u)
    requires l != [] && PathChange(Head(l), Head(u)) == Delete
    requires !Covers(rmdir, l[0].path) && !BelowAny(gone, l[0].path)
    ensures (var c := Change(Delete, l[0].path, EMPTY_STAT);
             RootApply(t, c, cfg.filter) == Apply(t, c, cfg.filter) == Some(Without(t, l[0].path)))
    ensures (var rmdir' := if rmdir == [] && IsDir(l[0].stat) then DirPrefix(l[0].path) else [];
             && Inv(cfg, Without(t, l[0].path), done, l[1..], u, rmdir')
             && Known(Without(t, l[0].path), gone + [l[0].path], l[1..], rmdir'))
    ensures Absent(Without(t, l[0].path), gone + [l[0].path], u)
  {
    hide Ordered, Holds, UpperGrounded, LinksGrounded, LowerGrounded, Suppressing, Reachable, Absent, Apply,
         WellFormed, Before, Under, BelowAny, Merge;
    var rmdir' := if rmdir == [] && IsDir(l[0].stat) then DirPrefix(l[0].path) else [];
    HeadsInOrder(l, u);
    DeleteKeepsInv(cfg, t, done, l, u, rmdir);
    assert l[0] in l;
    TreeOk(t, done, l, u);
    SortedParts(t, done, l, u);
    HeadProper(l);
    PresentHasParent(t, l[0].path);
    KnownAfterDelete(t, gone, l, u, rmdir, rmdir');
    AbsentAfterDelete(t, done, gone, l, u);
  }

  lemma RootKeep(cfg: Config, t: Tree, done: set<Str>, l: seq<Entry>, u: seq<Entry>, rmdir: Str, gone: seq<Str>)
    requires Inv(cfg, t, done, l, u, rmdir) && TargetsEarlier(u) && Known(t, gone, l, rmdir) && Absent(t, gone, u)
    requires l != [] && u != [] && l[0].path == u[0].path && SameFile(cfg, l[0], Filtered(cfg, u[0]))
    ensures Inv(cfg, t, done + {u[0].path}, l[1..], u[1..], []) && TargetsEarlier(u[1..])
    ensures Known(t, gone, l[1..], []) && Absent(t, gone, u[1..])
  {
    KeepKeepsInv(cfg, t, done, l, u, rmdir);
    TailLower(l);
    UpperNotCovered(t, l, u, rmdir, u[0]);
    NoneCovered(t, l, u, rmdir, u[0].path);
    assert forall e :: e in l[1..] ==> e in l;
  }

  lemma KnownAfterPut(t: Tree, t1: Tree, gone: seq<Str>, l: seq<Entry>, u: seq<Entry>, rmdir: Str, stat: Stat)
    requires Known(t, gone, l, rmdir) && l != [] && u != [] && l[0].path == u[0].path && Sorted(l) && WellFormed(t)
    requires IsPut(t, u[0].path, stat, t1) && Suppressing(t, l, u, rmdir)
    requires u[0].path in t && t[u[0].path].stat == l[0].stat && u[0].path != CURRENT
    ensures Known(t1, gone, l[1..], if IsDir(l[0].stat) && !IsDir(stat) then DirPrefix(l[0].path) else [])
  {
    hide Before, WellFormed, Suppressing;
    TailLower(l);
    assert u[0] in u;
    UpperNotCovered(t, l, u, rmdir, u[0]);
    NoneCovered(t, l, u, rmdir, u[0].path);
    AboveIsDir(t, u[0].path);
  }

  lemma RootPut(cfg: Config, t: Tree, done: set<Str>, l: seq<Entry>, u: seq<Entry>, rmdir: Str, gone: seq<Str>)
    returns (t1: Tree)
    requires Inv(cfg, t, done, l, u, rmdir) && TargetsEarlier(u) && Known(t, gone, l, rmdir) && Absent(t, gone, u)
    requires l != [] && u != [] && l[0].path == u[0].path && !SameFile(cfg, l[0], Filtered(cfg, u[0]))
    ensures (var c := Change(Modify, u[0].path, u[0].stat);
             RootApply(t, c, cfg.filter) == Apply(t, c, cfg.filter) == Some(t1) && !BelowAny(gone, c.path))
    ensures (var rmdir' := if IsDir(l[0].stat) && !IsDir(Filtered(cfg, u[0])) then DirPrefix(l[0].path) else [];
             Inv(cfg, t1, done + {u[0].path}, l[1..], u[1..], rmdir') && Known(t1, gone, l[1..], rmdir'))
    ensures Absent(t1, gone, u[1..]) && TargetsEarlier(u[1..])
  {
    hide Ordered, Holds, UpperGrounded, LinksGrounded, LowerGrounded, Suppressing, Reachable, Known, Absent, Apply,
         WellFormed, Before, Covers, Under, BelowAny, Merge;
    PutKeepsInv(cfg, t, done, l, u, rmdir);
    t1 := Apply(t, Change(Modify, u[0].path, u[0].stat), cfg.filter).value;
    assert l[0] in l;
    TreeOk(t, done, l, u);
    SortedParts(t, done, l, u);
    HeadProper(l);
    PresentHasParent(t, u[0].path);
    KnownAfterPut(t, t1, gone, l, u, rmdir, Filtered(cfg, u[0]));
    AbsentAfterPut(t, t1, gone, u, Filtered(cfg, u[0]));
  }

  // ---------------------------------------------------------------- which walks fail

  /** The first entry lies below d. */
  predicate StartsBelow(l: seq<Entry>, d: Str) { l != [] && Under(l[0].path, d) }

  /** l without the leading entries below d. */
  function Beyond(l: seq<Entry>, d: Str): (r: seq<Entry>)
    ensures |r| <= |l|
  {
    if StartsBelow(l, d) then Beyond(l[1..], d) else l
  }

  /** Going along both walks, a removed directory with something below it is met while a suppression is
      open. Of consecutive removed directories every other one opens a suppression, a directory replaced
      by a file opens one too, and whatever else is met, except below those, closes it. */
  predicate Stumbles(l: seq<Entry>, u: seq<Entry>, open: bool)
    decreases |l| + |u|
  {
    (l != [] || u != []) &&
    match PathChange(Head(l), Head(u))
    case Add => Stumbles(l, u[1..], false)
    case Delete =>
      var d := l[0].path;
      if !IsDir(l[0].stat) then Stumbles(l[1..], u, false)
      else (open && StartsBelow(l[1..], d)) || Stumbles(Beyond(l[1..], d), u, !open)
    case Modify =>
      if IsDir(l[0].stat) && !IsDir(u[0].stat) then Stumbles(Beyond(l[1..], l[0].path), u[1..], true)
      else Stumbles(l[1..], u[1..], false)
  }

  /** What is left of two walks: what the upper one has below a lower path, it has below a directory. */
  ghost predicate Paired(l: seq<Entry>, u: seq<Entry>)
  {
    && Sorted(l) && SortedWithRepeats(u)
    && (forall e, x :: e in l && x in u && Under(x.path, e.path) ==> DirIn(u, e.path))
    && (forall e, f :: e in l && f in l && Under(f.path, e.path) ==> IsDir(e.stat))
  }

  /** The suppressed directory lies behind both walks, and the upper one has nothing below it. */
  ghost predicate Passed(l: seq<Entry>, u: seq<Entry>, rmdir: Str)
  {
    rmdir != [] ==>
      var d := rmdir[..|rmdir| - 1];
      && rmdir == DirPrefix(d)
      && (forall e :: e in l ==> Before(d, e.path))
      && (forall x :: x in u ==> Before(d, x.path) && !Under(x.path, d))
  }

  /** Nothing but what is suppressed lies below a deleted directory. */
  ghost predicate Untouched(l: seq<Entry>, u: seq<Entry>, rmdir: Str, gone: seq<Str>)
  {
    && (forall e :: e in l && BelowAny(gone, e.path) ==> Covers(rmdir, e.path))
    && (forall x :: x in u ==> !BelowAny(gone, x.path))
  }

  /** What the suppression still leaves of the lower walk. */
  function Unsuppressed(l: seq<Entry>, rmdir: Str): seq<Entry>
  {
    if rmdir == [] then l else Beyond(l, rmdir[..|rmdir| - 1])
  }

  lemma PairedTails(l: seq<Entry>, u: seq<Entry>)
    requires Paired(l, u) && (l != [] || u != [])
    ensures PathChange(Head(l), Head(u)).Add? ==> Paired(l, u[1..])
    ensures PathChange(Head(l), Head(u)).Delete? ==> Paired(l[1..], u)
    ensures PathChange(Head(l), Head(u)).Modify? ==> Paired(l[1..], u[1..])
  {
    HeadsInOrder(l, u);
    if l != [] { TailLower(l); }
    if u != [] {
      TailUpper(u);
      if PathChange(Head(l), Head(u)).Add? { BeforeAll(l, u[0].path); }
      if PathChange(Head(l), Head(u)).Modify? { BeforeTotal(l[0].path, l[0].path); }
      forall e, x | e in l && e.path != u[0].path && x in u[1..] && Under(x.path, e.path)
        ensures DirIn(u[1..], e.path)
      {
        var y :| y in u && y.path == e.path && IsDir(y.stat);
        HeadFirst(u, y);
      }
    }
  }

  /** The upper walk has nothing below a removed path, or below one that it has as a file. */
  lemma NothingUpperBelow(l: seq<Entry>, u: seq<Entry>)
    requires Paired(l, u) && l != [] && !PathChange(Head(l), Head(u)).Add?
    requires PathChange(Head(l), Head(u)).Modify? ==> !IsDir(u[0].stat)
    ensures forall x :: x in u ==> !Under(x.path, l[0].path)
  {
    HeadsInOrder(l, u);
    assert l[0] in l;
    forall x | x in u ensures !Under(x.path, l[0].path) {
      if Under(x.path, l[0].path) {
        var y :| y in u && y.path == l[0].path && IsDir(y.stat);
        HeadFirst(u, y);
        BeforeAllUpper(u, l[0].path);
      }
    }
  }

  /** Past an entry that is not below the suppressed directory nothing is. */
  lemma SuppressionOver(l: seq<Entry>, u: seq<Entry>, rmdir: Str, p: Str)
    requires Sorted(l) && Passed(l, u, rmdir) && !Covers(rmdir, p)
    requires (exists e :: e in l && e.path == p) || (exists x :: x in u && x.path == p)
    requires forall e :: e in l ==> e.path == p || Before(p, e.path)
    ensures forall e :: e in l ==> !Covers(rmdir, e.path)
    ensures Unsuppressed(l, rmdir) == l
  {
    if rmdir != [] {
      var d := rmdir[..|rmdir| - 1];
      forall e | e in l ensures !Covers(rmdir, e.path) {
        if Covers(rmdir, e.path) && e.path != p { DescendantsContiguous(d, p, e.path); }
      }
      if l != [] { assert l[0] in l; }
    }
  }

  lemma PassedAt(l: seq<Entry>, u: seq<Entry>, l': seq<Entry>, u': seq<Entry>, p: Str)
    requires forall e :: e in l' ==> e in l && Before(p, e.path)
    requires forall x :: x in u' ==> x in u && Before(p, x.path)
    requires forall x :: x in u ==> !Under(x.path, p)
    ensures Passed(l', u', DirPrefix(p)) && Unsuppressed(l', DirPrefix(p)) == Beyond(l', p)
  {
    assert DirPrefix(p)[..|DirPrefix(p)| - 1] == p;
  }

  lemma LowerBehind(l: seq<Entry>)
    requires Sorted(l) && l != []
    ensures forall e :: e in l ==> e.path == l[0].path || Before(l[0].path, e.path)
  {
    forall e | e in l ensures e.path == l[0].path || Before(l[0].path, e.path) { HeadFirstLower(l, e); }
  }

  /** A removed entry: what is below it is suppressed, or would come next. */
  lemma AfterRemoval(l: seq<Entry>, u: seq<Entry>, rmdir: Str, gone: seq<Str>, rmdir': Str)
    requires Paired(l, u) && Untouched(l, u, rmdir, gone) && l != [] && PathChange(Head(l), Head(u)).Delete?
    requires forall e :: e in l ==> !Covers(rmdir, e.path)
    requires rmdir' == DirPrefix(l[0].path) || (rmdir' == [] && !StartsBelow(l[1..], l[0].path))
    ensures Untouched(l[1..], u, rmdir', gone + [l[0].path])
  {
    hide BelowAny;
    var p := l[0].path;
    TailLower(l);
    NothingUpperBelow(l, u);
    forall e | e in l[1..] && Under(e.path, p) ensures Covers(rmdir', e.path) {
      if rmdir' == [] {
        LowerBehind(l[1..]);
        assert l[1..][0] in l[1..];
        if e.path != l[1].path { DescendantsContiguous(p, l[1].path, e.path); }
      }
    }
    forall e | e in l[1..] && BelowAny(gone + [p], e.path) ensures Covers(rmdir', e.path) {
      BelowAnyGrows(gone, p, e.path);
    }
    forall x | x in u ensures !BelowAny(gone + [p], x.path) { BelowAnyGrows(gone, p, x.path); }
  }

  /** What lies below a deleted directory and is not suppressed is deleted next. */
  lemma DeletedNext(cfg: Config, l: seq<Entry>, u: seq<Entry>, d: Str, gone: seq<Str>)
    requires StartsBelow(l, d) && Sorted(l) && SortedWithRepeats(u)
    requires forall x :: x in u ==> Before(d, x.path) && !Under(x.path, d)
    ensures Redundant(Merge(cfg, l, u, []), gone + [d])
  {
    if u != [] {
      assert u[0] in u;
      BeforeTotal(l[0].path, u[0].path);
      if Before(u[0].path, l[0].path) { DescendantsContiguous(d, u[0].path, l[0].path); }
    }
    MergeDelete(cfg, l, u, []);
    var rmdir' := if IsDir(l[0].stat) then DirPrefix(l[0].path) else [];
    var c := Change(Delete, l[0].path, EMPTY_STAT);
    BelowAnyGrows(gone, d, c.path);
    RedundantFirst(c, Merge(cfg, l[1..], u, rmdir'), gone + [d]);
  }

  lemma RedundantFirst(c: Change, rest: seq<Change>, gone: seq<Str>)
    ensures Redundant([c] + rest, gone) <==>
              BelowAny(gone, c.path) || Redundant(rest, if c.kind == Delete then gone + [c.path] else gone)
  {
    assert ([c] + rest)[1..] == rest;
  }

  lemma UntouchedRest(l: seq<Entry>, u: seq<Entry>, l': seq<Entry>, u': seq<Entry>, rmdir: Str, rmdir': Str,
                      gone: seq<Str>)
    requires Untouched(l, u, rmdir, gone) && (forall e :: e in l' ==> e in l) && forall x :: x in u' ==> x in u
    requires forall e :: e in l' ==> !Covers(rmdir, e.path)
    ensures Untouched(l', u', rmdir', gone)
  { }

  lemma StumbleRemoved(l: seq<Entry>, u: seq<Entry>, open: bool)
    requires l != [] && PathChange(Head(l), Head(u)).Delete?
    ensures Stumbles(l, u, open) <==>
      if !IsDir(l[0].stat) then Stumbles(l[1..], u, false)
      else (open && StartsBelow(l[1..], l[0].path)) || Stumbles(Beyond(l[1..], l[0].path), u, !open)
  { }

  /** A removed entry that is not suppressed. */
  lemma {:induction false} StumblesAtRemoval(cfg: Config, l: seq<Entry>, u: seq<Entry>, rmdir: Str, gone: seq<Str>)
    requires Paired(l, u) && Passed(l, u, rmdir) && Untouched(l, u, rmdir, gone)
    requires l != [] && PathChange(Head(l), Head(u)).Delete? && !Covers(rmdir, l[0].path)
    ensures Redundant(Merge(cfg, l, u, rmdir), gone) <==> Stumbles(Unsuppressed(l, rmdir), u, rmdir != [])
    decreases |l| + |u|, 0
  {
    hide Stumbles, Redundant, Merge, Under, Before, IsDir;
    var p := l[0].path;
    HeadsInOrder(l, u);
    assert l[0] in l;
    LowerBehind(l);
    SuppressionOver(l, u, rmdir, p);
    MergeDelete(cfg, l, u, rmdir);
    StumbleRemoved(l, u, rmdir != []);
    PairedTails(l, u);
    NothingUpperBelow(l, u);
    TailLower(l);
    BeforeAllUpper(u, p);
    var opens := rmdir == [] && IsDir(l[0].stat);
    var rmdir' := if opens then DirPrefix(p) else [];
    RedundantFirst(Change(Delete, p, EMPTY_STAT), Merge(cfg, l[1..], u, rmdir'), gone);
    if !opens && StartsBelow(l[1..], p) {
      FilesHaveNothingBelow(l, u);
      DeletedNext(cfg, l[1..], u, p, gone);
    } else {
      AfterRemoval(l, u, rmdir, gone, rmdir');
      if opens { PassedAt(l, u, l[1..], u, p); } else { NotBelow(l[1..], p); }
      StumblesExactly(cfg, l[1..], u, rmdir', gone + [p]);
    }
  }

  lemma NotBelow(l: seq<Entry>, d: Str)
    ensures !StartsBelow(l, d) ==> Beyond(l, d) == l
  { }

  lemma FilesHaveNothingBelow(l: seq<Entry>, u: seq<Entry>)
    requires Paired(l, u) && l != [] && StartsBelow(l[1..], l[0].path)
    ensures IsDir(l[0].stat)
  {
    assert l[0] in l && l[1] in l;
  }

  lemma StumbleSame(l: seq<Entry>, u: seq<Entry>, open: bool)
    requires l != [] && u != [] && PathChange(Head(l), Head(u)).Modify?
    ensures Stumbles(l, u, open) <==>
      if IsDir(l[0].stat) && !IsDir(u[0].stat) then Stumbles(Beyond(l[1..], l[0].path), u[1..], true)
      else Stumbles(l[1..], u[1..], false)
  { }

  lemma {:induction false} StumblesAtBoth(cfg: Config, l: seq<Entry>, u: seq<Entry>, rmdir: Str, gone: seq<Str>)
    requires Paired(l, u) && Passed(l, u, rmdir) && Untouched(l, u, rmdir, gone)
    requires l != [] && u != [] && PathChange(Head(l), Head(u)).Modify?
    ensures Redundant(Merge(cfg, l, u, rmdir), gone) <==> Stumbles(Unsuppressed(l, rmdir), u, rmdir != [])
    decreases |l| + |u|, 0
  {
    hide Stumbles, Redundant, Merge, Under, Before, SameFile, IsDir, BelowAny;
    var p, stat := u[0].path, Filtered(cfg, u[0]);
    HeadsInOrder(l, u);
    assert l[0] in l && u[0] in u;
    LowerBehind(l);
    UpperUncovered(l, u, rmdir);
    SuppressionOver(l, u, rmdir, p);
    MergeModify(cfg, l, u, rmdir);
    StumbleSame(l, u, rmdir != []);
    PairedTails(l, u);
    TailLower(l);
    TailUpper(u);
    var opens := IsDir(l[0].stat) && !IsDir(stat);
    var rmdir' := if opens then DirPrefix(p) else [];
    UntouchedRest(l, u, l[1..], u[1..], rmdir, rmdir', gone);
    if opens {
      NothingUpperBelow(l, u);
      FileOnce(u);
      PassedAt(l, u, l[1..], u[1..], p);
    }
    StumblesExactly(cfg, l[1..], u[1..], rmdir', gone);
    RedundantFirst(Change(Modify, p, u[0].stat), Merge(cfg, l[1..], u[1..], rmdir'), gone);
  }

  lemma FileOnce(u: seq<Entry>)
    requires SortedWithRepeats(u) && u != [] && !IsDir(u[0].stat)
    ensures forall x :: x in u[1..] ==> Before(u[0].path, x.path)
  {
    TailUpper(u);
  }

  lemma UpperUncovered(l: seq<Entry>, u: seq<Entry>, rmdir: Str)
    requires Passed(l, u, rmdir)
    ensures forall x :: x in u ==> !Covers(rmdir, x.path)
  { }

  lemma StumbleAdded(l: seq<Entry>, u: seq<Entry>, open: bool)
    requires u != [] && PathChange(Head(l), Head(u)).Add?
    ensures Stumbles(l, u, open) <==> Stumbles(l, u[1..], false)
  { }

  lemma {:induction false} StumblesAtAdd(cfg: Config, l: seq<Entry>, u: seq<Entry>, rmdir: Str, gone: seq<Str>)
    requires Paired(l, u) && Passed(l, u, rmdir) && Untouched(l, u, rmdir, gone)
    requires u != [] && PathChange(Head(l), Head(u)).Add?
    ensures Redundant(Merge(cfg, l, u, rmdir), gone) <==> Stumbles(Unsuppressed(l, rmdir), u, rmdir != [])
    decreases |l| + |u|, 0
  {
    hide Stumbles, Redundant, Merge, Under, Before, BelowAny;
    var p := u[0].path;
    HeadsInOrder(l, u);
    assert u[0] in u;
    BeforeAll(l, p);
    UpperUncovered(l, u, rmdir);
    SuppressionOver(l, u, rmdir, p);
    MergeAdd(cfg, l, u, rmdir);
    StumbleAdded(l, u, rmdir != []);
    PairedTails(l, u);
    TailUpper(u);
    UntouchedRest(l, u, l, u[1..], rmdir, [], gone);
    StumblesExactly(cfg, l, u[1..], [], gone);
    RedundantFirst(Change(Add, p, u[0].stat), Merge(cfg, l, u[1..], []), gone);
  }

  /** At every state of the merge what is still emitted is redundant exactly when the walks stumble. */
  lemma {:induction false} StumblesExactly(cfg: Config, l: seq<Entry>, u: seq<Entry>, rmdir: Str, gone: seq<Str>)
    requires Paired(l, u) && Passed(l, u, rmdir) && Untouched(l, u, rmdir, gone)
    ensures Redundant(Merge(cfg, l, u, rmdir), gone) <==> Stumbles(Unsuppressed(l, rmdir), u, rmdir != [])
    decreases |l| + |u|, 1
  {
    hide Stumbles, Redundant, Merge, Paired, Passed, Untouched, Under, Before, BelowAny;
    if l == [] && u == [] {
      NothingStumbles(cfg, rmdir, gone);
    } else {
      match PathChange(Head(l), Head(u))
      case Add => StumblesAtAdd(cfg, l, u, rmdir, gone);
      case Delete =>
        if Covers(rmdir, l[0].path) {
          MergeDelete(cfg, l, u, rmdir);
          SuppressedStep(l, u, rmdir, gone);
          StumblesExactly(cfg, l[1..], u, rmdir, gone);
        } else {
          StumblesAtRemoval(cfg, l, u, rmdir, gone);
        }
      case Modify => StumblesAtBoth(cfg, l, u, rmdir, gone);
    }
  }

  lemma NothingStumbles(cfg: Config, rmdir: Str, gone: seq<Str>)
    ensures !Redundant(Merge(cfg, [], [], rmdir), gone) && !Stumbles(Unsuppressed([], rmdir), [], rmdir != [])
  { }

  lemma SuppressedStep(l: seq<Entry>, u: seq<Entry>, rmdir: Str, gone: seq<Str>)
    requires Paired(l, u) && Passed(l, u, rmdir) && Untouched(l, u, rmdir, gone)
    requires l != [] && PathChange(Head(l), Head(u)).Delete? && Covers(rmdir, l[0].path)
    ensures Paired(l[1..], u) && Passed(l[1..], u, rmdir) && Untouched(l[1..], u, rmdir, gone)
    ensures Unsuppressed(l, rmdir) == Unsuppressed(l[1..], rmdir)
  {
    hide Before, BelowAny;
    PairedTails(l, u);
    assert forall e :: e in l[1..] ==> e in l;
  }

  lemma WalksPaired(t: Tree, l: seq<Entry>, u: seq<Entry>)
    requires Lists(t, l) && Stream(u)
    ensures Paired(l, u)
  {
    forall e, f | e in l && f in l && Under(f.path, e.path) ensures IsDir(e.stat) {
      assert DirIn(l, e.path);
      var y :| y in l && y.path == e.path && IsDir(y.stat);
      var i, j :| 0 <= i < |l| && l[i] == e && 0 <= j < |l| && l[j] == y;
      BeforeTotal(e.path, e.path);
    }
  }

  /** The diff emits a change below an earlier Delete exactly when the walks stumble. */
  lemma RedundantExactly(cfg: Config, t: Tree, l: seq<Entry>, u: seq<Entry>)
    requires Lists(t, l) && Stream(u)
    ensures RedundantPair(Merge(cfg, l, u, [])) <==> Stumbles(l, u, false)
  {
    hide Merge, Redundant, RedundantPair, Lists, Stream, Paired, Stumbles;
    WalksPaired(t, l, u);
    StumblesExactly(cfg, l, u, [], []);
    RedundantMeaning(Merge(cfg, l, u, []), []);
    NoneBelowNothing(Merge(cfg, l, u, []));
  }

  /** Where the change through the opened parent succeeds it is the plain one, and the root stays. */
  lemma RootApplyIsApply(t: Tree, c: Change, filter: StatMap)
    requires HasDir(t, CURRENT) && RootApply(t, c, filter).Some?
    ensures Apply(t, c, filter) == RootApply(t, c, filter) && HasDir(RootApply(t, c, filter).value, CURRENT)
  {
    NothingAboveCurrent(c.path);
  }

  lemma {:induction false} RootApplyAllIsApplyAll(t: Tree, cs: seq<Change>, filter: StatMap)
    requires HasDir(t, CURRENT) && RootApplyAll(t, cs, filter).Some?
    ensures ApplyAll(t, cs, filter) == RootApplyAll(t, cs, filter) && Replayed(ApplyAll(t, cs, filter))
    decreases |cs|
  {
    hide Apply, RootApply;
    if cs != [] {
      RootApplyIsApply(t, cs[0], filter);
      RootApplyAllIsApplyAll(Apply(t, cs[0], filter).value, cs[1..], filter);
    }
  }

  /** Against a real tree the replay through opened parents succeeds exactly when the plain one does and
      the two walks do not stumble, and then it ends like the plain replay. */
  lemma RootReplayExact(cfg: Config, t: Tree, l: seq<Entry>, u: seq<Entry>)
    requires Lists(t, l) && Stream(u) && TargetsEarlier(u)
    ensures (var cs := Merge(cfg, l, u, []);
             && (RootApplyAll(t, cs, cfg.filter).Some? <==>
                   Replayed(ApplyAll(t, cs, cfg.filter)) && !Stumbles(l, u, false))
             && (RootApplyAll(t, cs, cfg.filter).Some? <==>
                   Linkable(cfg, l, u) && RootIsDir(u) && !Stumbles(l, u, false))
             && (RootApplyAll(t, cs, cfg.filter).Some? ==>
                   RootApplyAll(t, cs, cfg.filter) == ApplyAll(t, cs, cfg.filter)))
  {
    hide Footing, Merge, RootApplyAll, ApplyAll, Redundant, RedundantPair, Stream, Stumbles, Linkable, Replayed,
         LinksGrounded, TreeWalk;
    var cs := Merge(cfg, l, u, []);
    SyncExactly(cfg, t, l, u);
    if RootApplyAll(t, cs, cfg.filter).Some? { RootApplyAllIsApplyAll(t, cs, cfg.filter); }
    if Linkable(cfg, l, u) && RootIsDir(u) {
      StartFooting(t, l, u);
      StartLinks(cfg, t, l, u);
      NothingDeletedYet(t, l, u);
      RootReplayFrom(cfg, t, {}, l, u, [], []);
      RedundantMeaning(cs, []);
      NoneBelowNothing(cs);
      RedundantExactly(cfg, t, l, u);
    }
  }

  lemma NothingDeletedYet(t: Tree, l: seq<Entry>, u: seq<Entry>)
    requires Lists(t, l)
    ensures Known(t, [], l, []) && Absent(t, [], u)
  { }

  // ---------------------------------------------------------------- a pair of adjacent removals

  const NAME_A: Str := [97]
  const NAME_B: Str := [98]
  const NAME_BC: Str := [98, 47, 99]

  /** Directories a and b, and a file b/c. */
  const OLD_WALK: seq<Entry> := [Entry(NAME_A, DIR_STAT), Entry(NAME_B, DIR_STAT), Entry(NAME_BC, EMPTY_STAT)]
  const OLD_TREE: Tree := map[CURRENT := Node(DIR_STAT, []), NAME_A := Node(DIR_STAT, []),
                              NAME_B := Node(DIR_STAT, []), NAME_BC := Node(EMPTY_STAT, [])]

  lemma OldOrder()
    ensures Before(NAME_A, NAME_B) && Before(NAME_A, NAME_BC) && Before(NAME_B, NAME_BC)
    ensures forall a :: !Under(NAME_A, a) && !Under(NAME_B, a) && (Under(NAME_BC, a) <==> a == NAME_B)
  {
    PrefixBefore(NAME_B, NAME_BC);
    assert NAME_A[0] < NAME_B[0] && NAME_A[0] < NAME_BC[0];
    assert NAME_BC[..2] == NAME_B + [SEP];
    forall a ensures !Under(NAME_A, a) && !Under(NAME_B, a) && (Under(NAME_BC, a) <==> a == NAME_B) {
      assert (a + [SEP])[|a|] == SEP;
      if Under(NAME_BC, a) { assert a == NAME_BC[..|a|] && NAME_BC[|a|] == SEP; }
    }
  }

  lemma OldNames()
    ensures Normal(NAME_A) && Normal(NAME_B) && Normal(NAME_BC)
  {
    SplitName(NAME_A);
    SplitName(NAME_B);
    SplitName([99]);
    SplitConcat(NAME_B, [99]);
    assert NAME_BC == NAME_B + [SEP] + [99] && Split(NAME_BC) == [NAME_B, [99]];
  }

  lemma OldPaths()
    ensures OLD_TREE.Keys == PathsOf(OLD_WALK) + {CURRENT}
  {
    assert OLD_WALK[0] in OLD_WALK && OLD_WALK[1] in OLD_WALK && OLD_WALK[2] in OLD_WALK;
    forall p ensures p in OLD_TREE <==> p in PathsOf(OLD_WALK) + {CURRENT} { }
  }

  lemma OldIsListed()
    ensures Lists(OLD_TREE, OLD_WALK) && Feed([])
  {
    hide Normal, Before, Under, PathsOf;
    OldOrder();
    OldNames();
    OldPaths();
    assert IsDir(DIR_STAT);
    assert OLD_WALK[1] in OLD_WALK;
    assert DirIn(OLD_WALK, NAME_B);
  }

  /** The directory after a removed directory ends the suppression, so its contents are deleted too. */
  lemma AdjacentRemovals(cfg: Config)
    ensures Merge(cfg, OLD_WALK, [], []) == [Change(Delete, NAME_A, EMPTY_STAT), Change(Delete, NAME_B, EMPTY_STAT),
                                             Change(Delete, NAME_BC, EMPTY_STAT)]
  {
    assert IsDir(DIR_STAT);
    assert !(DirPrefix(NAME_A) <= NAME_B) by { assert DirPrefix(NAME_A)[0] != NAME_B[0]; }
    MergeDelete(cfg, OLD_WALK, [], []);
    assert OLD_WALK[1..] == [Entry(NAME_B, DIR_STAT), Entry(NAME_BC, EMPTY_STAT)];
    MergeDelete(cfg, OLD_WALK[1..], [], DirPrefix(NAME_A));
    assert OLD_WALK[1..][1..] == [Entry(NAME_BC, EMPTY_STAT)];
    MergeDelete(cfg, [Entry(NAME_BC, EMPTY_STAT)], [], []);
    assert [Entry(NAME_BC, EMPTY_STAT)][1..] == [];
  }

  /** Emptying that tree works with the plain writer and fails with the one that opens parents. */
  lemma RootReplayFails(cfg: Config)
    ensures Lists(OLD_TREE, OLD_WALK) && Feed([])
    ensures ApplyAll(OLD_TREE, Merge(cfg, OLD_WALK, [], []), cfg.filter) == Some(map[CURRENT := Node(DIR_STAT, [])])
    ensures RootApplyAll(OLD_TREE, Merge(cfg, OLD_WALK, [], []), cfg.filter).None?
  {
    hide Merge, Lists, Feed, ApplyAll, RootApplyAll;
    OldIsListed();
    OldOrder();
    AdjacentRemovals(cfg);
    var cs := Merge(cfg, OLD_WALK, [], []);
    assert BelowDelete(cs, 1, 2);
    RedundantExactly(cfg, OLD_TREE, OLD_WALK, []);
    RootReplayExact(cfg, OLD_TREE, OLD_WALK, []);
    var t' := SyncTheorem(cfg, OLD_TREE, OLD_WALK, []);
    assert t'.Keys == {CURRENT};
    assert t' == map[CURRENT := OLD_TREE[CURRENT]];
  }
}
