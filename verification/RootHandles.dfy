/** The stack of open directories while the tree changes: opening from it is looking the parent up, and no
    change touches a directory that is held open. */
module RootHandles {
  import opened Bytes
  import opened Paths
  import opened Stats
  import opened Disk
  import opened Diffing
  import opened DiskWriting
  import opened RootReplay
  import opened Syncing
  import opened SyncingExactly

  /** What opening dir from top walks through. */
  ghost predicate Passable(t: Tree, top: Str, dir: Str)
  {
    forall a :: (a == dir || Under(dir, a)) && Below(a, top) ==> HasDir(t, a)
  }

  /** rootStack.get on the paths of the open directories: pops down to the directory or to one above it, and
      opens what is missing from there. What is already open is not looked up again. */
  ghost function Seek(t: Tree, stack: seq<Str>, dir: Str): Option<seq<Str>>
    decreases |stack|
  {
    if stack == [] then None
    else
      var top := stack[|stack| - 1];
      if top == dir then Some(stack)
      else if Below(dir, top) then if Passable(t, top, dir) then Some(stack + [dir]) else None
      else Seek(t, stack[..|stack| - 1], dir)
  }

  /** The changes of a list, one after the other, with the stack between them. */
  ghost function StackApplyAll(t: Tree, stack: seq<Str>, cs: seq<Change>, filter: StatMap): Option<Tree>
    decreases |cs|
  {
    if cs == [] then Some(t)
    else
      match Seek(t, stack, DirOf(cs[0].path))
      case None => None
      case Some(stack') =>
        match RootWrite(t, cs[0], filter)
        case None => None
        case Some(t') => StackApplyAll(t', stack', cs[1..], filter)
  }

  /** What is open is there: the base at the bottom, each directory below the one before it. */
  ghost predicate Open(t: Tree, stack: seq<Str>)
  {
    && stack != [] && stack[0] == CURRENT && HasDir(t, CURRENT)
    && (forall i :: 0 < i < |stack| ==> HasDir(t, stack[i]) && stack[i] != CURRENT)
    && (forall i, j :: 0 <= i < j < |stack| ==> Below(stack[j], stack[i]))
  }

  /** Every open directory is dir or one above it. */
  ghost predicate Leading(stack: seq<Str>, dir: Str)
  {
    forall i :: 0 <= i < |stack| ==> stack[i] == CURRENT || stack[i] == dir || Under(dir, stack[i])
  }

  lemma PassableIsPresent(t: Tree, top: Str, dir: Str)
    requires WellFormed(t) && Below(dir, top) && Acceptable(dir)
    ensures Passable(t, top, dir) <==> HasDir(t, dir)
  {
    hide Acceptable;
    AcceptableInside(dir);
    NothingAboveCurrent(top);
  }

  lemma OpenPrefix(t: Tree, stack: seq<Str>)
    requires Open(t, stack) && |stack| > 1
    ensures Open(t, stack[..|stack| - 1])
  { }

  lemma OpenMore(t: Tree, stack: seq<Str>, dir: Str)
    requires Open(t, stack) && HasDir(t, dir) && Acceptable(dir) && dir != CURRENT && Below(dir, stack[|stack| - 1])
    ensures Open(t, stack + [dir])
  {
    hide Acceptable;
    BelowRoot(dir);
    var more := stack + [dir];
    forall i, j | 0 <= i < j < |more| ensures Below(more[j], more[i]) {
      if j == |stack| && 0 < i < |stack| - 1 {
        assert Below(stack[|stack| - 1], stack[i]);
        UnderTransitive(dir, stack[|stack| - 1], stack[i]);
      }
    }
  }

  lemma LeadingAll(t: Tree, stack: seq<Str>, dir: Str)
    requires Open(t, stack) && (stack[|stack| - 1] == dir || Below(dir, stack[|stack| - 1]))
    ensures Leading(stack, dir)
  {
    var top := stack[|stack| - 1];
    forall i | 0 <= i < |stack| ensures stack[i] == CURRENT || stack[i] == dir || Under(dir, stack[i]) {
      if i < |stack| - 1 && stack[i] != CURRENT && top != dir {
        assert Below(top, stack[i]);
        UnderTransitive(dir, top, stack[i]);
      }
    }
  }

  /** The search succeeds exactly when the directory is in the tree now, and leaves open only it and what
      is above it. */
  lemma {:induction false} SeekIsLookup(t: Tree, stack: seq<Str>, dir: Str)
    requires WellFormed(t) && Open(t, stack) && Acceptable(dir)
    ensures Seek(t, stack, dir).Some? <==> dir == CURRENT || HasDir(t, dir)
    ensures (Seek(t, stack, dir).Some? ==>
               Open(t, Seek(t, stack, dir).value) && Leading(Seek(t, stack, dir).value, dir))
    decreases |stack|
  {
    hide WellFormed, Passable, Leading, Under, Acceptable;
    var top := stack[|stack| - 1];
    AcceptableInside(dir);
    if dir == CURRENT { NothingAboveCurrent(top); }
    if top == dir {
      LeadingAll(t, stack, dir);
    } else if Below(dir, top) {
      PassableIsPresent(t, top, dir);
      if HasDir(t, dir) {
        OpenMore(t, stack, dir);
        LeadingAll(t, stack + [dir], dir);
      }
    } else {
      OpenPrefix(t, stack);
      SeekIsLookup(t, stack[..|stack| - 1], dir);
    }
  }

  /** A change leaves alone every directory above it. */
  lemma AboveStays(t: Tree, c: Change, filter: StatMap, a: Str)
    requires Apply(t, c, filter).Some? && Under(c.path, a) && HasDir(t, a)
    ensures a in Apply(t, c, filter).value && Apply(t, c, filter).value[a] == t[a]
  {
    NothingAboveCurrent(a);
    assert |a| < |c.path|;
  }

  lemma ParentAbove(p: Str)
    ensures Parent(p) != [] ==> Under(p, Parent(p))
  {
    SplitParent(p);
  }

  /** What is open for a change is above it. */
  lemma OpenIsAbove(t: Tree, stack: seq<Str>, p: Str, i: nat)
    requires Open(t, stack) && Leading(stack, DirOf(p)) && 0 < i < |stack|
    ensures Under(p, stack[i]) && HasDir(t, stack[i])
  {
    hide Parent;
    var a := stack[i];
    assert a != CURRENT;
    if DirOf(p) == CURRENT { NothingAboveCurrent(a); }
    ParentAbove(p);
    if a != Parent(p) { UnderTransitive(p, Parent(p), a); }
  }

  /** And untouched by it: the very nodes are still there. */
  lemma HeldStays(t: Tree, c: Change, filter: StatMap, stack: seq<Str>)
    requires Open(t, stack) && Leading(stack, DirOf(c.path)) && RootWrite(t, c, filter).Some?
    ensures Open(RootWrite(t, c, filter).value, stack)
    ensures forall i :: 0 < i < |stack| ==> Kept(t, RootWrite(t, c, filter).value, stack[i])
  {
    hide Apply, Leading, Parent, Under;
    RootKept(t, c, filter);
    forall i | 0 < i < |stack| ensures Kept(t, Apply(t, c, filter).value, stack[i]) {
      OpenIsAbove(t, stack, c.path, i);
      AboveStays(t, c, filter, stack[i]);
    }
  }

  lemma RootKept(t: Tree, c: Change, filter: StatMap)
    requires HasDir(t, CURRENT) && RootWrite(t, c, filter).Some?
    ensures HasDir(RootWrite(t, c, filter).value, CURRENT)
  {
    NothingAboveCurrent(c.path);
  }

  lemma DirOfAcceptable(t: Tree, p: Str)
    requires Acceptable(p) && HasDir(t, CURRENT)
    ensures Acceptable(DirOf(p)) && (HasParent(t, p) <==> HasDir(t, DirOf(p)))
  {
    hide Normal;
    if p == CURRENT {
      SplitParent(p);
    } else {
      ProperInside(p);
      DirIsAcceptable(p);
    }
  }

  /** Any list of changes: working from the stack of open directories is looking up the parent of every
      change in the tree as it is then. */
  lemma {:induction false} StackIsLookup(t: Tree, stack: seq<Str>, cs: seq<Change>, filter: StatMap)
    requires WellFormed(t) && Open(t, stack) && AllAcceptable(cs)
    ensures StackApplyAll(t, stack, cs, filter) == RootApplyAll(t, cs, filter)
    decreases |cs|
  {
    hide WellFormed, Apply, Seek, Leading, Acceptable, Kept, DirOf, HasParent;
    if cs != [] {
      var c, dir := cs[0], DirOf(cs[0].path);
      assert HasDir(t, CURRENT);
      DirOfAcceptable(t, c.path);
      SeekIsLookup(t, stack, dir);
      if HasParent(t, c.path) && RootWrite(t, c, filter).Some? {
        HeldStays(t, c, filter, Seek(t, stack, dir).value);
        ApplyKeepsTree(t, c, filter);
        StackIsLookup(Apply(t, c, filter).value, Seek(t, stack, dir).value, cs[1..], filter);
      }
    }
  }

  /** The whole replay of a diff from the stack of open directories, which starts with the base alone: it
      succeeds exactly when the plain replay does and the walks do not stumble, and then ends like it. */
  lemma StackReplayExact(cfg: Config, t: Tree, l: seq<Entry>, u: seq<Entry>)
    requires Lists(t, l) && Stream(u) && TargetsEarlier(u)
    ensures (var cs := Merge(cfg, l, u, []);
             var r := StackApplyAll(t, [CURRENT], cs, cfg.filter);
             && (r.Some? <==> Linkable(cfg, l, u) && RootIsDir(u) && !Stumbles(l, u, false))
             && (r.Some? <==> Replayed(ApplyAll(t, cs, cfg.filter)) && !Stumbles(l, u, false))
             && (r.Some? ==> r == ApplyAll(t, cs, cfg.filter)))
  {
    hide Merge, StackApplyAll, RootApplyAll, ApplyAll, Stumbles, WellFormed, Linkable, RootIsDir, TargetsEarlier,
         Closed, Normal, Replayed;
    ListedWellFormed(t, l);
    MergeAcceptable(cfg, l, u, []);
    StackIsLookup(t, [CURRENT], Merge(cfg, l, u, []), cfg.filter);
    RootReplayExact(cfg, t, l, u);
  }
}
