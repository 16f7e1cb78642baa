/** One update of the destination: the diff runs and every change goes through the disk writer. */
module Updating {
  import opened Bytes
  import opened Paths
  import opened Stats
  import opened Disk
  import opened DiskWriting
  import opened Diffing
  import opened Syncing
  import opened SyncingExactly
  import opened Overlaying
  import opened SyncingAgrees

  /** Where the random suffixes end up: at a name that is not in use. */
  ghost predicate AlwaysFree(temp: (Tree, Str) -> Str)
  {
    forall t, p :: WellFormed(t) && Acceptable(p) ==> Temporary(t, p, temp(t, p))
  }

  const TMP: Str := [46, 116, 109, 112, 46]

  /** What p's directory puts in front of a name; the directory that holds the root is outside the tree. */
  function Beside(p: Str): Str
  {
    if p == CURRENT then UP + [SEP] else if Parent(p) == [] then [] else Parent(p) + [SEP]
  }

  /** A temporary name next to p. */
  function TempName(p: Str, suffix: Str): Str { Beside(p) + (TMP + suffix) }

  lemma BesideParts(d: Str, n: Str)
    requires SEP !in n
    ensures Name(n) == n && Parent(n) == []
    ensures Name(d + [SEP] + n) == n && Parent(d + [SEP] + n) == d
  {
    LastSepSplits(n);
    LastSepSplits(d + [SEP] + n);
    assert (d + [SEP] + n)[|d|] == SEP;
  }

  lemma TempParts(p: Str, suffix: Str)
    requires Acceptable(p) && SEP !in suffix
    ensures var tmp := TempName(p, suffix);
            Name(tmp) == TMP + suffix && Parent(tmp) == if p == CURRENT then UP else Parent(p)
  {
    hide Acceptable, Parent, Name;
    var n := TMP + suffix;
    assert SEP !in n;
    BesideParts(UP, n);
    BesideParts(Parent(p), n);
    assert [] + n == n;
  }

  /** Any suffix will do that makes the name unused. */
  lemma TempIsTemporary(t: Tree, p: Str, suffix: Str)
    requires Acceptable(p) && SEP !in suffix && TempName(p, suffix) !in t && TempName(p, suffix) != p
    ensures Temporary(t, p, TempName(p, suffix))
  {
    hide Acceptable, Name, Outside, Parent;
    var tmp := TempName(p, suffix);
    TempParts(p, suffix);
    AcceptableInside(p);
    ParentShorter(p);
    NothingAboveCurrent(tmp);
    assert |tmp| >= |Beside(p)| + 5;
    if Under(p, tmp) { AncestorOfParent(p, tmp); }
    if p == CURRENT {
      LeadsOut(tmp);
    } else if Under(tmp, p) {
      AncestorOfParent(tmp, p);
    }
  }

  lemma ParentShorter(p: Str)
    requires p != []
    ensures |Parent(p)| < |p|
  { }

  lemma LeadsOut(p: Str)
    requires UP + [SEP] <= p
    ensures Outside(p)
  { }

  ghost function AnyOf(ps: set<Str>): (p: Str)
    requires ps != {}
    ensures p in ps
  {
    var p :| p in ps; p
  }

  ghost function TotalLength(ps: set<Str>): nat
  {
    if ps == {} then 0 else |AnyOf(ps)| + TotalLength(ps - {AnyOf(ps)})
  }

  lemma {:induction false} NoneLonger(ps: set<Str>, q: Str)
    requires q in ps
    ensures |q| <= TotalLength(ps)
  {
    if AnyOf(ps) != q { NoneLonger(ps - {AnyOf(ps)}, q); }
  }

  /** A suffix longer than every path in use. */
  ghost function LongSuffix(t: Tree, p: Str): Str { seq(TotalLength(t.Keys) + |p| + 1, _ => 48) }

  /** Unused names always exist. */
  lemma FreeNamesExist() returns (temp: (Tree, Str) -> Str)
    ensures AlwaysFree(temp)
  {
    hide WellFormed, Acceptable, Temporary, TempName;
    temp := (t: Tree, p: Str) => TempName(p, LongSuffix(t, p));
    forall t: Tree, p | WellFormed(t) && Acceptable(p) ensures Temporary(t, p, temp(t, p)) {
      var tmp := TempName(p, LongSuffix(t, p));
      TempLength(p, LongSuffix(t, p));
      if tmp in t { NoneLonger(t.Keys, tmp); }
      TempIsTemporary(t, p, LongSuffix(t, p));
    }
  }

  lemma TempLength(p: Str, suffix: Str)
    ensures |TempName(p, suffix)| >= |suffix|
  { }

  /** Hands a list of changes to the writer, up to the first that fails. */
  method ApplyChanges(dw: DiskWriter, cs: seq<Change>, temp: (Tree, Str) -> Str) returns (ok: bool)
    requires WellFormed(dw.disk.tree) && AllAcceptable(cs) && AlwaysFree(temp)
    modifies dw, dw.disk
    ensures ok <==> ApplyAll(old(dw.disk.tree), cs, dw.filter).Some?
    ensures ok ==> ApplyAll(old(dw.disk.tree), cs, dw.filter) == Some(dw.disk.tree)
    ensures ok ==> dw.requested == old(dw.requested) + AllRequests(cs)
    ensures WellFormed(dw.disk.tree)
  {
    hide WellFormed, Apply, Requests, Temporary, Acceptable;
    for i := 0 to |cs|
      invariant WellFormed(dw.disk.tree)
      invariant ApplyAll(old(dw.disk.tree), cs, dw.filter) == ApplyAll(dw.disk.tree, cs[i..], dw.filter)
      invariant dw.requested + AllRequests(cs[i..]) == old(dw.requested) + AllRequests(cs)
    {
      assert cs[i] in cs;
      assert cs[i..][0] == cs[i] && cs[i..][1..] == cs[i + 1..];
      ghost var before := dw.requested;
      var applied := dw.HandleChange(cs[i], temp(dw.disk.tree, cs[i].path));
      if !applied {
        return false;
      }
      assert before + (Requests(cs[i]) + AllRequests(cs[i + 1..])) == dw.requested + AllRequests(cs[i + 1..]);
    }
    assert cs[|cs|..] == [];
    return true;
  }

  /** The destination is walked and compared with the stream, and every difference is written. It works,
      and leaves a directory at the root, if and only if the links that have to be made have their targets
      and "." is no other than a directory. Then the tree ends with exactly the stream's paths below the
      root, each node is the old one where the comparison found them equal and the stream's otherwise, and
      what is asked for is, in order, the regular files the destination did not have. */
  method Update(cfg: Config, dw: DiskWriter, l: seq<Entry>, u: seq<Entry>, temp: (Tree, Str) -> Str) returns (ok: bool)
    requires Lists(dw.disk.tree, l) && Stream(u) && TargetsEarlier(u) && dw.filter == cfg.filter && AlwaysFree(temp)
    modifies dw, dw.disk
    ensures ok && HasDir(dw.disk.tree, CURRENT) <==> Linkable(cfg, l, u) && RootIsDir(u)
    ensures ok && !RootIsDir(u) ==> dw.disk.tree.Keys == {CURRENT} && HasFile(dw.disk.tree, CURRENT)
    ensures ok <==> ApplyAll(old(dw.disk.tree), Merge(cfg, l, u, []), cfg.filter).Some?
    ensures ok ==> ApplyAll(old(dw.disk.tree), Merge(cfg, l, u, []), cfg.filter) == Some(dw.disk.tree)
    ensures ok ==> dw.requested == old(dw.requested) + Wanted(cfg, l, u)
    ensures Linkable(cfg, l, u) && RootIsDir(u) ==> dw.disk.tree.Keys == PathsOf(u) + {CURRENT}
    ensures Linkable(cfg, l, u) && RootIsDir(u) ==> forall x :: x in u ==>
              if Unchanged(cfg, old(dw.disk.tree), x) && !Repeated(u, x)
              then Kept(old(dw.disk.tree), dw.disk.tree, x.path)
              else Updated(dw.disk.tree, x.path, Filtered(cfg, x))
    ensures Linkable(cfg, l, u) && RootIsDir(u) ==> AllAgree(cfg, dw.disk.tree, u)
    ensures WellFormed(dw.disk.tree)
  {
    hide WellFormed, Merge, ApplyAll, AllRequests, Wanted, AlwaysFree, AllAcceptable, Matched, Repeated, Kept, Updated,
         RootIsDir, Linkable, TargetsEarlier, Unchanged, AllAgree;
    ListedWellFormed(dw.disk.tree, l);
    MergeAcceptable(cfg, l, u, []);
    SyncExactly(cfg, dw.disk.tree, l, u);
    RequestsExact(cfg, l, u, []);
    if Linkable(cfg, l, u) && RootIsDir(u) {
      ghost var t' := SyncTheorem(cfg, dw.disk.tree, l, u);
      t' := SyncAgrees(cfg, dw.disk.tree, l, u);
    }
    var cs := DoubleWalkDiff(cfg, l, u);
    ok := ApplyChanges(dw, cs, temp);
  }

  /** The same in merge mode, where the destination is not walked, an old file may be a link's target, and the
      tree ends as the old one with the stream laid over it. */
  method MergeInto(cfg: Config, dw: DiskWriter, u: seq<Entry>, temp: (Tree, Str) -> Str) returns (ok: bool)
    requires WellFormed(dw.disk.tree) && HasDir(dw.disk.tree, CURRENT)
    requires Stream(u) && TargetsEarlier(u) && dw.filter == cfg.filter && AlwaysFree(temp)
    modifies dw, dw.disk
    ensures ok && HasDir(dw.disk.tree, CURRENT) <==> LinksServed(old(dw.disk.tree), u) && RootIsDir(u)
    ensures ok && !RootIsDir(u) ==> dw.disk.tree.Keys == {CURRENT} && HasFile(dw.disk.tree, CURRENT)
    ensures ok <==> ApplyAll(old(dw.disk.tree), Merge(cfg, [], u, []), cfg.filter).Some?
    ensures ok ==> dw.requested == old(dw.requested) + Wanted(cfg, [], u)
    ensures LinksServed(old(dw.disk.tree), u) && RootIsDir(u) ==>
              forall x :: x in u ==> Updated(dw.disk.tree, x.path, Filtered(cfg, x))
    ensures LinksServed(old(dw.disk.tree), u) && RootIsDir(u) ==> forall q :: q !in PathsOf(u) ==>
              (q in dw.disk.tree <==>
                 q in old(dw.disk.tree) && forall x :: x in u && Under(q, x.path) ==> IsDir(x.stat))
    ensures LinksServed(old(dw.disk.tree), u) && RootIsDir(u) ==>
              forall q :: q in dw.disk.tree && q !in PathsOf(u) ==> dw.disk.tree[q] == old(dw.disk.tree)[q]
    ensures LinksServed(old(dw.disk.tree), u) && RootIsDir(u) ==> AllAgree(cfg, dw.disk.tree, u)
    ensures WellFormed(dw.disk.tree)
  {
    hide WellFormed, Merge, ApplyAll, AllRequests, Wanted, AlwaysFree, AllAcceptable, Updated, IsDir, RootIsDir,
         LinksServed, TargetsEarlier, AllAgree;
    assert Inner([]);
    MergeAcceptable(cfg, [], u, []);
    MergeModeExactly(cfg, dw.disk.tree, u);
    RequestsExact(cfg, [], u, []);
    if LinksServed(dw.disk.tree, u) && RootIsDir(u) {
      ghost var t' := MergeModeOverlays(cfg, dw.disk.tree, u);
      t' := OverlayAgrees(cfg, dw.disk.tree, u);
    }
    var cs := DoubleWalkDiff(cfg, [], u);
    ok := ApplyChanges(dw, cs, temp);
  }
}
