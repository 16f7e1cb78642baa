/** The stages put together: what the validators admit is a feed the diff can replay; what the
    sender's filters produce is one; metadata mode forwards one; and a finished transfer leaves
    the destination equal to the source, contents included. */
module EndToEnd {
  import opened Bytes
  import opened Paths
  import opened Stats
  import opened Disk
  import opened DiskWriting
  import opened Diffing
  import opened Syncing
  import opened SyncingExactly
  import opened Overlaying
  import opened SyncingAgrees
  import V = Validation
  import H = HardLinking
  import M = MetadataReplay
  import F = Filtering
  import T = Transfer
  import TR = TransferRuns
  import TQ = TransferRequests

  // ---------------------------------------------------------------- what the receiver admits

  function Adds(u: seq<Entry>): seq<Change>
  {
    seq(|u|, i requires 0 <= i < |u| => Change(Add, u[i].path, u[i].stat))
  }

  /** Every ancestor of an admitted entry was admitted before it, as a directory. */
  lemma {:induction false} AncestorsOpened(u: seq<Entry>, i: nat, a: Str) returns (j: nat)
    requires V.ValidStream(Adds(u)) && i < |u| && Under(u[i].path, a)
    ensures j < i && u[j].path == a && IsDir(u[j].stat)
    decreases i
  {
    var p := u[i].path;
    var cs := Adds(u);
    assert V.Grounded(cs, i) && cs[i].path == p;
    M.HasSep(p, a);
    SplitParent(p);
    NothingAboveCurrent(a);
    NormalParts(p);
    NormalRelative(Parent(p));
    var k :| 0 <= k < i && cs[k].path == Parent(p) && cs[k].OpensDir();
    AncestorOfParent(p, a);
    if a == Parent(p) { j := k; } else { j := AncestorsOpened(u, k, a); }
  }

  lemma AdmittedIsWalk(u: seq<Entry>)
    requires V.ValidStream(Adds(u))
    ensures Sorted(u) && Named(u) && Closed(u)
  {
    var cs := Adds(u);
    forall i, j | 0 <= i < j < |u| ensures Before(u[i].path, u[j].path) {
      assert Before(cs[i].path, cs[j].path);
    }
    forall e | e in u ensures Acceptable(e.path) {
      var i :| 0 <= i < |u| && u[i] == e;
      assert V.Grounded(cs, i) && cs[i].path == e.path;
    }
    forall e, a | e in u && Under(e.path, a) ensures DirIn(u, a) {
      var i :| 0 <= i < |u| && u[i] == e;
      var j := AncestorsOpened(u, i, a);
      assert u[j] in u;
    }
  }

  /** A stream that both validators accept has its parents and the targets of its links. */
  lemma AdmittedIsFeed(u: seq<Entry>)
    requires V.ValidStream(Adds(u)) && H.LinksKnown(u)
    ensures Feed(u) && Sorted(u)
  {
    AdmittedIsWalk(u);
    forall x | x in u && IsHardLink(x.stat) ensures FileBefore(u, x.stat.linkname, x.path) {
      var i :| 0 <= i < |u| && u[i] == x;
      assert H.OwnedBy(u, i, x.stat.linkname);
      var j: nat :| j < i && H.OwnFile(u, j, x.stat.linkname);
      assert u[j] in u;
    }
  }

  /** It is replayed, on whatever tree, if and only if it has no entry "." other than a directory. */
  lemma AdmittedReplays(cfg: Config, t: Tree, l: seq<Entry>, u: seq<Entry>)
    requires Lists(t, l) && V.ValidStream(Adds(u)) && H.LinksKnown(u)
    ensures Replayed(ApplyAll(t, Merge(cfg, l, u, []), cfg.filter)) <==> RootIsDir(u)
    ensures Replayed(ApplyAll(t, Merge(cfg, [], u, []), cfg.filter)) <==> RootIsDir(u)
    ensures !RootIsDir(u) ==> Lost(ApplyAll(t, Merge(cfg, l, u, []), cfg.filter))
  {
    hide V.ValidStream, H.LinksKnown, Feed, Merge, ApplyAll, WellFormed, TreeWalk;
    AdmittedIsFeed(u);
    ListedWellFormed(t, l);
    FeedExactly(cfg, t, l, u);
    FeedParts(t, u);
    MergeModeExactly(cfg, t, u);
  }

  lemma FeedParts(t: Tree, u: seq<Entry>)
    requires Feed(u)
    ensures Stream(u) && TargetsEarlier(u) && LinksServed(t, u)
  {
    hide Stream;
    LinkedIsServed(t, u);
  }

  /** The receiver's two checks on a whole stream. */
  method Admit(u: seq<Entry>) returns (ok: bool)
    ensures ok <==> V.ValidStream(Adds(u)) && H.LinksKnown(u)
    ensures ok ==> Feed(u)
  {
    ok := V.Accepts(Adds(u));
    if ok {
      ok := H.ValidateLinks(u);
      if ok { AdmittedIsFeed(u); }
    }
  }

  const NAME_A: Str := [97]

  /** A file ".", and a file "a". */
  const ROOT_FILE: seq<Entry> := [Entry(CURRENT, EMPTY_STAT), Entry(NAME_A, EMPTY_STAT)]

  /** Both validators admit it, and on no tree can it be replayed. */
  lemma {:induction false} RootFileIsLost(cfg: Config, t: Tree, l: seq<Entry>)
    requires Lists(t, l)
    ensures V.ValidStream(Adds(ROOT_FILE)) && H.LinksKnown(ROOT_FILE)
    ensures Lost(ApplyAll(t, Merge(cfg, l, ROOT_FILE, []), cfg.filter))
  {
    hide Lists, Merge, ApplyAll, Replayed, Lost;
    var cs := Adds(ROOT_FILE);
    SplitName(NAME_A);
    OneComponent(NAME_A);
    assert Before(CURRENT, NAME_A);
    assert cs[0].path == CURRENT && cs[1].path == NAME_A;
    assert V.Grounded(cs, 0) && V.Grounded(cs, 1);
    assert ROOT_FILE[0] in ROOT_FILE && !IsDir(EMPTY_STAT);
    AdmittedReplays(cfg, t, l, ROOT_FILE);
  }

  // ---------------------------------------------------------------- what the sender produces

  /** The filter keeps, with an entry, every directory above it. */
  ghost predicate KeepsAncestors(fs: seq<H.Source>)
  {
    forall i, a :: 0 <= i < |fs| && fs[i].kept && Under(fs[i].path, a) ==> exists j: nat :: KeptDir(fs, j, a)
  }

  ghost predicate KeptDir(fs: seq<H.Source>, j: nat, a: Str)
  {
    j < |fs| && fs[j].kept && fs[j].path == a && IsDir(fs[j].stat)
  }

  /** A walk in order, of proper paths. */
  ghost predicate Walked(fs: seq<H.Source>)
  {
    && H.Consistent(fs)
    && (forall i :: 0 <= i < |fs| ==> Normal(fs[i].path))
    && (forall i, j :: 0 <= i < j < |fs| ==> Before(fs[i].path, fs[j].path))
  }

  lemma {:induction false} ExpectedSorted(fs: seq<H.Source>)
    requires forall i, j :: 0 <= i < j < |fs| ==> Before(fs[i].path, fs[j].path)
    ensures Sorted(H.Expected(fs))
  {
    if fs != [] {
      var n := |fs| - 1;
      ExpectedSorted(fs[..n]);
      forall e | e in H.Expected(fs[..n]) ensures Before(e.path, fs[n].path) {
        var k := H.ShownIsKept(fs[..n], e);
        assert fs[..n][k] == fs[k];
      }
      assert forall i :: 0 <= i < |H.Expected(fs[..n])| ==> H.Expected(fs[..n])[i] in H.Expected(fs[..n]);
    }
  }

  /** Whatever the filter drops, as long as it keeps ancestors, the sender's stream is a feed. */
  lemma SentIsFeed(fs: seq<H.Source>)
    requires Walked(fs) && KeepsAncestors(fs)
    ensures Feed(H.Expected(fs)) && Sorted(H.Expected(fs)) && RootIsDir(H.Expected(fs))
  {
    var u := H.Expected(fs);
    ExpectedSorted(fs);
    forall e | e in u ensures Normal(e.path) {
      var k := H.ShownIsKept(fs, e);
    }
    NoRootBelow(u);
    forall e, a | e in u && Under(e.path, a) ensures DirIn(u, a) {
      var k := H.ShownIsKept(fs, e);
      var j: nat :| KeptDir(fs, j, a);
      H.KeptIsShown(fs, j);
      assert H.Shown(fs, j).path == a && IsDir(H.Shown(fs, j).stat);
    }
    forall x | x in u && IsHardLink(x.stat) ensures FileBefore(u, x.stat.linkname, x.path) {
      var k := H.ShownIsKept(fs, x);
      SentLink(fs, k);
    }
  }

  lemma SameKindShown(fs: seq<H.Source>, j: nat)
    requires j < |fs| && fs[j].Plain()
    ensures H.Shown(fs, j).path == fs[j].path && !IsDir(H.Shown(fs, j).stat)
  { }

  /** The target of a sent link was sent before it. */
  lemma {:induction false} SentLink(fs: seq<H.Source>, k: nat)
    requires Walked(fs) && k < |fs| && fs[k].kept && IsHardLink(H.Shown(fs, k).stat)
    ensures FileBefore(H.Expected(fs), H.LinkOf(fs, k), fs[k].path)
  {
    hide Before, Normal, H.Consistent, H.Expected, H.KeptLeader;
    var p := fs[..k];
    assert fs[k].Plain();
    assert H.KeptLeader(p, fs[k].ino).Some?;
    H.KeptLeaderIsName(p, fs[k].ino);
    var j :| 0 <= j < |p| && p[j].path == H.LinkOf(fs, k) && p[j].kept && p[j].Plain();
    assert fs[j] == p[j] && fs[j].Plain();
    H.KeptIsShown(fs, j);
    SameKindShown(fs, j);
  }

  /** The patterns of a filtered walk and the inode bookkeeping agree on a stream the receiver can replay. */
  lemma {:induction false} FilteredIsFeed(f: F.FilterFS, s: seq<Entry>, fs: seq<H.Source>)
    requires Walked(fs) && |s| == |fs| && forall k :: 0 <= k < |s| ==> s[k] == Entry(fs[k].path, fs[k].stat)
    requires M.ProperStream(F.AllMarked(f, s))
    requires forall k :: 0 <= k < |fs| ==> (fs[k].kept <==> M.Needed(F.Marked(f, s), |s|, k))
    ensures Feed(H.Expected(fs)) && Sorted(H.Expected(fs)) && RootIsDir(H.Expected(fs))
  {
    hide Walked, M.Needed;
    F.MarkedIsStream(f, s);
    var r := F.Marked(f, s);
    assert forall k :: 0 <= k < |s| ==> r[k].entry == s[k];
    forall i, a | 0 <= i < |fs| && fs[i].kept && Under(fs[i].path, a) ensures exists j: nat :: KeptDir(fs, j, a) {
      assert Under(r[i].entry.path, a);
      var j: nat :| M.DirAt(r, j, a) && j < i;
      assert M.LeadsTo(r, j, i);
      M.NeededUp(r, |s|, j, i);
      assert KeptDir(fs, j, a);
    }
    SentIsFeed(fs);
  }

  // ---------------------------------------------------------------- metadata mode

  function EntriesOf(s: seq<M.Received>): seq<Entry>
  {
    seq(|s|, i requires 0 <= i < |s| => s[i].entry)
  }

  /** What the order validator admits is what the metadata replay expects. */
  lemma {:induction false} AdmittedIsTreeStream(s: seq<M.Received>)
    requires V.ValidStream(Adds(EntriesOf(s)))
    ensures M.TreeStream(s)
  {
    var u := EntriesOf(s);
    var cs := Adds(u);
    forall i | 0 <= i < |s| ensures Normal(s[i].entry.path) || s[i].entry.path == CURRENT {
      assert V.Grounded(cs, i) && cs[i].path == s[i].entry.path;
    }
    forall i, j | 0 <= i < j < |s| ensures Before(s[i].entry.path, s[j].entry.path) {
      assert Before(cs[i].path, cs[j].path);
    }
    forall i, a | 0 <= i < |s| && Under(s[i].entry.path, a) ensures exists j: nat :: M.DirAt(s, j, a) && j < i {
      var j := AncestorsOpened(u, i, a);
      assert M.DirAt(s, j, a);
    }
  }

  /** What is forwarded is what is needed, and nothing else. */
  lemma {:induction false} ForwardedMembers(s: seq<M.Received>, m: nat, e: Entry)
    requires m <= |s|
    ensures e in M.Forwarded(s, |s|, m) <==> exists k: nat :: k < m && M.Needed(s, |s|, k) && s[k].entry == e
  {
    hide M.Needed;
    if m > 0 {
      ForwardedMembers(s, m - 1, e);
      assert e in M.Copies(s, |s|, m - 1) <==> M.Needed(s, |s|, m - 1) && s[m - 1].entry == e;
    }
  }

  lemma NoneSorted()
    ensures SortedWithRepeats([])
  { }

  lemma CopiesLast(f: seq<Entry>, c: seq<Entry>, e: Entry)
    requires SortedWithRepeats(f) && forall x :: x in f ==> Before(x.path, e.path)
    requires c == [] || c == [e] || (c == [e, e] && IsDir(e.stat))
    ensures SortedWithRepeats(f + c)
  {
    hide Before, IsDir;
    assert forall i :: 0 <= i < |f| ==> f[i] in f;
  }

  lemma {:induction false} ForwardedSorted(s: seq<M.Received>, m: nat)
    requires M.TreeStream(s) && m <= |s|
    ensures SortedWithRepeats(M.Forwarded(s, |s|, m))
  {
    hide Before, Under, Normal, M.Needed, M.Above, M.DirAt, HasBit, SortedWithRepeats;
    if m > 0 {
      ForwardedSorted(s, m - 1);
      var f, c := M.Forwarded(s, |s|, m - 1), M.Copies(s, |s|, m - 1);
      forall e | e in f ensures Before(e.path, s[m - 1].entry.path) {
        ForwardedMembers(s, m - 1, e);
      }
      CopiesLast(f, c, s[m - 1].entry);
    } else {
      assert SortedWithRepeats([]) by { NoneSorted(); }
    }
  }

  /** The target of link i is an earlier entry, and accepted. */
  ghost predicate TargetAccepted(s: seq<M.Received>, i: nat)
    requires i < |s|
  {
    exists j: nat :: j < i && s[j].accepted && H.OwnFile(EntriesOf(s), j, s[i].entry.stat.linkname)
  }

  /** p is the path of entry j, or of a directory above it. */
  ghost predicate OnTheWay(s: seq<M.Received>, p: Str, j: nat)
    requires j < |s|
  {
    exists k: nat :: k < |s| && M.LeadsTo(s, k, j) && s[k].entry.path == p
  }

  /** An accepted entry "." is a directory. */
  ghost predicate RootAccepted(s: seq<M.Received>)
  {
    forall i: nat :: i < |s| && s[i].accepted && s[i].entry.path == CURRENT ==> IsDir(s[i].entry.stat)
  }

  /** What is forwarded has its parents, and its links point backwards, whatever the filter accepts; its
      paths are the accepted ones and those of the directories above them. */
  lemma {:induction false} ForwardedIsStream(s: seq<M.Received>)
    requires M.TreeStream(s) && H.LinksKnown(EntriesOf(s))
    ensures Stream(M.Forwarded(s, |s|, |s|)) && TargetsEarlier(M.Forwarded(s, |s|, |s|))
    ensures RootIsDir(M.Forwarded(s, |s|, |s|)) <==> RootAccepted(s)
    ensures forall p :: p in PathsOf(M.Forwarded(s, |s|, |s|)) <==>
              exists j: nat :: j < |s| && s[j].accepted && OnTheWay(s, p, j)
  {
    hide OnTheWay, M.Needed, Normal, Before, H.LinksKnown;
    var u := M.Forwarded(s, |s|, |s|);
    ForwardedSorted(s, |s|);
    forall e | e in u ensures Acceptable(e.path) && (IsHardLink(e.stat) ==> Before(e.stat.linkname, e.path)) {
      ForwardedMembers(s, |s|, e);
      var k: nat :| k < |s| && M.Needed(s, |s|, k) && s[k].entry == e;
      if IsHardLink(e.stat) { TargetsBefore(s, k); }
    }
    forall e, a | e in u && Under(e.path, a) ensures DirIn(u, a) { ForwardedAncestor(s, e, a); }
    forall p ensures p in PathsOf(u) <==> exists j: nat :: j < |s| && s[j].accepted && OnTheWay(s, p, j) {
      ForwardedPaths(s, p);
    }
    if RootAccepted(s) {
      forall x | x in u && x.path == CURRENT ensures IsDir(x.stat) { ForwardedRoot(s, x); }
    }
    if RootIsDir(u) {
      forall i: nat | i < |s| && s[i].accepted && s[i].entry.path == CURRENT ensures IsDir(s[i].entry.stat) {
        AcceptedIsForwarded(s, i);
      }
    }
  }

  lemma TargetsBefore(s: seq<M.Received>, k: nat)
    requires M.TreeStream(s) && H.LinksKnown(EntriesOf(s)) && k < |s| && IsHardLink(s[k].entry.stat)
    ensures Before(s[k].entry.stat.linkname, s[k].entry.path)
  {
    hide Before, Normal;
    var u := EntriesOf(s);
    assert u[k] == s[k].entry && H.OwnedBy(u, k, s[k].entry.stat.linkname);
    var j: nat :| j < k && H.OwnFile(u, j, s[k].entry.stat.linkname);
    assert u[j] == s[j].entry;
  }

  /** An entry ".", if it is no directory, is forwarded for its own sake only. */
  lemma {:induction false} ForwardedRoot(s: seq<M.Received>, x: Entry)
    requires M.TreeStream(s) && RootAccepted(s) && x in M.Forwarded(s, |s|, |s|) && x.path == CURRENT
    ensures IsDir(x.stat)
  {
    hide M.Needed, M.TreeStream;
    ForwardedMembers(s, |s|, x);
    var k: nat :| k < |s| && M.Needed(s, |s|, k) && s[k].entry == x;
    if !IsDir(x.stat) { FileIsAccepted(s, k); }
  }

  /** A link, if it is forwarded, finds its target among what is forwarded exactly when that is accepted. */
  lemma {:induction false} LinkExactly(s: seq<M.Received>, i: nat)
    requires M.TreeStream(s) && H.LinksKnown(EntriesOf(s)) && i < |s| && IsHardLink(s[i].entry.stat)
    ensures FileBefore(M.Forwarded(s, |s|, |s|), s[i].entry.stat.linkname, s[i].entry.path) <==> TargetAccepted(s, i)
  {
    hide Before, Normal, H.LinksKnown, M.Forwarded;
    var u, x := M.Forwarded(s, |s|, |s|), s[i].entry;
    if FileBefore(u, x.stat.linkname, x.path) {
      var y :| y in u && y.path == x.stat.linkname && !IsDir(y.stat);
      ForwardedTarget(s, i, y);
    }
    if TargetAccepted(s, i) {
      var j: nat :| j < i && s[j].accepted && H.OwnFile(EntriesOf(s), j, x.stat.linkname);
      AcceptedIsForwarded(s, j);
    }
  }

  /** An accepted link that has to be made has an accepted target. */
  ghost predicate LinksFound(cfg: Config, l: seq<Entry>, s: seq<M.Received>)
  {
    forall i: nat :: i < |s| && s[i].accepted && IsHardLink(s[i].entry.stat) ==>
      TargetAccepted(s, i) || Matched(cfg, l, s[i].entry)
  }

  lemma {:induction false} ForwardedLinkable(cfg: Config, l: seq<Entry>, s: seq<M.Received>)
    requires M.TreeStream(s) && H.LinksKnown(EntriesOf(s))
    ensures Linkable(cfg, l, M.Forwarded(s, |s|, |s|)) <==> LinksFound(cfg, l, s)
  {
    hide M.Needed, M.TreeStream, M.Forwarded, H.LinksKnown, Matched, TargetAccepted, FileBefore, IsHardLink;
    var u := M.Forwarded(s, |s|, |s|);
    if LinksFound(cfg, l, s) {
      forall x | x in u && IsHardLink(x.stat) && !Matched(cfg, l, x) ensures FileBefore(u, x.stat.linkname, x.path) {
        ForwardedMembers(s, |s|, x);
        var k: nat :| k < |s| && M.Needed(s, |s|, k) && s[k].entry == x;
        LinkIsFile(x.stat);
        FileIsAccepted(s, k);
        LinkExactly(s, k);
      }
    }
    if Linkable(cfg, l, u) {
      forall i: nat | i < |s| && s[i].accepted && IsHardLink(s[i].entry.stat)
        ensures TargetAccepted(s, i) || Matched(cfg, l, s[i].entry)
      {
        AcceptedIsForwarded(s, i);
        LinkExactly(s, i);
      }
    }
  }

  lemma LinkIsFile(s: Stat)
    requires IsHardLink(s)
    ensures !IsDir(s)
  { }

  /** A forwarded file under the link's name is the target the validator saw, and was accepted. */
  lemma {:induction false} ForwardedTarget(s: seq<M.Received>, i: nat, y: Entry)
    requires M.TreeStream(s) && H.LinksKnown(EntriesOf(s)) && i < |s| && IsHardLink(s[i].entry.stat)
    requires y in M.Forwarded(s, |s|, |s|) && y.path == s[i].entry.stat.linkname && !IsDir(y.stat)
    ensures TargetAccepted(s, i)
  {
    hide M.Needed;
    var u := EntriesOf(s);
    ForwardedMembers(s, |s|, y);
    var k: nat :| k < |s| && M.Needed(s, |s|, k) && s[k].entry == y;
    FileIsAccepted(s, k);
    assert u[i] == s[i].entry && H.OwnedBy(u, i, s[i].entry.stat.linkname);
    var j: nat :| j < i && H.OwnFile(u, j, s[i].entry.stat.linkname);
    BeforeTotal(s[j].entry.path, s[k].entry.path);
    assert j == k;
  }

  /** Only directories are needed for what is below them. */
  lemma {:induction false} FileIsAccepted(s: seq<M.Received>, k: nat)
    requires M.TreeStream(s) && k < |s| && M.Needed(s, |s|, k) && !IsDir(s[k].entry.stat)
    ensures s[k].accepted
  {
    var j :| 0 <= j < |s| && s[j].accepted && M.LeadsTo(s, k, j);
    M.LeadsBefore(s, k, j);
    if k != j { M.AncestorIsDir(s, k, j); }
  }

  lemma {:induction false} ForwardedAncestor(s: seq<M.Received>, e: Entry, a: Str)
    requires M.TreeStream(s) && e in M.Forwarded(s, |s|, |s|) && Under(e.path, a)
    ensures DirIn(M.Forwarded(s, |s|, |s|), a)
  {
    ForwardedMembers(s, |s|, e);
    var k: nat :| k < |s| && M.Needed(s, |s|, k) && s[k].entry == e;
    var j: nat :| M.DirAt(s, j, a) && j < k;
    M.NeededUp(s, |s|, j, k);
    ForwardedMembers(s, |s|, s[j].entry);
  }

  lemma {:induction false} AcceptedIsForwarded(s: seq<M.Received>, j: nat)
    requires j < |s| && s[j].accepted
    ensures s[j].entry in M.Forwarded(s, |s|, |s|)
  {
    assert M.LeadsTo(s, j, j);
    ForwardedMembers(s, |s|, s[j].entry);
  }

  lemma {:induction false} ForwardedPaths(s: seq<M.Received>, p: Str)
    requires M.TreeStream(s)
    ensures p in PathsOf(M.Forwarded(s, |s|, |s|)) <==>
              exists j: nat :: j < |s| && s[j].accepted && OnTheWay(s, p, j)
  {
    hide M.TreeStream, M.LeadsTo;
    var u := M.Forwarded(s, |s|, |s|);
    if p in PathsOf(u) {
      var e :| e in u && e.path == p;
      ForwardedMembers(s, |s|, e);
      var k: nat :| k < |s| && M.Needed(s, |s|, k) && s[k].entry == e;
      var j :| 0 <= j < |s| && s[j].accepted && M.LeadsTo(s, k, j);
      assert OnTheWay(s, p, j);
    }
    if j: nat :| j < |s| && s[j].accepted && OnTheWay(s, p, j) {
      var k: nat :| k < |s| && M.LeadsTo(s, k, j) && s[k].entry.path == p;
      assert M.Needed(s, |s|, k);
      ForwardedMembers(s, |s|, s[k].entry);
    }
  }

  // ---------------------------------------------------------------- the whole transfer

  /** The sender's walk, as both sides see it. */
  ghost predicate Walks(c: T.Config, u: seq<Entry>)
  {
    && |c.src| == |u|
    && forall k :: 0 <= k < |u| ==>
         c.src[k].path == u[k].path && (c.src[k].regular <==> CanRequestData(u[k].stat))
  }

  /** The tree once the asynchronous writers are done. */
  function Filled(t: Tree, written: map<Str, Str>): Tree
  {
    map p | p in t :: t[p].(data := t[p].data + T.Written(written, p))
  }

  lemma SamePathSameEntry(u: seq<Entry>, k: nat, x: Entry)
    requires Sorted(u) && k < |u| && x in u && x.path == u[k].path
    ensures x == u[k]
  {
    var i :| 0 <= i < |u| && u[i] == x;
    BeforeTotal(x.path, u[k].path);
  }

  lemma NoRepeats(u: seq<Entry>, x: Entry)
    requires Sorted(u)
    ensures !Repeated(u, x)
  {
    BeforeTotal(x.path, x.path);
  }

  /** Entry k is asked for exactly when it is a regular file that the destination does not have. */
  lemma {:induction false} AskedExactly(cfg: Config, l: seq<Entry>, u: seq<Entry>, k: nat)
    requires Sorted(l) && Sorted(u) && k < |u|
    ensures u[k].path in AllRequests(Merge(cfg, l, u, [])) <==> IsRegular(u[k].stat) && !Matched(cfg, l, u[k])
  {
    hide Matched, IsRegular, Merge, AllRequests;
    var p := u[k].path;
    RequestsExact(cfg, l, u, []);
    WantedMembers(cfg, l, u, p);
    assert u[k] in u;
    if x :| x in u && x.path == p && IsRegular(x.stat) && !Matched(cfg, l, x) {
      SamePathSameEntry(u, k, x);
    }
  }

  /** A run that went on to its end and asked for exactly the contents of the given paths. */
  ghost predicate EndsAsking(c: T.Config, states: seq<T.State>, acts: seq<T.Action>, u: seq<Entry>, paths: seq<Str>)
  {
    && TR.Run(c, states, acts) && |states| == |acts| + 1 && T.Terminal(states[|acts|])
    && forall k: nat :: k < |u| ==> (k in states[|acts|].asked <==> u[k].path in paths)
  }

  lemma {:induction false} NothingElsewhere(c: T.Config, states: seq<T.State>, acts: seq<T.Action>,
                                            u: seq<Entry>, q: Str)
    requires T.ValidConfig(c) && Walks(c, u) && TR.Run(c, states, acts) && |states| == |acts| + 1 && q !in PathsOf(u)
    ensures T.Written(states[|acts|].written, q) == []
  {
    hide TR.Run, T.ValidConfig;
    forall k | 0 <= k < |c.src| ensures c.src[k].path != q { assert u[k] in u; }
    TR.WrittenOnlyAtSource(c, states, acts, |acts|, q);
  }

  /** What a finished run has written for entry k. */
  lemma {:induction false} EntryWritten(cfg: Config, l: seq<Entry>, u: seq<Entry>, c: T.Config, states: seq<T.State>,
                                        acts: seq<T.Action>, k: nat)
    requires T.ValidConfig(c) && Walks(c, u) && Sorted(l) && Sorted(u) && k < |u|
    requires EndsAsking(c, states, acts, u, AllRequests(Merge(cfg, l, u, [])))
    ensures T.Written(states[|acts|].written, u[k].path)
            == if IsRegular(u[k].stat) && !Matched(cfg, l, u[k]) then c.src[k].content else []
  {
    hide Merge, AllRequests, Matched, IsRegular, TR.Run, T.Terminal, Sorted, T.ValidConfig;
    TR.RunsEndComplete(c, states, acts);
    AskedExactly(cfg, l, u, k);
  }

  lemma FilledShape(t: Tree, written: map<Str, Str>)
    ensures Filled(t, written).Keys == t.Keys
    ensures forall p :: p in t ==> Filled(t, written)[p].stat == t[p].stat
    ensures forall p :: p in t && T.Written(written, p) == [] ==> Filled(t, written)[p] == t[p]
  {
    forall p | p in t && T.Written(written, p) == [] ensures Filled(t, written)[p] == t[p] {
      assert t[p].data + [] == t[p].data;
    }
  }

  lemma ListedSorted(t: Tree, l: seq<Entry>)
    requires Lists(t, l)
    ensures Sorted(l)
  { }

  lemma SameLength(c: T.Config, u: seq<Entry>)
    requires Walks(c, u)
    ensures |c.src| == |u|
  { }

  /** A transfer that runs to its end makes the destination the source: exactly its paths below the root,
      each node either the old one where the comparison found them equal, or the source's, with its stat
      and, for a regular file that is no hard link, its whole content. */
  lemma {:induction false} DestinationBecomesSource(cfg: Config, t: Tree, l: seq<Entry>, u: seq<Entry>,
                                                    c: T.Config, states: seq<T.State>, acts: seq<T.Action>)
    requires Lists(t, l) && Feed(u) && Sorted(u) && RootIsDir(u)
    requires T.ValidConfig(c) && Walks(c, u)
    requires EndsAsking(c, states, acts, u, AllRequests(Merge(cfg, l, u, [])))
    ensures ApplyAll(t, Merge(cfg, l, u, []), cfg.filter).Some?
    ensures (var d := Filled(ApplyAll(t, Merge(cfg, l, u, []), cfg.filter).value, states[|acts|].written);
             && d.Keys == PathsOf(u) + {CURRENT} && HasDir(d, CURRENT)
             && (CURRENT !in PathsOf(u) ==> d[CURRENT] == t[CURRENT])
             && (forall k :: 0 <= k < |u| ==> Delivered(cfg, t, l, d, u[k], c.src[k].content))
             && AllAgree(cfg, d, u)
             && forall k :: 0 <= k < |u| ==> Supplied(cfg, t, d, u[k], c.src[k].content))
  {
    hide Stream, Linked, Lists, TargetsEarlier, Linkable, Merge, AllRequests, ApplyAll, Matched, IsRegular, TR.Run,
         T.Terminal, RootIsDir, Kept, Updated, Delivered, Repeated, Filled, Sorted, Walks, T.ValidConfig;
    LinkedIsLinkable(cfg, l, u);
    var s := states[|acts|];
    var t' := SyncTheorem(cfg, t, l, u);
    ListedSorted(t, l);
    SameLength(c, u);
    var d := Filled(t', s.written);
    FilledShape(t', s.written);
    if CURRENT !in PathsOf(u) {
      NothingElsewhere(c, states, acts, u, CURRENT);
    }
    forall k: nat | k < |u| ensures Delivered(cfg, t, l, d, u[k], c.src[k].content) {
      assert u[k] in u;
      NoRepeats(u, u[k]);
      EntryWritten(cfg, l, u, c, states, acts, k);
      EntryDelivered(cfg, t, l, t', s.written, u[k], c.src[k].content);
    }
    forall k: nat | k < |u|
      ensures AgreesAt(d, u[k].path, Filtered(cfg, u[k]))
      ensures Supplied(cfg, t, d, u[k], c.src[k].content)
    {
      MatchedIsUnchanged(cfg, t, l, u[k]);
      DeliveredMeans(cfg, t, l, d, u[k], c.src[k].content);
    }
  }

  /** Every file has got its content. */
  ghost predicate SuppliedAnew(d: Tree, x: Entry, content: Str)
  {
    Ordinary(x.stat) && CanRequestData(x.stat) && x.stat.linkname == [] ==>
      x.path in d && d[x.path].data == content
  }

  /** What the tree misses it has got. */
  ghost predicate Supplied(cfg: Config, t: Tree, d: Tree, x: Entry, content: Str)
  {
    Ordinary(x.stat) && Missing(cfg, t, x) ==> x.path in d && d[x.path].data == content
  }

  lemma DeliveredMeans(cfg: Config, t: Tree, l: seq<Entry>, d: Tree, x: Entry, content: Str)
    requires Delivered(cfg, t, l, d, x, content) && (Matched(cfg, l, x) <==> Unchanged(cfg, t, x))
    ensures AgreesAt(d, x.path, Filtered(cfg, x)) && Supplied(cfg, t, d, x, content)
  {
    hide Matched, AgreesAt, Alike;
    AlikeAgrees(d, x.path, Filtered(cfg, x));
    AlikeItself(Filtered(cfg, x));
    RegularExactly(x.stat);
  }

  ghost predicate Delivered(cfg: Config, t: Tree, l: seq<Entry>, d: Tree, x: Entry, content: Str)
  {
    && x.path in d
    && if Matched(cfg, l, x) then x.path in t && d[x.path] == t[x.path]
       else d[x.path].stat == Filtered(cfg, x) && (IsRegular(x.stat) ==> d[x.path].data == content)
  }

  lemma EntryDelivered(cfg: Config, t: Tree, l: seq<Entry>, t': Tree, written: map<Str, Str>, x: Entry, content: Str)
    requires if Matched(cfg, l, x) then Kept(t, t', x.path) else Updated(t', x.path, Filtered(cfg, x))
    requires (T.Written(written, x.path)
              == if IsRegular(x.stat) && !Matched(cfg, l, x) then content else [])
    ensures Delivered(cfg, t, l, Filled(t', written), x, content)
  {
    hide Matched;
    assert IsDir(cfg.filter(x.path, x.stat)) == IsDir(x.stat);
    assert t'[x.path].data + [] == t'[x.path].data;
    assert [] + content == content;
  }

  /** The same in merge mode: whatever the feed names is the source's, contents included, and the rest of
      the old tree stays as it was where no file of the feed stands above it. */
  lemma {:induction false} DestinationOverlaid(cfg: Config, t: Tree, u: seq<Entry>, c: T.Config, states: seq<T.State>,
                                               acts: seq<T.Action>)
    requires WellFormed(t) && HasDir(t, CURRENT) && Feed(u) && Sorted(u) && RootIsDir(u)
    requires T.ValidConfig(c) && Walks(c, u)
    requires EndsAsking(c, states, acts, u, AllRequests(Merge(cfg, [], u, [])))
    ensures ApplyAll(t, Merge(cfg, [], u, []), cfg.filter).Some?
    ensures (var d := Filled(ApplyAll(t, Merge(cfg, [], u, []), cfg.filter).value, states[|acts|].written);
             && (forall k :: 0 <= k < |u| ==> Delivered(cfg, t, [], d, u[k], c.src[k].content))
             && (forall q :: q !in PathsOf(u) ==>
                   (q in d <==> q in t && forall x :: x in u && Under(q, x.path) ==> IsDir(x.stat)))
             && (forall q :: q in d && q !in PathsOf(u) ==> d[q] == t[q])
             && AllAgree(cfg, d, u)
             && forall k :: 0 <= k < |u| ==> SuppliedAnew(d, u[k], c.src[k].content))
  {
    hide Feed, Merge, AllRequests, ApplyAll, IsRegular, TR.Run, T.Terminal, WellFormed, RootIsDir, Stream,
         TargetsEarlier, LinksServed, AgreesAt, Alike, Ordinary, CanRequestData;
    FeedParts(t, u);
    var s := states[|acts|];
    var t' := MergeModeOverlays(cfg, t, u);
    var d := Filled(t', s.written);
    FilledShape(t', s.written);
    forall k: nat | k < |u| ensures Delivered(cfg, t, [], d, u[k], c.src[k].content) {
      assert u[k] in u;
      EntryWritten(cfg, [], u, c, states, acts, k);
      EntryDelivered(cfg, t, [], t', s.written, u[k], c.src[k].content);
    }
    forall k: nat | k < |u|
      ensures AgreesAt(d, u[k].path, Filtered(cfg, u[k]))
      ensures SuppliedAnew(d, u[k], c.src[k].content)
    {
      RegularExactly(u[k].stat);
      AlikeAgrees(d, u[k].path, Filtered(cfg, u[k]));
      AlikeItself(Filtered(cfg, u[k]));
    }
    forall q | q in d && q !in PathsOf(u) ensures d[q] == t[q] {
      NothingElsewhere(c, states, acts, u, q);
    }
  }

  /** Every one of the given paths passes the test of the receiver's file map. */
  ghost predicate Askable(u: seq<Entry>, paths: seq<Str>)
  {
    forall x :: x in u && x.path in paths ==> CanRequestData(x.stat)
  }

  /** Some run ends having asked for exactly what the replay asks for, if and only if all of that is askable. */
  lemma {:induction false} TransferExists(cfg: Config, l: seq<Entry>, u: seq<Entry>, c: T.Config)
    requires T.ValidConfig(c) && Walks(c, u)
    ensures (exists states: seq<T.State>, acts: seq<T.Action> ::
               EndsAsking(c, states, acts, u, AllRequests(Merge(cfg, l, u, []))))
            <==> Askable(u, AllRequests(Merge(cfg, l, u, [])))
  {
    hide Merge, AllRequests, CanRequestData, TR.Run, T.Terminal, T.ValidConfig;
    var r := AllRequests(Merge(cfg, l, u, []));
    if Askable(u, r) {
      var want := set k: nat | k < |u| && u[k].path in r;
      var states, acts := TR.RunAskingFor(c, want);
      assert EndsAsking(c, states, acts, u, r);
    }
    if states: seq<T.State>, acts: seq<T.Action> :| EndsAsking(c, states, acts, u, r) {
      forall x | x in u && x.path in r ensures CanRequestData(x.stat) {
        var k: nat :| k < |u| && u[k] == x;
        assert k in states[|acts|].asked;
        TR.AskedIsRegular(c, states, acts, |acts|, k);
      }
    }
  }

  /** The entries under the given paths. */
  ghost function EntriesUnder(u: seq<Entry>, paths: seq<Str>): set<nat> { set k: nat | k < |u| && u[k].path in paths }

  /** If, and only if, something the replay asks for is not askable, some run ends in that error. */
  lemma {:induction false} TransferRefused(cfg: Config, l: seq<Entry>, u: seq<Entry>, c: T.Config)
    requires T.ValidConfig(c) && Walks(c, u)
    ensures (exists states: seq<T.State>, acts: seq<T.Action> ::
               TQ.Refused(c, states, acts, EntriesUnder(u, AllRequests(Merge(cfg, l, u, [])))))
            <==> !Askable(u, AllRequests(Merge(cfg, l, u, [])))
  {
    hide Merge, AllRequests, CanRequestData, TQ.Refused, T.ValidConfig;
    var r := AllRequests(Merge(cfg, l, u, []));
    var want := EntriesUnder(u, r);
    TQ.RefusedExactly(c, want);
    if !Askable(u, r) {
      var x :| x in u && x.path in r && !CanRequestData(x.stat);
      var k: nat :| k < |u| && u[k] == x;
      assert k in want && !c.src[k].regular;
    }
    if k :| k in want && !c.src[k].regular {
      assert u[k] in u;
    }
  }

  // ---------------------------------------------------------------- streams of ordinary entries

  /** All that is asked for of ordinary entries passes the file maps. */
  lemma OrdinaryIsAskable(cfg: Config, t: Tree, l: seq<Entry>, u: seq<Entry>)
    requires Lists(t, l) && Stream(u) && AllOrdinary(u)
    ensures Askable(u, AllRequests(Merge(cfg, l, u, [])))
  {
    hide Lists, Stream, AllOrdinary, Merge, AllRequests, CanRequestData, Unchanged;
    forall x | x in u && x.path in AllRequests(Merge(cfg, l, u, [])) ensures CanRequestData(x.stat) {
      AskedForExactly(cfg, t, l, u, x);
    }
  }

  /** A run that went on to its end and asked for exactly the missing files. */
  ghost predicate EndsWithMissing(cfg: Config, t: Tree, u: seq<Entry>, c: T.Config, states: seq<T.State>,
                                  acts: seq<T.Action>)
  {
    && TR.Run(c, states, acts) && |states| == |acts| + 1 && T.Terminal(states[|acts|])
    && forall k: nat :: k < |u| ==> (k in states[|acts|].asked <==> Missing(cfg, t, u[k]))
  }

  /** With ordinary entries no run that asks for what the replay asks for is refused, and some run ends having
      asked for exactly the files that the tree misses. */
  lemma {:induction false} OrdinaryTransfer(cfg: Config, t: Tree, l: seq<Entry>, u: seq<Entry>, c: T.Config)
    requires Lists(t, l) && Stream(u) && AllOrdinary(u) && T.ValidConfig(c) && Walks(c, u)
    ensures forall states: seq<T.State>, acts: seq<T.Action> ::
              !TQ.Refused(c, states, acts, EntriesUnder(u, AllRequests(Merge(cfg, l, u, []))))
    ensures exists states: seq<T.State>, acts: seq<T.Action> :: EndsWithMissing(cfg, t, u, c, states, acts)
  {
    hide Lists, Stream, AllOrdinary, Merge, AllRequests, Missing, Askable, TQ.Refused, TR.Run, T.Terminal, Walks,
         T.ValidConfig, EntriesUnder;
    OrdinaryIsAskable(cfg, t, l, u);
    TransferRefused(cfg, l, u, c);
    TransferExists(cfg, l, u, c);
    var states: seq<T.State>, acts: seq<T.Action> :| EndsAsking(c, states, acts, u, AllRequests(Merge(cfg, l, u, [])));
    forall k: nat | k < |u| ensures k in states[|acts|].asked <==> Missing(cfg, t, u[k]) {
      assert u[k] in u;
      AskedForExactly(cfg, t, l, u, u[k]);
    }
    assert EndsWithMissing(cfg, t, u, c, states, acts);
  }
}
