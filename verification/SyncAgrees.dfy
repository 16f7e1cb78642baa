/** What a replay makes of the tree, in terms of the stats alone: what agrees, what is left alone, and what
    is asked for. */
module SyncingAgrees {
  import opened Bytes
  import opened Paths
  import opened Stats
  import opened Disk
  import opened DiskWriting
  import opened Diffing
  import opened Syncing
  import opened SyncingExactly
  import opened Overlaying

  /** A stat without what is not compared: the path, the extended attributes, and for a directory its size
      and time. */
  function Compared(s: Stat): Stat
  {
    s.(path := [], xattrs := map[], size := if IsDir(s) then 0 else s.size,
       modTime := if IsDir(s) then 0 else s.modTime)
  }

  predicate Alike(a: Stat, b: Stat) { Compared(a) == Compared(b) }

  /** That is what the comparison of stats looks at. */
  lemma AgreeMeans(a: Stat, b: Stat)
    ensures Agree(a, b) <==> Alike(a, b)
  { }

  /** The tree has x already: a node whose stat agrees. Nothing counts as had when nothing is compared, and
      comparing contents asks for no more than comparing metadata. */
  ghost predicate Unchanged(cfg: Config, t: Tree, x: Entry)
  {
    && x.path != CURRENT && x.path in t && Alike(t[x.path].stat, Filtered(cfg, x))
    && cfg.differ != DiffNone
  }

  lemma MatchedIsUnchanged(cfg: Config, t: Tree, l: seq<Entry>, x: Entry)
    requires Lists(t, l)
    ensures Matched(cfg, l, x) <==> Unchanged(cfg, t, x)
  {
    hide Before, Normal, Agree, Alike;
    NoRootBelow(l);
    if Unchanged(cfg, t, x) {
      var e :| e in l && e.path == x.path;
      AgreeMeans(e.stat, Filtered(cfg, x));
      assert SameFile(cfg, e, Filtered(cfg, x));
    }
    if Matched(cfg, l, x) {
      var e :| e in l && e.path == x.path && SameFile(cfg, e, Filtered(cfg, x));
      AgreeMeans(e.stat, Filtered(cfg, x));
      assert e.path in PathsOf(l);
    }
  }

  /** The node at p has the mode, the owner, the device numbers and the link name of s, and its size and time
      unless it is a directory. */
  ghost predicate AgreesAt(t: Tree, p: Str, s: Stat)
  {
    && p in t && t[p].stat.mode == s.mode && t[p].stat.uid == s.uid && t[p].stat.gid == s.gid
    && t[p].stat.devmajor == s.devmajor && t[p].stat.devminor == s.devminor && t[p].stat.linkname == s.linkname
    && (!IsDir(s) ==> t[p].stat.size == s.size && t[p].stat.modTime == s.modTime)
  }

  lemma AlikeAgrees(t: Tree, p: Str, s: Stat)
    ensures AgreesAt(t, p, s) <==> p in t && Alike(t[p].stat, s)
  { }

  /** Every entry of u is in the tree, with a stat that agrees with its own. */
  ghost predicate AllAgree(cfg: Config, t: Tree, u: seq<Entry>)
  {
    forall x :: x in u ==> AgreesAt(t, x.path, Filtered(cfg, x))
  }

  /** After the replay every entry of the stream agrees with the tree. What the tree had is the very node it
      was; every other node is new, and a repeated directory is written again. */
  lemma SyncAgrees(cfg: Config, t: Tree, l: seq<Entry>, u: seq<Entry>) returns (t': Tree)
    requires Lists(t, l) && Stream(u) && TargetsEarlier(u) && Linkable(cfg, l, u) && RootIsDir(u)
    ensures ApplyAll(t, Merge(cfg, l, u, []), cfg.filter) == Some(t')
    ensures AllAgree(cfg, t', u)
    ensures forall x :: x in u ==>
              if Unchanged(cfg, t, x) && !Repeated(u, x) then Kept(t, t', x.path)
              else Updated(t', x.path, Filtered(cfg, x))
  {
    hide Lists, Stream, Linkable, Merge, ApplyAll, Repeated, Matched, AgreesAt, Alike;
    t' := SyncTheorem(cfg, t, l, u);
    forall x | x in u
      ensures AgreesAt(t', x.path, Filtered(cfg, x))
      ensures if Unchanged(cfg, t, x) && !Repeated(u, x) then Kept(t, t', x.path)
              else Updated(t', x.path, Filtered(cfg, x))
    {
      MatchedIsUnchanged(cfg, t, l, x);
      AlikeAgrees(t', x.path, Filtered(cfg, x));
      AlikeItself(Filtered(cfg, x));
    }
  }

  lemma AlikeItself(s: Stat)
    ensures Alike(s, s)
  { }

  /** In merge mode every node of the stream is new. */
  lemma OverlayAgrees(cfg: Config, t: Tree, u: seq<Entry>) returns (t': Tree)
    requires WellFormed(t) && HasDir(t, CURRENT)
    requires Stream(u) && TargetsEarlier(u) && LinksServed(t, u) && RootIsDir(u)
    ensures ApplyAll(t, Merge(cfg, [], u, []), cfg.filter) == Some(t') && AllAgree(cfg, t', u)
  {
    hide Stream, Merge, ApplyAll, LinksServed, AgreesAt, Alike, WellFormed;
    t' := MergeModeOverlays(cfg, t, u);
    forall x | x in u ensures AgreesAt(t', x.path, Filtered(cfg, x)) {
      AlikeAgrees(t', x.path, Filtered(cfg, x));
      AlikeItself(Filtered(cfg, x));
    }
  }

  // ---------------------------------------------------------------- which paths are touched

  ghost predicate Touches(cs: seq<Change>, p: Str) { exists c :: c in cs && c.path == p }

  lemma TouchesConcat(a: seq<Change>, b: seq<Change>, p: Str)
    ensures Touches(a + b, p) <==> Touches(a, p) || Touches(b, p)
  { }

  /** Neither walk has the path any more. */
  lemma UntouchedElsewhere(cfg: Config, l: seq<Entry>, u: seq<Entry>, rmdir: Str, p: Str)
    requires p !in PathsOf(l) && p !in PathsOf(u)
    ensures !Touches(Merge(cfg, l, u, rmdir), p)
  {
    MergeWithin(cfg, l, u, rmdir);
  }

  /** The head of both walks, when it comes only once. */
  lemma HeadGone(l: seq<Entry>, u: seq<Entry>)
    requires l != [] && u != [] && Sorted(l) && SortedWithRepeats(u) && l[0].path == u[0].path && u[0] !in u[1..]
    ensures u[0].path !in PathsOf(l[1..]) && u[0].path !in PathsOf(u[1..])
  {
    hide Before;
    TailLower(l);
    TailUpper(u);
    BeforeTotal(u[0].path, u[0].path);
    forall x | x in u[1..] ensures x.path != u[0].path { HeadFirst(u, x); }
  }

  /** A path of the stream is touched unless the lower walk has the same file there, and it comes only once. */
  lemma {:induction false} TouchedExactly(cfg: Config, l: seq<Entry>, u: seq<Entry>, rmdir: Str, x: Entry)
    requires Sorted(l) && SortedWithRepeats(u) && x in u
    ensures Touches(Merge(cfg, l, u, rmdir), x.path) <==> !Matched(cfg, l, x) || Repeated(u, x)
    decreases |l| + |u|
  {
    hide Sorted, SortedWithRepeats, Before, SameFile, Matched, Repeated, IsDir, Touches;
    HeadsInOrder(l, u);
    HeadFirst(u, x);
    RepeatedTail(u, x);
    TailUpper(u);
    var k := Decide(cfg, Head(l), Head(u), rmdir);
    TouchesConcat(k.emit, Merge(cfg, Rest(l, k.tookLower), Rest(u, k.tookUpper), k.rmdir), x.path);
    match PathChange(Head(l), Head(u))
    case Add =>
      TouchesOne(k.emit, x.path);
      if x == u[0] {
        BeforeAll(l, x.path);
        NotMatched(cfg, l, x);
      } else {
        TouchedExactly(cfg, l, u[1..], k.rmdir, x);
      }
    case Delete =>
      TailLower(l);
      MatchedTail(cfg, l, x);
      BeforeAllUpper(u, l[0].path);
      TouchesOne(k.emit, x.path);
      TouchedExactly(cfg, l[1..], u, k.rmdir, x);
    case Modify =>
      TailLower(l);
      MatchedTail(cfg, l, x);
      TouchesOne(k.emit, x.path);
      if x in u[1..] {
        TouchedExactly(cfg, l[1..], u[1..], k.rmdir, x);
      } else {
        HeadGone(l, u);
        UntouchedElsewhere(cfg, l[1..], u[1..], k.rmdir, x.path);
      }
  }

  lemma TouchesOne(cs: seq<Change>, p: Str)
    requires |cs| <= 1
    ensures Touches(cs, p) <==> cs != [] && cs[0].path == p
  { }

  /** The diff leaves alone exactly what the tree has already. */
  lemma LeftAloneExactly(cfg: Config, t: Tree, l: seq<Entry>, u: seq<Entry>, x: Entry)
    requires Lists(t, l) && Stream(u) && x in u
    ensures Touches(Merge(cfg, l, u, []), x.path) <==> !Unchanged(cfg, t, x) || Repeated(u, x)
  {
    hide Sorted, SortedWithRepeats, Merge, Repeated, Closed, Touches;
    TouchedExactly(cfg, l, u, [], x);
    MatchedIsUnchanged(cfg, t, l, x);
  }

  // ---------------------------------------------------------------- what is asked for

  lemma {:induction false} WantedMembers(cfg: Config, l: seq<Entry>, u: seq<Entry>, p: Str)
    ensures p in Wanted(cfg, l, u) <==> exists x :: x in u && x.path == p && IsRegular(x.stat) && !Matched(cfg, l, x)
  {
    if u != [] {
      WantedMembers(cfg, l, u[1..], p);
      var w := if IsRegular(u[0].stat) && !Matched(cfg, l, u[0]) then [u[0].path] else [];
      assert Wanted(cfg, l, u) == w + Wanted(cfg, l, u[1..]);
      assert forall x :: x in u <==> x == u[0] || x in u[1..];
    }
  }

  /** What a file system yields, apart from sockets and files that are not its own: no mode bit that the
      writer does not know. */
  predicate Ordinary(s: Stat)
  {
    !HasBit(s.mode, MODE_SOCKET) && !HasBit(s.mode, MODE_IRREGULAR)
    && (HasBit(s.mode, MODE_CHAR_DEVICE) ==> HasBit(s.mode, MODE_DEVICE))
  }

  ghost predicate AllOrdinary(u: seq<Entry>) { forall x :: x in u ==> Ordinary(x.stat) }

  /** The writer asks for a content exactly where the file maps have one to give. */
  lemma RegularExactly(s: Stat)
    ensures IsRegular(s) <==>
              s.linkname == [] &&
              (CanRequestData(s) || (!Ordinary(s) && !IsDir(s) && !IsSymlink(s) && !IsSpecial(s)))
    ensures Ordinary(s) ==> (IsRegular(s) <==> CanRequestData(s) && s.linkname == [])
  { }

  /** A file of the stream whose content is to be had and that the tree has not already. */
  ghost predicate Missing(cfg: Config, t: Tree, x: Entry)
  {
    CanRequestData(x.stat) && x.stat.linkname == [] && !Unchanged(cfg, t, x)
  }

  lemma SameEntry(u: seq<Entry>, x: Entry, y: Entry)
    requires SortedWithRepeats(u) && x in u && y in u && x.path == y.path
    ensures x == y
  {
    hide Before;
    var i :| 0 <= i < |u| && u[i] == x;
    var j :| 0 <= j < |u| && u[j] == y;
    BeforeTotal(x.path, x.path);
  }

  /** Of a stream of ordinary entries exactly the missing files are asked for. */
  lemma AskedForExactly(cfg: Config, t: Tree, l: seq<Entry>, u: seq<Entry>, x: Entry)
    requires Lists(t, l) && Stream(u) && AllOrdinary(u) && x in u
    ensures x.path in AllRequests(Merge(cfg, l, u, [])) <==> Missing(cfg, t, x)
  {
    hide Sorted, SortedWithRepeats, Merge, AllRequests, Matched, IsRegular, CanRequestData, Ordinary, Closed;
    RequestsExact(cfg, l, u, []);
    WantedMembers(cfg, l, u, x.path);
    MatchedIsUnchanged(cfg, t, l, x);
    RegularExactly(x.stat);
    if y :| y in u && y.path == x.path && IsRegular(y.stat) && !Matched(cfg, l, y) { SameEntry(u, x, y); }
  }

  /** In merge mode nothing is had already. */
  lemma AskedForInMerge(cfg: Config, u: seq<Entry>, x: Entry)
    requires Stream(u) && AllOrdinary(u) && x in u
    ensures x.path in AllRequests(Merge(cfg, [], u, [])) <==> CanRequestData(x.stat) && x.stat.linkname == []
  {
    hide SortedWithRepeats, Merge, AllRequests, IsRegular, CanRequestData, Ordinary, Closed;
    assert Sorted([]);
    RequestsExact(cfg, [], u, []);
    WantedMembers(cfg, [], u, x.path);
    RegularExactly(x.stat);
    if y :| y in u && y.path == x.path && IsRegular(y.stat) { SameEntry(u, x, y); }
  }

  // ---------------------------------------------------------------- nothing compared, or metadata only

  /** With no comparison every entry is touched, written anew and, if it has a content, asked for. */
  lemma NothingCompared(cfg: Config, t: Tree, l: seq<Entry>, u: seq<Entry>) returns (t': Tree)
    requires Lists(t, l) && Stream(u) && TargetsEarlier(u) && Linkable(cfg, l, u) && RootIsDir(u)
    requires cfg.differ == DiffNone && AllOrdinary(u)
    ensures ApplyAll(t, Merge(cfg, l, u, []), cfg.filter) == Some(t')
    ensures forall x :: x in u ==>
              && Touches(Merge(cfg, l, u, []), x.path) && Updated(t', x.path, Filtered(cfg, x))
              && (x.path in AllRequests(Merge(cfg, l, u, [])) <==> CanRequestData(x.stat) && x.stat.linkname == [])
  {
    hide Lists, Stream, Linkable, Merge, ApplyAll, Repeated, Updated, Kept, AllOrdinary, AllRequests, Touches;
    t' := SyncAgrees(cfg, t, l, u);
    forall x | x in u
      ensures Touches(Merge(cfg, l, u, []), x.path) && Updated(t', x.path, Filtered(cfg, x))
      ensures x.path in AllRequests(Merge(cfg, l, u, [])) <==> CanRequestData(x.stat) && x.stat.linkname == []
    {
      LeftAloneExactly(cfg, t, l, u, x);
      AskedForExactly(cfg, t, l, u, x);
    }
  }

  /** Comparing metadata, or contents, a node that agrees is kept, touched by no change, and not asked for. */
  lemma MetadataCompared(cfg: Config, t: Tree, l: seq<Entry>, u: seq<Entry>, x: Entry) returns (t': Tree)
    requires Lists(t, l) && Stream(u) && TargetsEarlier(u) && Linkable(cfg, l, u) && RootIsDir(u)
    requires cfg.differ != DiffNone && x in u && !Repeated(u, x)
    requires x.path != CURRENT && AgreesAt(t, x.path, Filtered(cfg, x))
    ensures ApplyAll(t, Merge(cfg, l, u, []), cfg.filter) == Some(t') && Kept(t, t', x.path)
    ensures !Touches(Merge(cfg, l, u, []), x.path) && x.path !in AllRequests(Merge(cfg, l, u, []))
  {
    hide Lists, Stream, Linkable, Merge, ApplyAll, Repeated, Kept, Updated, AllRequests, AgreesAt, Alike, Touches;
    AlikeAgrees(t, x.path, Filtered(cfg, x));
    t' := SyncAgrees(cfg, t, l, u);
    LeftAloneExactly(cfg, t, l, u, x);
    UntouchedIsUnasked(Merge(cfg, l, u, []), x.path);
  }

  lemma {:induction false} UntouchedIsUnasked(cs: seq<Change>, p: Str)
    requires !Touches(cs, p)
    ensures p !in AllRequests(cs)
  {
    if cs != [] {
      assert cs[0] in cs && forall c :: c in cs[1..] ==> c in cs;
      UntouchedIsUnasked(cs[1..], p);
    }
  }
}
