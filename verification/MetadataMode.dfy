/** Metadata mode put together: what is forwarded, replayed into the destination, and the one way it fails. */
module MetadataMode {
  import opened Bytes
  import opened Paths
  import opened Stats
  import opened Disk
  import opened DiskWriting
  import opened Diffing
  import opened Syncing
  import opened SyncingExactly
  import opened Overlaying
  import opened EndToEnd
  import V = Validation
  import H = HardLinking
  import M = MetadataReplay

  /** Both validators accept the stream. */
  ghost predicate Admitted(s: seq<M.Received>)
  {
    V.ValidStream(Adds(EntriesOf(s))) && H.LinksKnown(EntriesOf(s))
  }

  // ---------------------------------------------------------------- which streams can be replayed

  /** What is forwarded can be replayed on a tree if and only if every accepted link has an accepted target,
      unless the tree has that very link already, and an accepted "." is a directory. */
  lemma {:induction false} ForwardedReplays(cfg: Config, t: Tree, l: seq<Entry>, s: seq<M.Received>)
    requires Lists(t, l) && Admitted(s)
    ensures (var r := ApplyAll(t, Merge(cfg, l, M.Forwarded(s, |s|, |s|), []), cfg.filter);
             && (Replayed(r) <==> LinksFound(cfg, l, s) && RootAccepted(s))
             && (RootAccepted(s) ==> (r.Some? <==> LinksFound(cfg, l, s))))
  {
    hide M.TreeStream, H.LinksKnown, V.ValidStream, Merge, ApplyAll, Lists, M.Forwarded, LinksFound, Linkable,
         RootIsDir, RootAccepted, TargetsEarlier, Stream;
    AdmittedIsTreeStream(s);
    ForwardedIsStream(s);
    ForwardedLinkable(cfg, l, s);
    SyncExactly(cfg, t, l, M.Forwarded(s, |s|, |s|));
  }

  /** An accepted link has an accepted target, or one in the old tree. */
  ghost predicate LinksFoundIn(t: Tree, s: seq<M.Received>)
  {
    forall i: nat :: i < |s| && s[i].accepted && IsHardLink(s[i].entry.stat) ==>
      TargetAccepted(s, i) || HasFile(t, s[i].entry.stat.linkname)
  }

  /** Nothing that is forwarded takes the place of a link's target or buries it. */
  lemma {:induction false} TargetStays(s: seq<M.Received>, i: nat)
    requires M.TreeStream(s) && H.LinksKnown(EntriesOf(s)) && i < |s| && IsHardLink(s[i].entry.stat)
    ensures Stays(M.Forwarded(s, |s|, |s|), s[i].entry.stat.linkname)
  {
    hide M.Needed, Normal, Before, M.Forwarded;
    var u, g := EntriesOf(s), s[i].entry.stat.linkname;
    assert u[i] == s[i].entry && H.OwnedBy(u, i, g);
    var j: nat :| j < i && H.OwnFile(u, j, g);
    assert u[j] == s[j].entry;
    forall y | y in M.Forwarded(s, |s|, |s|)
      ensures (y.path == g ==> !IsDir(y.stat)) && (Under(g, y.path) ==> IsDir(y.stat))
    {
      ForwardedMembers(s, |s|, y);
      var k: nat :| k < |s| && M.Needed(s, |s|, k) && s[k].entry == y;
      if y.path == g { SameIndex(s, j, k); }
      if Under(g, y.path) {
        var a: nat :| M.DirAt(s, a, y.path) && a < j;
        SameIndex(s, a, k);
      }
    }
  }

  lemma SameIndex(s: seq<M.Received>, j: nat, k: nat)
    requires M.TreeStream(s) && j < |s| && k < |s| && s[j].entry.path == s[k].entry.path
    ensures j == k
  {
    BeforeTotal(s[j].entry.path, s[k].entry.path);
  }

  lemma {:induction false} ForwardedServed(t: Tree, s: seq<M.Received>)
    requires M.TreeStream(s) && H.LinksKnown(EntriesOf(s))
    ensures LinksServed(t, M.Forwarded(s, |s|, |s|)) <==> LinksFoundIn(t, s)
  {
    hide M.Needed, M.TreeStream, M.Forwarded, H.LinksKnown, TargetAccepted, FileBefore, IsHardLink, HasFile, Stays;
    var u := M.Forwarded(s, |s|, |s|);
    if LinksFoundIn(t, s) {
      forall x | x in u && IsHardLink(x.stat) ensures Served(t, u, x) {
        ForwardedMembers(s, |s|, x);
        var k: nat :| k < |s| && M.Needed(s, |s|, k) && s[k].entry == x;
        LinkIsFile(x.stat);
        FileIsAccepted(s, k);
        LinkExactly(s, k);
        TargetStays(s, k);
      }
    }
    if LinksServed(t, u) {
      forall i: nat | i < |s| && s[i].accepted && IsHardLink(s[i].entry.stat)
        ensures TargetAccepted(s, i) || HasFile(t, s[i].entry.stat.linkname)
      {
        AcceptedIsForwarded(s, i);
        assert Served(t, u, s[i].entry);
        LinkExactly(s, i);
      }
    }
  }

  /** In merge mode the forwarded stream can be replayed on a tree if and only if every accepted link has an
      accepted target, or one in the tree, and an accepted "." is a directory. */
  lemma {:induction false} ForwardedMerges(cfg: Config, t: Tree, s: seq<M.Received>)
    requires WellFormed(t) && HasDir(t, CURRENT) && Admitted(s)
    ensures (var r := ApplyAll(t, Merge(cfg, [], M.Forwarded(s, |s|, |s|), []), cfg.filter);
             && (Replayed(r) <==> LinksFoundIn(t, s) && RootAccepted(s))
             && (RootAccepted(s) ==> (r.Some? <==> LinksFoundIn(t, s))))
  {
    hide M.TreeStream, H.LinksKnown, V.ValidStream, Merge, ApplyAll, WellFormed, M.Forwarded, LinksFoundIn, LinksServed,
         RootIsDir, RootAccepted, TargetsEarlier, Stream;
    AdmittedIsTreeStream(s);
    ForwardedIsStream(s);
    ForwardedServed(t, s);
    MergeModeExactly(cfg, t, M.Forwarded(s, |s|, |s|));
  }

  const NAME_A: Str := [97]
  const NAME_B: Str := [98]

  /** A file "a" that the metadata filter rejects, and an accepted hard link "b" to it. */
  const REJECTED_TARGET: seq<M.Received> :=
    [M.Received(Entry(NAME_A, EMPTY_STAT), false), M.Received(Entry(NAME_B, EMPTY_STAT.(linkname := NAME_A)), true)]

  lemma PlainName(c: byte)
    requires c != SEP && c != 46
    ensures Normal([c]) && LastSep([c]) == -1
  {
    SplitName([c]);
    OneComponent([c]);
  }

  lemma {:induction false} RejectedTargetAdmitted()
    ensures Admitted(REJECTED_TARGET) && RootAccepted(REJECTED_TARGET)
    ensures IsHardLink(REJECTED_TARGET[1].entry.stat) && !TargetAccepted(REJECTED_TARGET, 1)
  {
    hide Normal, Split;
    var s := REJECTED_TARGET;
    var u := EntriesOf(s);
    var cs := Adds(u);
    PlainName(97);
    PlainName(98);
    assert Before(NAME_A, NAME_B);
    assert cs[0].path == NAME_A && cs[1].path == NAME_B;
    assert V.Grounded(cs, 0) && V.Grounded(cs, 1);
    assert H.OwnFile(u, 0, NAME_A);
    assert H.OwnedBy(u, 1, NAME_A);
    assert IsHardLink(u[1].stat);
  }

  /** Both validators accept that stream, and replaying what it forwards fails, except on a tree that has
      the link already: there the link is kept and its target removed. */
  lemma {:induction false} RejectedTargetExactly(cfg: Config, t: Tree, l: seq<Entry>)
    requires Lists(t, l)
    ensures Admitted(REJECTED_TARGET)
    ensures ApplyAll(t, Merge(cfg, l, M.Forwarded(REJECTED_TARGET, 2, 2), []), cfg.filter).None?
            <==> !Matched(cfg, l, REJECTED_TARGET[1].entry)
  {
    hide Merge, ApplyAll, M.Forwarded, Lists, Matched, Admitted, TargetAccepted, IsHardLink, RootAccepted;
    RejectedTargetAdmitted();
    ForwardedReplays(cfg, t, l, REJECTED_TARGET);
  }

  /** An empty destination: the root alone. */
  const BARE_ROOT: Tree := map[CURRENT := Node(DIR_STAT, [])]

  lemma {:induction false} RejectedTargetFails(cfg: Config)
    ensures Admitted(REJECTED_TARGET)
    ensures ApplyAll(BARE_ROOT, Merge(cfg, [], M.Forwarded(REJECTED_TARGET, 2, 2), []), cfg.filter).None?
  {
    hide Merge, ApplyAll, M.Forwarded, Admitted;
    assert IsDir(DIR_STAT) && Lists(BARE_ROOT, []);
    RejectedTargetExactly(cfg, BARE_ROOT, []);
  }

  // ---------------------------------------------------------------- the result

  lemma RepeatedInPart(f: seq<Entry>, c: seq<Entry>, e: Entry)
    requires e !in c
    ensures Repeated(f + c, e) <==> Repeated(f, e)
  {
    var u := f + c;
    assert forall i :: 0 <= i < |f| ==> u[i] == f[i];
    assert forall j :: |f| <= j < |u| ==> u[j] == c[j - |f|];
    assert forall j :: |f| <= j < |u| ==> u[j] != e;
    if Repeated(u, e) {
      var i, j :| 0 <= i < j < |u| && u[i] == e && u[j] == e;
      assert f[i] == e && f[j] == e;
    }
    if Repeated(f, e) {
      var i, j :| 0 <= i < j < |f| && f[i] == e && f[j] == e;
      assert u[i] == e && u[j] == e;
    }
  }

  lemma RepeatedAtEnd(f: seq<Entry>, c: seq<Entry>, e: Entry)
    requires e !in f && (c == [e] || c == [e, e])
    ensures Repeated(f + c, e) <==> c == [e, e]
  {
    var u := f + c;
    if c == [e, e] { assert u[|f|] == e && u[|f| + 1] == e; }
    assert forall i :: 0 <= i < |f| ==> u[i] == f[i] && f[i] in f;
  }

  lemma EntriesDiffer(s: seq<M.Received>, j: nat, k: nat)
    requires M.TreeStream(s) && j < k < |s|
    ensures s[j].entry != s[k].entry
  {
    BeforeTotal(s[j].entry.path, s[k].entry.path);
  }

  /** An accepted directory, and nothing else, is forwarded twice. */
  lemma {:induction false} TwiceForwarded(s: seq<M.Received>, m: nat, k: nat)
    requires M.TreeStream(s) && k < m <= |s| && M.Needed(s, |s|, k)
    ensures Repeated(M.Forwarded(s, |s|, m), s[k].entry) <==> s[k].accepted && IsDir(s[k].entry.stat)
  {
    hide M.Needed, M.TreeStream, IsDir, Repeated;
    var f, c, e := M.Forwarded(s, |s|, m - 1), M.Copies(s, |s|, m - 1), s[k].entry;
    if k == m - 1 {
      if e in f {
        ForwardedMembers(s, m - 1, e);
        var j: nat :| j < m - 1 && s[j].entry == e;
        EntriesDiffer(s, j, k);
      }
      RepeatedAtEnd(f, c, e);
    } else {
      TwiceForwarded(s, m - 1, k);
      EntriesDiffer(s, k, m - 1);
      assert e !in c;
      RepeatedInPart(f, c, e);
    }
  }

  /** Metadata mode, from what the validators admit to the destination: the replay ends with exactly the
      accepted entries and the directories above them; what the comparison found equal is kept, except
      that an accepted directory is always written anew. */
  lemma {:induction false} MetadataModeSyncs(cfg: Config, t: Tree, l: seq<Entry>, s: seq<M.Received>) returns (t': Tree)
    requires Lists(t, l) && Admitted(s) && LinksFound(cfg, l, s) && RootAccepted(s)
    ensures ApplyAll(t, Merge(cfg, l, M.Forwarded(s, |s|, |s|), []), cfg.filter) == Some(t')
    ensures forall p :: p in t' <==> p == CURRENT || exists j: nat :: j < |s| && s[j].accepted && OnTheWay(s, p, j)
    ensures forall k: nat :: k < |s| && M.Needed(s, |s|, k) ==>
              (var x := s[k].entry;
               if Matched(cfg, l, x) && !(s[k].accepted && IsDir(x.stat)) then Kept(t, t', x.path)
               else Updated(t', x.path, Filtered(cfg, x)))
  {
    hide M.TreeStream, H.LinksKnown, V.ValidStream, Merge, ApplyAll, Stream, Lists, M.Forwarded, M.Needed, LinksFound,
         Linkable, TargetsEarlier, RootIsDir, RootAccepted, Matched, Repeated, Kept, Updated, OnTheWay, IsDir;
    AdmittedIsTreeStream(s);
    ForwardedIsStream(s);
    ForwardedLinkable(cfg, l, s);
    var u := M.Forwarded(s, |s|, |s|);
    t' := SyncTheorem(cfg, t, l, u);
    forall k: nat | k < |s| && M.Needed(s, |s|, k)
      ensures (var x := s[k].entry;
               if Matched(cfg, l, x) && !(s[k].accepted && IsDir(x.stat)) then Kept(t, t', x.path)
               else Updated(t', x.path, Filtered(cfg, x)))
    {
      TwiceForwarded(s, |s|, k);
      ForwardedMembers(s, |s|, s[k].entry);
    }
  }

  // ---------------------------------------------------------------- ids

  // ".fsutil-metadata"
  const METADATA_PATH: Str := [46, 102, 115, 117, 116, 105, 108, 45, 109, 101, 116, 97, 100, 97, 116, 97]

  /** How many of the first k entries the receiver passes over without counting them. */
  function Uncounted(s: seq<M.Received>, k: nat): (n: nat)
    requires k <= |s|
    ensures n <= k
  {
    if k == 0 then 0 else Uncounted(s, k - 1) + if s[k - 1].entry.path == METADATA_PATH then 1 else 0
  }

  /** The receiver may ask for the content of entry k. */
  predicate Registered(s: seq<M.Received>, k: nat)
    requires k < |s|
  {
    s[k].entry.path != METADATA_PATH && s[k].accepted && CanRequestData(s[k].entry.stat)
  }

  /** The receiver's file map: the registered entries, each under the number of entries counted before it. */
  ghost predicate ReceiverMap(s: seq<M.Received>, files: map<Str, nat>)
  {
    && (forall p :: p in files ==> exists k: nat :: k < |s| && Registered(s, k) && s[k].entry.path == p)
    && (forall k: nat :: k < |s| && Registered(s, k) ==>
          s[k].entry.path in files && files[s[k].entry.path] == k - Uncounted(s, k))
  }

  /** The sender's file map: every entry whose content can be asked for, under its index. */
  ghost predicate SenderMap(u: seq<Entry>, files: map<nat, Str>)
  {
    && (forall k: nat :: k in files <==> k < |u| && CanRequestData(u[k].stat))
    && (forall k: nat :: k in files ==> files[k] == u[k].path)
  }

  /** The sender counts every entry it sends. */
  method SendFiles(u: seq<Entry>) returns (files: map<nat, Str>)
    ensures SenderMap(u, files)
  {
    hide CanRequestData;
    files := map[];
    for i := 0 to |u|
      invariant forall k: nat :: k in files <==> k < i && CanRequestData(u[k].stat)
      invariant forall k: nat :: k in files ==> files[k] == u[k].path
    {
      if CanRequestData(u[i].stat) {
        files := files[i := u[i].path];
      }
    }
  }

  /** The receiver, in metadata mode, passes over ".fsutil-metadata" before it counts. */
  method RegisterFiles(s: seq<M.Received>) returns (files: map<Str, nat>)
    requires forall i, j :: 0 <= i < j < |s| ==> s[i].entry.path != s[j].entry.path
    ensures ReceiverMap(s, files)
  {
    files := map[];
    var i := 0;
    for k := 0 to |s|
      invariant i == k - Uncounted(s, k)
      invariant forall p :: p in files ==> exists j: nat :: j < k && Registered(s, j) && s[j].entry.path == p
      invariant forall j: nat :: j < k && Registered(s, j) ==>
                  s[j].entry.path in files && files[s[j].entry.path] == j - Uncounted(s, j)
    {
      var path := s[k].entry.path;
      if path == METADATA_PATH {
        continue;
      }
      if s[k].accepted && CanRequestData(s[k].entry.stat) {
        files := files[path := i];
      }
      i := i + 1;
    }
  }

  lemma {:induction false} UncountedExactly(s: seq<M.Received>, k: nat)
    requires k <= |s|
    ensures Uncounted(s, k) == 0 <==> forall j :: 0 <= j < k ==> s[j].entry.path != METADATA_PATH
  {
    if k > 0 { UncountedExactly(s, k - 1); }
  }

  /** The id under which the receiver asks for an entry is one the sender knows, and knows under the same
      path, if and only if no ".fsutil-metadata" came before the entry. */
  lemma {:induction false} IdsAgreeExactly(s: seq<M.Received>, received: map<Str, nat>, sent: map<nat, Str>, k: nat)
    requires forall i, j :: 0 <= i < j < |s| ==> s[i].entry.path != s[j].entry.path
    requires ReceiverMap(s, received) && SenderMap(EntriesOf(s), sent) && k < |s| && Registered(s, k)
    ensures (var p := s[k].entry.path;
             received[p] in sent && sent[received[p]] == p) <==>
            forall j :: 0 <= j < k ==> s[j].entry.path != METADATA_PATH
  {
    hide CanRequestData;
    UncountedExactly(s, k);
    var p, i := s[k].entry.path, received[s[k].entry.path];
    assert i == k - Uncounted(s, k);
    assert EntriesOf(s)[k] == s[k].entry && EntriesOf(s)[i] == s[i].entry;
  }

  /** A file ".fsutil-metadata" and a file "a", both accepted. */
  const METADATA_FIRST: seq<M.Received> :=
    [M.Received(Entry(METADATA_PATH, EMPTY_STAT), true), M.Received(Entry(NAME_A, EMPTY_STAT), true)]

  /** The receiver asks for "a" under the id by which the sender knows the other file. */
  lemma {:induction false} OtherFileAsked(received: map<Str, nat>, sent: map<nat, Str>)
    requires ReceiverMap(METADATA_FIRST, received) && SenderMap(EntriesOf(METADATA_FIRST), sent)
    ensures NAME_A in received && received[NAME_A] in sent && sent[received[NAME_A]] == METADATA_PATH
  {
    var s := METADATA_FIRST;
    assert NAME_A[0] != METADATA_PATH[0];
    assert CanRequestData(EMPTY_STAT);
    assert Registered(s, 1);
    assert Uncounted(s, 1) == 1;
    assert EntriesOf(s)[0].path == METADATA_PATH && EntriesOf(s)[0].stat == EMPTY_STAT;
  }
}
