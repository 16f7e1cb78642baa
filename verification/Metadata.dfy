/** The metadata-only replay: which entries of the stream the receiver hands to the walker. */
module MetadataReplay {
  import opened Bytes
  import opened Paths
  import opened Stats
  import opened Disk

  /** A received entry and whether the metadata filter accepts it. */
  datatype Received = Received(entry: Entry, accepted: bool)

  /** A tree stream: increasing paths, proper ones or ".", every ancestor an earlier directory. */
  ghost predicate TreeStream(s: seq<Received>)
  {
    && (forall i :: 0 <= i < |s| ==> Acceptable(s[i].entry.path))
    && (forall i, j :: 0 <= i < j < |s| ==> Before(s[i].entry.path, s[j].entry.path))
    && (forall i, a :: 0 <= i < |s| && Under(s[i].entry.path, a) ==> exists j: nat :: DirAt(s, j, a) && j < i)
  }

  /** A tree stream without ".". */
  ghost predicate ProperStream(s: seq<Received>)
  {
    TreeStream(s) && forall i :: 0 <= i < |s| ==> Normal(s[i].entry.path)
  }

  ghost predicate DirAt(s: seq<Received>, j: nat, a: Str)
  {
    j < |s| && s[j].entry.path == a && IsDir(s[j].entry.stat)
  }

  /** Entry k is above entry j. A directory "." counts as above whatever follows it: it is what
      filepath.Dir gives for a top-level path. */
  predicate Above(s: seq<Received>, k: nat, j: nat)
    requires k < |s| && j < |s|
  {
    || Under(s[j].entry.path, s[k].entry.path)
    || (k < j && s[k].entry.path == CURRENT && IsDir(s[k].entry.stat))
  }

  /** Entry k lies on the way to entry j, or is it. */
  predicate LeadsTo(s: seq<Received>, k: nat, j: nat)
    requires k < |s| && j < |s|
  {
    k == j || Above(s, k, j)
  }

  // ---------------------------------------------------------------- reference

  /** Among the first n entries, k is accepted or leads to an accepted one. */
  ghost predicate Needed(s: seq<Received>, n: nat, k: nat)
    requires k < |s| && n <= |s|
  {
    exists j :: 0 <= j < n && s[j].accepted && LeadsTo(s, k, j)
  }

  /** An accepted directory is pushed, replayed and then sent again. */
  ghost function Copies(s: seq<Received>, n: nat, k: nat): seq<Entry>
    requires k < |s| && n <= |s|
  {
    if !Needed(s, n, k) then []
    else if s[k].accepted && IsDir(s[k].entry.stat) then [s[k].entry, s[k].entry]
    else [s[k].entry]
  }

  /** The copies of entries 0, ..., m - 1, in order. */
  ghost function Forwarded(s: seq<Received>, n: nat, m: nat): seq<Entry>
    requires m <= |s| && n <= |s|
  {
    if m == 0 then [] else Forwarded(s, n, m - 1) + Copies(s, n, m - 1)
  }

  // ---------------------------------------------------------------- the stack

  /** Directory k, not yet forwarded, leads to entry j. */
  ghost predicate Pending(s: seq<Received>, n: nat, j: nat, k: nat)
    requires n <= |s| && j < |s|
  {
    k < |s| && IsDir(s[k].entry.stat) && !Needed(s, n, k) && LeadsTo(s, k, j)
  }

  /** The stack holds, in order, the directories below limit that are pending for entry j. */
  ghost predicate Holds(s: seq<Received>, n: nat, j: nat, limit: nat, idx: seq<nat>)
    requires n <= |s| && j < |s|
  {
    && (forall a, b :: 0 <= a < b < |idx| ==> idx[a] < idx[b])
    && (forall k: nat :: k in idx <==> k < limit && Pending(s, n, j, k))
  }

  function EntriesAt(s: seq<Received>, idx: seq<nat>): (r: seq<Entry>)
    requires forall a :: 0 <= a < |idx| ==> idx[a] < |s|
    ensures |r| == |idx|
  {
    seq(|idx|, a requires 0 <= a < |idx| => s[idx[a]].entry)
  }

  // ---------------------------------------------------------------- order facts

  /** What lies between a directory and something below it is below it too. */
  lemma Between(s: seq<Received>, k: nat, m: nat, j: nat)
    requires TreeStream(s) && k < m <= j < |s| && LeadsTo(s, k, j)
    ensures LeadsTo(s, k, m)
  {
    var p, q, r := s[k].entry.path, s[m].entry.path, s[j].entry.path;
    if m < j && Under(r, p) { DescendantsContiguous(p, q, r); }
  }

  lemma Transitive(s: seq<Received>, a: nat, b: nat, c: nat)
    requires TreeStream(s) && a < |s| && b < |s| && c < |s| && LeadsTo(s, a, b) && LeadsTo(s, b, c)
    ensures LeadsTo(s, a, c)
  {
    LeadsBefore(s, a, b);
    LeadsBefore(s, b, c);
    if a != b && b != c {
      NothingAboveCurrent(s[a].entry.path);
      if Under(s[b].entry.path, s[a].entry.path) && Under(s[c].entry.path, s[b].entry.path) {
        UnderTransitive(s[c].entry.path, s[b].entry.path, s[a].entry.path);
      }
    }
  }

  /** Whatever leads to something needed is needed. */
  lemma NeededUp(s: seq<Received>, n: nat, a: nat, b: nat)
    requires TreeStream(s) && n <= |s| && a < |s| && b < |s| && LeadsTo(s, a, b) && Needed(s, n, b)
    ensures Needed(s, n, a)
  {
    var j :| 0 <= j < n && s[j].accepted && LeadsTo(s, b, j);
    Transitive(s, a, b, j);
  }

  /** Behind a directory that is still pending nothing has been forwarded. */
  lemma NothingBehind(s: seq<Received>, n: nat, k: nat, m: nat)
    requires TreeStream(s) && k < m < n < |s| && LeadsTo(s, k, n) && !Needed(s, n, k)
    ensures !Needed(s, n, m)
  {
    Between(s, k, m, n);
    if Needed(s, n, m) { NeededUp(s, n, k, m); }
  }

  lemma LeadsBefore(s: seq<Received>, k: nat, j: nat)
    requires TreeStream(s) && k < |s| && j < |s| && LeadsTo(s, k, j)
    ensures k <= j
  {
    if j < k {
      PrefixBefore(s[k].entry.path, s[j].entry.path);
      BeforeTotal(s[j].entry.path, s[k].entry.path);
    }
  }

  /** Without "." what is above an entry is an ancestor. */
  lemma ProperAbove(s: seq<Received>, k: nat, j: nat)
    requires ProperStream(s) && k < |s| && j < |s|
    ensures LeadsTo(s, k, j) <==> k == j || Under(s[j].entry.path, s[k].entry.path)
  {
    NotNormal(CURRENT, CURRENT);
  }

  // ---------------------------------------------------------------- one entry

  /** In the middle of popping for entry i: what is on the stack was pending for the entry before,
      and whatever is pending for entry i is still there. */
  ghost predicate Popping(s: seq<Received>, i: nat, idx: seq<nat>)
    requires i < |s|
  {
    && (forall a, b :: 0 <= a < b < |idx| ==> idx[a] < idx[b])
    && (forall k: nat :: k in idx ==> 0 < i && k < i && Pending(s, i, i - 1, k))
    && (forall k: nat :: k < i && Pending(s, i, i, k) ==> k in idx)
  }

  /** Only a proper path has something above it. */
  lemma ProperBelow(s: seq<Received>, t: nat, i: nat)
    requires TreeStream(s) && t < i < |s| && LeadsTo(s, t, i)
    ensures Normal(s[i].entry.path)
  {
    NothingAboveCurrent(s[t].entry.path);
    BeforeTotal(CURRENT, CURRENT);
  }

  /** A directory before "." stays behind once "." has come. */
  lemma ParentAfterCurrent(s: seq<Received>, i: nat, t: nat, m: nat)
    requires TreeStream(s) && t < i < |s| && m < i && s[t].entry.path == CURRENT
    requires Under(s[i].entry.path, s[m].entry.path) && s[m].entry.path != CURRENT
    ensures t < m
  {
    if m < t {
      DescendantsContiguous(s[m].entry.path, CURRENT, s[i].entry.path);
      NothingAboveCurrent(s[m].entry.path);
    }
  }

  /** The parent of entry i is an earlier directory, below every other ancestor. */
  lemma ParentEntry(s: seq<Received>, i: nat, t: nat) returns (m: nat)
    requires TreeStream(s) && t < i < |s| && LeadsTo(s, t, i) && s[t].entry.path != Dir(s[i].entry.path)
    ensures t < m < i && IsDir(s[m].entry.stat) && LeadsTo(s, t, m) && LeadsTo(s, m, i)
  {
    hide Normal, Dir, Clean, Split;
    var e, a := s[i].entry.path, s[t].entry.path;
    ProperBelow(s, t, i);
    NormalDir(e);
    if Under(e, a) {
      AncestorOfParent(e, a);
      HasSep(e, a);
    }
    SplitParent(e);
    assert e == Parent(e) + [SEP] + Name(e);
    assert Under(e, Parent(e));
    m :| DirAt(s, m, Parent(e)) && m < i;
    if Under(e, a) {
      LeadsBefore(s, t, m);
    } else {
      ParentAfterCurrent(s, i, t, m);
    }
  }

  /** What is popped does not lead to the new entry. */
  lemma PoppedIsNotPending(s: seq<Received>, i: nat, idx: seq<nat>)
    requires TreeStream(s) && i < |s| && Popping(s, i, idx) && idx != []
    requires idx[|idx| - 1] < i && s[idx[|idx| - 1]].entry.path != Dir(s[i].entry.path)
    ensures !Pending(s, i, i, idx[|idx| - 1])
  {
    hide TreeStream, LeadsTo, Needed, Dir;
    var t := idx[|idx| - 1];
    if Pending(s, i, i, t) {
      var m := ParentEntry(s, i, t);
      if Needed(s, i, m) { NeededUp(s, i, t, m); }
      assert Pending(s, i, i, m);
      var a :| 0 <= a < |idx| && idx[a] == m;
    }
  }

  lemma PopStep(s: seq<Received>, i: nat, idx: seq<nat>)
    requires TreeStream(s) && i < |s| && Popping(s, i, idx) && idx != []
    requires idx[|idx| - 1] < |s| && s[idx[|idx| - 1]].entry.path != Dir(s[i].entry.path)
    ensures Popping(s, i, idx[..|idx| - 1])
  {
    hide TreeStream, Pending, Dir;
    var t := idx[|idx| - 1];
    assert t in idx;
    PoppedIsNotPending(s, i, idx);
    var r := idx[..|idx| - 1];
    assert idx == r + [t];
    assert forall k: nat :: k in idx <==> k in r || k == t;
  }

  lemma HasSep(p: Str, a: Str)
    requires Under(p, a)
    ensures LastSep(p) >= 0
  {
    LastSepSplits(p);
    assert p[|a|] == SEP;
  }

  /** With the parent on top, or the stack empty, it holds what is pending for the new entry. */
  lemma Settle(s: seq<Received>, i: nat, idx: seq<nat>)
    requires TreeStream(s) && i < |s| && Popping(s, i, idx)
    requires idx != [] ==> idx[|idx| - 1] < |s| && s[idx[|idx| - 1]].entry.path == Dir(s[i].entry.path)
    ensures Holds(s, i, i, i, idx)
  {
    hide TreeStream, Needed, Dir;
    if idx != [] {
      var t := idx[|idx| - 1];
      assert t in idx;
      ParentLeads(s, i, t);
      forall k: nat | k in idx ensures Pending(s, i, i, k) {
        if k < t { Between(s, k, t, i - 1); }
        Transitive(s, k, t, i);
      }
    }
  }

  lemma ParentLeads(s: seq<Received>, i: nat, t: nat)
    requires TreeStream(s) && t < i < |s| && s[t].entry.path == Dir(s[i].entry.path) && IsDir(s[t].entry.stat)
    ensures LeadsTo(s, t, i)
  {
    var e := s[i].entry.path;
    OneComponent(CURRENT);
    if e != CURRENT {
      NormalDir(e);
      SplitParent(e);
    } else {
      BeforeTotal(CURRENT, CURRENT);
    }
  }

  /** Among the entries before i only i itself can settle a need of its own. */
  lemma NewIsUnneeded(s: seq<Received>, i: nat)
    requires TreeStream(s) && i < |s|
    ensures !Needed(s, i, i)
  {
    if Needed(s, i, i) {
      var j :| 0 <= j < i && s[j].accepted && LeadsTo(s, i, j);
      LeadsBefore(s, i, j);
    }
  }

  lemma PushStep(s: seq<Received>, i: nat, idx: seq<nat>)
    requires TreeStream(s) && i < |s| && Holds(s, i, i, i, idx)
    ensures Holds(s, i, i, i + 1, if IsDir(s[i].entry.stat) then idx + [i] else idx)
  {
    NewIsUnneeded(s, i);
    var r := if IsDir(s[i].entry.stat) then idx + [i] else idx;
    forall a, b | 0 <= a < b < |r| ensures r[a] < r[b] {
      if b == |idx| { assert r[a] in idx; }
    }
    forall k: nat ensures k in r <==> k < i + 1 && Pending(s, i, i, k) {
      assert k in idx <==> k < i && Pending(s, i, i, k);
      if IsDir(s[i].entry.stat) { assert (idx + [i])[|idx|] == i; }
    }
  }

  /** An entry that is not accepted changes no need. */
  lemma SkipStep(s: seq<Received>, i: nat, idx: seq<nat>)
    requires TreeStream(s) && i < |s| && !s[i].accepted && Holds(s, i, i, i + 1, idx)
    ensures Holds(s, i + 1, i, i + 1, idx)
    ensures Forwarded(s, i + 1, i + 1) == Forwarded(s, i, i)
  {
    hide TreeStream, Needed, LeadsTo;
    forall k: nat | k < |s| ensures Needed(s, i + 1, k) == Needed(s, i, k) { StillNeeded(s, i, k); }
    forall k: nat ensures k in idx <==> k < i + 1 && Pending(s, i + 1, i, k) {
      assert k in idx <==> k < i + 1 && Pending(s, i, i, k);
    }
    NewIsUnneeded(s, i);
    SameForwarded(s, i, i + 1, i);
    assert Copies(s, i + 1, i) == [];
  }

  lemma {:induction false} SameForwarded(s: seq<Received>, a: nat, b: nat, m: nat)
    requires a <= |s| && b <= |s| && m <= |s|
    requires forall k: nat :: k < m ==> Needed(s, a, k) == Needed(s, b, k)
    ensures Forwarded(s, a, m) == Forwarded(s, b, m)
  {
    if m > 0 { SameForwarded(s, a, b, m - 1); }
  }

  /** What is above an entry is a directory. */
  lemma AncestorIsDir(s: seq<Received>, k: nat, i: nat)
    requires TreeStream(s) && k < i < |s| && LeadsTo(s, k, i)
    ensures IsDir(s[k].entry.stat)
  {
    if Under(s[i].entry.path, s[k].entry.path) {
      var j: nat :| DirAt(s, j, s[k].entry.path) && j < i;
      if j != k { BeforeTotal(s[j].entry.path, s[k].entry.path); }
    }
  }

  lemma StillNeeded(s: seq<Received>, i: nat, k: nat)
    requires i < |s| && k < |s|
    ensures Needed(s, i, k) ==> Needed(s, i + 1, k)
    ensures s[i].accepted && LeadsTo(s, k, i) ==> Needed(s, i + 1, k)
    ensures Needed(s, i + 1, k) && !Needed(s, i, k) ==> s[i].accepted && LeadsTo(s, k, i)
  {
    if Needed(s, i, k) {
      var j :| 0 <= j < i && s[j].accepted && LeadsTo(s, k, j);
      assert s[j].accepted;
    }
  }

  lemma AcceptPending(s: seq<Received>, i: nat, k: nat)
    requires k < i < |s| && s[i].accepted && Pending(s, i, i, k)
    ensures Copies(s, i, k) == [] && Copies(s, i + 1, k) == [s[k].entry]
  {
    StillNeeded(s, i, k);
    if s[k].accepted { assert LeadsTo(s, k, k); }
  }

  lemma AcceptOther(s: seq<Received>, i: nat, k: nat)
    requires TreeStream(s) && k < i < |s| && !Pending(s, i, i, k)
    ensures Copies(s, i + 1, k) == Copies(s, i, k)
  {
    hide TreeStream;
    StillNeeded(s, i, k);
    if LeadsTo(s, k, i) { AncestorIsDir(s, k, i); }
  }

  lemma NoneBefore(s: seq<Received>, i: nat, k: nat, idx: seq<nat>)
    requires TreeStream(s) && k < i < |s| && Holds(s, i, i, k, idx) && idx != []
    ensures Copies(s, i, k) == []
  {
    assert idx[0] in idx;
    NothingBehind(s, i, idx[0], k);
  }

  /** An accepted entry makes needed exactly what is pending, and that comes last. */
  lemma {:induction false} AcceptStep(s: seq<Received>, i: nat, m: nat, idx: seq<nat>)
    requires TreeStream(s) && m <= i < |s| && s[i].accepted && Holds(s, i, i, m, idx)
    requires forall a :: 0 <= a < |idx| ==> idx[a] < |s|
    ensures Forwarded(s, i + 1, m) == Forwarded(s, i, m) + EntriesAt(s, idx)
    decreases m
  {
    hide TreeStream, Copies, Pending;
    if m > 0 {
      var k := m - 1;
      if k in idx {
        LastOf(s, i, m, idx);
        var r := idx[..|idx| - 1];
        AcceptStep(s, i, k, r);
        AcceptPending(s, i, k);
        assert EntriesAt(s, idx) == EntriesAt(s, r) + [s[k].entry];
      } else {
        assert Holds(s, i, i, k, idx);
        AcceptStep(s, i, k, idx);
        AcceptOther(s, i, k);
        if idx != [] { NoneBefore(s, i, k, idx); } else { assert EntriesAt(s, idx) == []; }
      }
    } else {
      NothingHeld(s, i, idx);
    }
  }

  lemma NothingHeld(s: seq<Received>, i: nat, idx: seq<nat>)
    requires i < |s| && Holds(s, i, i, 0, idx)
    ensures idx == []
  {
    if idx != [] { HeadIn(idx); }
  }

  lemma HeadIn<T>(q: seq<T>)
    requires q != []
    ensures q[0] in q
  { }

  lemma LastOf(s: seq<Received>, i: nat, m: nat, idx: seq<nat>)
    requires i < |s| && 0 < m <= i && Holds(s, i, i, m, idx) && m - 1 in idx
    ensures idx != [] && idx[|idx| - 1] == m - 1 && Holds(s, i, i, m - 1, idx[..|idx| - 1])
  {
    var last := idx[|idx| - 1];
    assert last in idx;
    var r := idx[..|idx| - 1];
    assert idx == r + [last];
    forall k: nat ensures k in r <==> k < m - 1 && Pending(s, i, i, k) {
      assert k in idx <==> k < m && Pending(s, i, i, k);
      if k in r {
        var a :| 0 <= a < |r| && r[a] == k;
        assert idx[a] < idx[|idx| - 1];
      }
    }
  }

  // ---------------------------------------------------------------- the loop

  /** Pops until the parent of entry i is on top. */
  method PopTo(s: seq<Received>, i: nat, parent: Str, parents: seq<Entry>, ghost idx: seq<nat>)
    returns (parents': seq<Entry>, ghost idx': seq<nat>)
    requires TreeStream(s) && i < |s| && parent == Dir(s[i].entry.path)
    requires (forall a :: 0 <= a < |idx| ==> idx[a] < |s|) && parents == EntriesAt(s, idx) && Popping(s, i, idx)
    ensures (forall a :: 0 <= a < |idx'| ==> idx'[a] < |s|) && parents' == EntriesAt(s, idx') && Popping(s, i, idx')
    ensures parents' != [] ==> parents'[|parents'| - 1].path == parent
  {
    hide TreeStream, Dir, Popping;
    parents', idx' := parents, idx;
    while parents' != [] && parents'[|parents'| - 1].path != parent
      invariant (forall a :: 0 <= a < |idx'| ==> idx'[a] < |s|) && parents' == EntriesAt(s, idx')
      invariant Popping(s, i, idx')
      decreases |parents'|
    {
      PopStep(s, i, idx');
      parents', idx' := parents'[..|parents'| - 1], idx'[..|idx'| - 1];
    }
  }

  /** The receiver's loop over STAT packets in metadata mode. */
  method Replay(s: seq<Received>) returns (out: seq<Entry>)
    requires TreeStream(s)
    ensures out == Forwarded(s, |s|, |s|)
  {
    hide TreeStream, Pending, Forwarded, Dir, Normal, Holds, Popping, LeadsTo, Needed, Copies, IsDir;
    var parents: seq<Entry> := [];
    ghost var idx: seq<nat> := [];
    out := [];
    ForwardedNothing(s);
    for i := 0 to |s|
      invariant (forall a :: 0 <= a < |idx| ==> idx[a] < |s|) && parents == EntriesAt(s, idx)
      invariant if i == 0 then idx == [] else Holds(s, i, i - 1, i, idx)
      invariant out == Forwarded(s, i, i)
    {
      var cp := s[i].entry;
      var parent := Dir(cp.path);
      EarlierPending(s, i, idx);
      parents, idx := PopTo(s, i, parent, parents, idx);
      Settle(s, i, idx);
      ghost var pending := idx;
      PushStep(s, i, idx);
      if IsDir(cp.stat) {
        parents := parents + [cp];
        idx := idx + [i];
      }
      if !s[i].accepted {
        SkipStep(s, i, idx);
      } else {
        AcceptStep(s, i, i, pending);
        LastCopy(s, i);
        out := out + parents;
        parents, idx := [], [];
        NonePending(s, i);
        out := out + [cp];
      }
    }
  }

  lemma ForwardedNothing(s: seq<Received>)
    ensures Forwarded(s, 0, 0) == []
  { }

  /** Nothing pending for the new entry is missing from the stack. */
  lemma EarlierPending(s: seq<Received>, i: nat, idx: seq<nat>)
    requires TreeStream(s) && i < |s| && if i == 0 then idx == [] else Holds(s, i, i - 1, i, idx)
    ensures Popping(s, i, idx)
  {
    hide TreeStream, Needed, Above;
    forall k: nat | k < i && Pending(s, i, i, k) ensures k in idx {
      if k < i - 1 { Between(s, k, i - 1, i); }
    }
  }

  /** The accepted entry itself, once more after the stack if it is a directory. */
  lemma LastCopy(s: seq<Received>, i: nat)
    requires i < |s| && s[i].accepted
    ensures (Forwarded(s, i + 1, i + 1)
             == Forwarded(s, i + 1, i) + (if IsDir(s[i].entry.stat) then [s[i].entry] else []) + [s[i].entry])
  {
    assert LeadsTo(s, i, i);
    assert Needed(s, i + 1, i);
  }

  lemma NonePending(s: seq<Received>, i: nat)
    requires i < |s| && s[i].accepted
    ensures Holds(s, i + 1, i, i + 1, [])
  {
    forall k: nat | k < |s| && LeadsTo(s, k, i) ensures Needed(s, i + 1, k) { StillNeeded(s, i, k); }
  }
}
