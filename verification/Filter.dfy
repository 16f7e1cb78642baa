/** The filtered walk: a stack of visited directories delays parents until something below them is
    selected, and whole directories are skipped where no pattern can match inside. */
module Filtering {
  import opened Bytes
  import opened Paths
  import opened Stats
  import opened Patterns
  import M = MetadataReplay

  /** Empty pattern lists stand for absent matchers. */
  datatype FilterFS = FilterFS(includes: seq<Pattern>, excludes: seq<Pattern>,
                               onlyPrefixIncludes: bool, onlyPrefixExcludeExceptions: bool)

  /** Whether every pattern of the given polarity is free of wildcards once trimmed. */
  method OnlyPrefixes(ps: seq<Pattern>, exclusion: bool) returns (only: bool)
    ensures only <==> forall p :: p in ps && p.exclusion == exclusion ==> !HasSpecial(WithoutTrailingGlob(p))
  {
    only := true;
    for i := 0 to |ps|
      invariant only
      invariant forall p :: p in ps[..i] && p.exclusion == exclusion ==> !HasSpecial(WithoutTrailingGlob(p))
    {
      assert ps[..i + 1] == ps[..i] + [ps[i]];
      if ps[i].exclusion == exclusion && HasSpecial(WithoutTrailingGlob(ps[i])) {
        assert ps[i] in ps;
        return false;
      }
    }
    assert ps[..|ps|] == ps;
  }

  ghost predicate WellFlagged(f: FilterFS)
  {
    && (f.onlyPrefixIncludes <==>
          forall p :: p in f.includes && !p.exclusion ==> !HasSpecial(WithoutTrailingGlob(p)))
    && (f.onlyPrefixExcludeExceptions <==>
          forall p :: p in f.excludes && p.exclusion ==> !HasSpecial(WithoutTrailingGlob(p)))
  }

  method NewFilterFS(includes: seq<Pattern>, excludes: seq<Pattern>) returns (f: FilterFS)
    ensures f.includes == includes && f.excludes == excludes && WellFlagged(f)
  {
    var inc := OnlyPrefixes(includes, false);
    var exc := OnlyPrefixes(excludes, true);
    f := FilterFS(includes, excludes, inc, exc);
  }

  // ---------------------------------------------------------------- reference

  /** The path passes both matchers. */
  predicate Wants(f: FilterFS, path: Str)
  {
    && (f.includes != [] ==> Selects(f.includes, path))
    && (f.excludes != [] ==> !Selects(f.excludes, path))
  }

  predicate AnyMayReach(ps: seq<Pattern>, exclusion: bool, dir: Str)
  {
    exists i :: 0 <= i < |ps| && ps[i].exclusion == exclusion && MayReach(ps[i], dir)
  }

  /** The walk does not enter the directory. */
  predicate Prunes(f: FilterFS, dir: Str)
  {
    || (f.includes != [] && f.onlyPrefixIncludes && !Selects(f.includes, dir) && !AnyMayReach(f.includes, false, dir))
    || (f.excludes != [] && f.onlyPrefixExcludeExceptions && Selects(f.excludes, dir)
        && !AnyMayReach(f.excludes, true, dir))
  }

  predicate Hides(f: FilterFS, s: seq<Entry>, j: nat, k: nat)
    requires k < |s|
  {
    j < |s| && Under(s[k].path, s[j].path) && IsDir(s[j].stat) && Prunes(f, s[j].path)
  }

  /** The entry lies below a directory the walk does not enter. */
  ghost predicate Hidden(f: FilterFS, s: seq<Entry>, k: nat)
    requires k < |s|
  {
    exists j: nat :: Hides(f, s, j, k)
  }

  /** The walk with the selected entries marked. */
  ghost function Marked(f: FilterFS, s: seq<Entry>): seq<M.Received>
  {
    seq(|s|, k requires 0 <= k < |s| => M.Received(s[k], Wants(f, s[k].path) && !Hidden(f, s, k)))
  }

  /** The walk with pruning switched off. */
  function AllMarked(f: FilterFS, s: seq<Entry>): seq<M.Received>
  {
    seq(|s|, k requires 0 <= k < |s| => M.Received(s[k], Wants(f, s[k].path)))
  }

  /** The needed ones among the first m entries, once each: the selected ones and the directories above them. */
  ghost function Emitted(r: seq<M.Received>, n: nat, m: nat): seq<Entry>
    requires n <= |r| && m <= |r|
  {
    if m == 0 then [] else Emitted(r, n, m - 1) + if M.Needed(r, n, m - 1) then [r[m - 1].entry] else []
  }

  // ---------------------------------------------------------------- the stack of visited directories

  datatype VisitedDir = VisitedDir(entry: Entry, pathWithSep: Str, calledFn: bool)

  /** The stack holds every visited directory above entry i, outermost first, nested. */
  ghost predicate Stacked(f: FilterFS, r: seq<M.Received>, i: nat, idx: seq<nat>)
  {
    && (forall k: nat :: k in idx ==> k < i && k < |r| && IsDir(r[k].entry.stat) && !Prunes(f, r[k].entry.path))
    && (forall a, b :: 0 <= a < b < |idx| ==> idx[a] < idx[b] < |r| && M.LeadsTo(r, idx[a], idx[b]))
    && (i < |r| ==> forall k: nat :: k < i && M.LeadsTo(r, k, i) ==> k in idx)
  }

  ghost predicate Mirrors(r: seq<M.Received>, n: nat, idx: seq<nat>, parents: seq<VisitedDir>)
    requires n <= |r|
  {
    && |idx| == |parents|
    && forall a :: 0 <= a < |idx| ==>
         && idx[a] < |r| && parents[a].entry == r[idx[a]].entry
         && parents[a].pathWithSep == r[idx[a]].entry.path + [SEP]
         && (parents[a].calledFn <==> M.Needed(r, n, idx[a]))
  }

  lemma PopVisited(f: FilterFS, r: seq<M.Received>, i: nat, idx: seq<nat>)
    requires M.ProperStream(r) && Stacked(f, r, i, idx) && i < |r| && idx != [] && idx[|idx| - 1] < |r|
    requires !Under(r[i].entry.path, r[idx[|idx| - 1]].entry.path)
    ensures Stacked(f, r, i, idx[..|idx| - 1])
  {
    var t := idx[|idx| - 1];
    var rest := idx[..|idx| - 1];
    assert idx == rest + [t];
    assert forall k: nat :: k in idx <==> k in rest || k == t;
    assert t in idx;
    M.ProperAbove(r, t, i);
  }

  /** With the top above entry i the whole stack is. */
  lemma AllLead(f: FilterFS, r: seq<M.Received>, i: nat, idx: seq<nat>)
    requires M.ProperStream(r) && Stacked(f, r, i, idx) && i < |r|
    requires idx != [] ==> idx[|idx| - 1] < |r| && Under(r[i].entry.path, r[idx[|idx| - 1]].entry.path)
    ensures forall k: nat :: k in idx ==> k < |r| && M.LeadsTo(r, k, i)
  {
    forall k: nat | k in idx ensures k < |r| && M.LeadsTo(r, k, i) {
      var t := idx[|idx| - 1];
      var a :| 0 <= a < |idx| && idx[a] == k;
      if a < |idx| - 1 { M.Transitive(r, k, t, i); }
    }
  }

  /** The next entry after one that is not pruned. */
  lemma Advance(f: FilterFS, r: seq<M.Received>, i: nat, idx: seq<nat>)
    requires M.ProperStream(r) && Stacked(f, r, i, idx) && i < |r|
    requires forall k: nat :: k in idx ==> k < |r| && M.LeadsTo(r, k, i)
    ensures IsDir(r[i].entry.stat) && !Prunes(f, r[i].entry.path) ==> Stacked(f, r, i + 1, idx + [i])
    ensures !IsDir(r[i].entry.stat) ==> Stacked(f, r, i + 1, idx)
  {
    hide M.TreeStream, Prunes, Under;
    var more := idx + [i];
    assert forall k: nat :: k in more <==> k in idx || k == i;
    assert forall a :: 0 <= a < |idx| ==> idx[a] in idx;
    if i + 1 < |r| {
      forall k: nat | k <= i && M.LeadsTo(r, k, i + 1) ensures k in idx || (k == i && IsDir(r[i].entry.stat)) {
        M.AncestorIsDir(r, k, i + 1);
        if k < i { M.Between(r, k, i, i + 1); }
      }
    }
  }

  /** The next entry after everything below a pruned directory. */
  lemma SkipOver(f: FilterFS, r: seq<M.Received>, i: nat, idx: seq<nat>, n: nat)
    requires M.ProperStream(r) && Stacked(f, r, i, idx) && i < n <= |r|
    requires forall k: nat :: i < k < n ==> M.LeadsTo(r, i, k)
    requires n < |r| ==> !M.LeadsTo(r, i, n)
    ensures Stacked(f, r, n, idx)
  {
    if n < |r| {
      forall k: nat | k < n && M.LeadsTo(r, k, n) ensures k in idx {
        if k < i { M.Between(r, k, i, n); } else if k > i { M.Transitive(r, i, k, n); }
      }
    }
  }

  /** What is visited is not hidden; what is skipped is. */
  lemma VisitedIsNotHidden(f: FilterFS, s: seq<Entry>, i: nat, idx: seq<nat>)
    requires M.ProperStream(Marked(f, s)) && i < |s| && Stacked(f, Marked(f, s), i, idx)
    ensures !Hidden(f, s, i)
  {
    var r := Marked(f, s);
    if Hidden(f, s, i) {
      var j: nat :| Hides(f, s, j, i);
      assert M.LeadsTo(r, j, i);
      M.LeadsBefore(r, j, i);
    }
  }

  // ---------------------------------------------------------------- emitting

  /** The entries on the stack that have not been reported, in order. */
  function Uncalled(parents: seq<VisitedDir>): seq<Entry>
  {
    if parents == [] then []
    else
      var last := parents[|parents| - 1];
      Uncalled(parents[..|parents| - 1]) + if last.calledFn then [] else [last.entry]
  }

  ghost function UnneededOf(r: seq<M.Received>, n: nat, idx: seq<nat>): seq<nat>
    requires n <= |r| && forall a :: 0 <= a < |idx| ==> idx[a] < |r|
  {
    if idx == [] then []
    else
      var last := idx[|idx| - 1];
      UnneededOf(r, n, idx[..|idx| - 1]) + if M.Needed(r, n, last) then [] else [last]
  }

  lemma {:induction false} UnneededMember(r: seq<M.Received>, n: nat, idx: seq<nat>, k: nat)
    requires n <= |r| && (forall a :: 0 <= a < |idx| ==> idx[a] < |r|)
    ensures k in UnneededOf(r, n, idx) <==> k in idx && k < |r| && !M.Needed(r, n, k)
  {
    hide M.Needed;
    if idx != [] {
      var rest, last := idx[..|idx| - 1], idx[|idx| - 1];
      UnneededMember(r, n, rest, k);
      assert idx == rest + [last];
    }
  }

  lemma {:induction false} UnneededSorted(r: seq<M.Received>, n: nat, idx: seq<nat>)
    requires n <= |r| && (forall a :: 0 <= a < |idx| ==> idx[a] < |r|)
    requires forall a, b :: 0 <= a < b < |idx| ==> idx[a] < idx[b]
    ensures (var u := UnneededOf(r, n, idx); forall a, b :: 0 <= a < b < |u| ==> u[a] < u[b])
  {
    hide M.Needed;
    if idx != [] {
      var rest, last := idx[..|idx| - 1], idx[|idx| - 1];
      UnneededSorted(r, n, rest);
      var u, all := UnneededOf(r, n, rest), UnneededOf(r, n, idx);
      forall a | 0 <= a < |u| ensures u[a] < last {
        UnneededMember(r, n, rest, u[a]);
      }
      forall a, b | 0 <= a < b < |all| ensures all[a] < all[b] {
        assert all[a] == u[a];
        if b < |u| { assert all[b] == u[b]; } else { assert all[b] == last; }
      }
    }
  }

  lemma {:induction false} UncalledAreUnneeded(r: seq<M.Received>, n: nat, idx: seq<nat>, parents: seq<VisitedDir>)
    requires n <= |r| && (forall a :: 0 <= a < |idx| ==> idx[a] < |r|) && Mirrors(r, n, idx, parents)
    ensures (var u := UnneededOf(r, n, idx);
             (forall a :: 0 <= a < |u| ==> u[a] < |r|) && M.EntriesAt(r, u) == Uncalled(parents))
  {
    hide M.Needed;
    if idx != [] {
      var k := |idx| - 1;
      UncalledAreUnneeded(r, n, idx[..k], parents[..k]);
    }
  }

  /** The stack's unreported directories are exactly what the new entry makes needed. */
  lemma StackIsPending(f: FilterFS, r: seq<M.Received>, i: nat, idx: seq<nat>)
    requires M.ProperStream(r) && i < |r| && Stacked(f, r, i, idx)
    requires forall k: nat :: k in idx ==> k < |r| && M.LeadsTo(r, k, i)
    ensures (forall a :: 0 <= a < |idx| ==> idx[a] < |r|) && M.Holds(r, i, i, i, UnneededOf(r, i, idx))
  {
    hide M.Needed, M.TreeStream;
    assert forall a :: 0 <= a < |idx| ==> idx[a] in idx;
    UnneededSorted(r, i, idx);
    var u := UnneededOf(r, i, idx);
    forall k: nat ensures k in u <==> k < i && M.Pending(r, i, i, k) {
      UnneededMember(r, i, idx, k);
      if k < i && M.Pending(r, i, i, k) { assert M.LeadsTo(r, k, i); }
    }
  }

  /** Without matchers every entry is reported at once, so nothing is ever pending. */
  lemma NothingPending(r: seq<M.Received>, i: nat)
    requires i < |r| && forall k :: 0 <= k < |r| ==> r[k].accepted
    ensures M.Holds(r, i, i, i, [])
  {
    forall k: nat | k < i ensures M.Needed(r, i, k) {
      assert r[k].accepted && M.LeadsTo(r, k, k);
    }
  }

  lemma EmitOther(r: seq<M.Received>, i: nat, k: nat)
    requires M.ProperStream(r) && k < i < |r| && !M.Pending(r, i, i, k)
    ensures M.Needed(r, i + 1, k) == M.Needed(r, i, k)
  {
    hide M.TreeStream;
    M.StillNeeded(r, i, k);
    if M.LeadsTo(r, k, i) { M.AncestorIsDir(r, k, i); }
  }

  lemma EmitNone(r: seq<M.Received>, i: nat, k: nat, idx: seq<nat>)
    requires M.ProperStream(r) && k < i < |r| && M.Holds(r, i, i, k, idx) && idx != []
    ensures !M.Needed(r, i, k)
  {
    M.HeadIn(idx);
    M.NothingBehind(r, i, idx[0], k);
  }

  /** A selected entry adds what is pending, and that comes last. */
  lemma {:induction false} EmitPending(r: seq<M.Received>, i: nat, m: nat, idx: seq<nat>)
    requires M.ProperStream(r) && m <= i < |r| && r[i].accepted && M.Holds(r, i, i, m, idx)
    requires forall a :: 0 <= a < |idx| ==> idx[a] < |r|
    ensures Emitted(r, i + 1, m) == Emitted(r, i, m) + M.EntriesAt(r, idx)
    decreases m
  {
    hide M.TreeStream, M.Needed;
    if m > 0 {
      var k := m - 1;
      if k in idx {
        M.LastOf(r, i, m, idx);
        var rest := idx[..|idx| - 1];
        EmitPending(r, i, k, rest);
        M.StillNeeded(r, i, k);
        assert M.Pending(r, i, i, k);
        assert M.EntriesAt(r, idx) == M.EntriesAt(r, rest) + [r[k].entry];
      } else {
        assert M.Holds(r, i, i, k, idx);
        EmitPending(r, i, k, idx);
        EmitOther(r, i, k);
        if idx != [] { EmitNone(r, i, k, idx); } else { assert M.EntriesAt(r, idx) == []; }
      }
    } else {
      M.NothingHeld(r, i, idx);
    }
  }

  /** Reporting a selected entry after its unreported parents. */
  lemma EmitStep(r: seq<M.Received>, i: nat, idx: seq<nat>)
    requires M.ProperStream(r) && i < |r| && r[i].accepted && M.Holds(r, i, i, i, idx)
    requires forall a :: 0 <= a < |idx| ==> idx[a] < |r|
    ensures Emitted(r, i + 1, i + 1) == Emitted(r, i, i) + M.EntriesAt(r, idx) + [r[i].entry]
  {
    hide M.TreeStream;
    EmitPending(r, i, i, idx);
    M.StillNeeded(r, i, i);
    assert M.LeadsTo(r, i, i);
  }

  /** Entries that are not selected change nothing. */
  lemma {:induction false} EmitNothing(r: seq<M.Received>, i: nat, n: nat)
    requires M.ProperStream(r) && i <= n <= |r| && forall k :: i <= k < n ==> !r[k].accepted
    ensures Emitted(r, n, n) == Emitted(r, i, i)
    ensures forall k: nat :: k < |r| ==> M.Needed(r, n, k) == M.Needed(r, i, k)
    decreases n
  {
    hide M.TreeStream, M.Needed;
    if i < n {
      EmitNothing(r, i, n - 1);
      forall k: nat | k < |r| ensures M.Needed(r, n, k) == M.Needed(r, n - 1, k) {
        M.StillNeeded(r, n - 1, k);
      }
      M.NewIsUnneeded(r, n - 1);
      SameEmitted(r, n - 1, n, n - 1);
    }
  }

  lemma {:induction false} SameEmitted(r: seq<M.Received>, a: nat, b: nat, m: nat)
    requires a <= |r| && b <= |r| && m <= |r|
    requires forall k: nat :: k < m ==> M.Needed(r, a, k) == M.Needed(r, b, k)
    ensures Emitted(r, a, m) == Emitted(r, b, m)
  {
    if m > 0 { SameEmitted(r, a, b, m - 1); }
  }

  // ---------------------------------------------------------------- the walk

  lemma MarkedIsStream(f: FilterFS, s: seq<Entry>)
    requires M.ProperStream(AllMarked(f, s))
    ensures M.ProperStream(Marked(f, s))
  {
    var a, r := AllMarked(f, s), Marked(f, s);
    assert forall k :: 0 <= k < |s| ==> r[k].entry == a[k].entry;
    forall i, p | 0 <= i < |r| && Under(r[i].entry.path, p) ensures exists j: nat :: M.DirAt(r, j, p) && j < i {
      assert Under(a[i].entry.path, p);
      var j: nat :| M.DirAt(a, j, p) && j < i;
      assert M.DirAt(r, j, p);
    }
  }

  /** The two matchers on one path: whether it is passed over, and whether it is not even entered. */
  method Check(f: FilterFS, path: Str, isDir: bool) returns (skip: bool, skipDir: bool)
    ensures skipDir <==> isDir && Prunes(f, path)
    ensures !skipDir ==> (skip <==> !Wants(f, path))
    ensures skipDir ==> !Wants(f, path)
  {
    skip := false;
    if f.includes != [] {
      if !Selects(f.includes, path) {
        if isDir && f.onlyPrefixIncludes && !AnyMayReach(f.includes, false, path) {
          return true, true;
        }
        skip := true;
      }
    }
    if f.excludes != [] {
      if Selects(f.excludes, path) {
        if isDir && f.onlyPrefixExcludeExceptions && !AnyMayReach(f.excludes, true, path) {
          return true, true;
        }
        skip := true;
      }
    }
    skipDir := false;
  }

  /** Reports the parents that have not been reported. */
  method Report(parents: seq<VisitedDir>, reported: seq<Entry>) returns (parents': seq<VisitedDir>, out: seq<Entry>)
    ensures out == reported + Uncalled(parents)
    ensures parents' == seq(|parents|, a requires 0 <= a < |parents| => parents[a].(calledFn := true))
  {
    parents', out := parents, reported;
    assert parents[..0] == [];
    for a := 0 to |parents|
      invariant |parents'| == |parents| && out == reported + Uncalled(parents[..a])
      invariant forall b :: 0 <= b < |parents| ==>
                  parents'[b] == if b < a then parents[b].(calledFn := true) else parents[b]
    {
      assert parents[..a + 1][..a] == parents[..a];
      if !parents'[a].calledFn {
        parents' := parents'[a := parents'[a].(calledFn := true)];
        out := out + [parents[a].entry];
      }
    }
    assert parents[..|parents|] == parents;
  }

  method PopParents(parents: seq<VisitedDir>, path: Str, f: FilterFS, ghost r: seq<M.Received>, ghost i: nat,
                    ghost idx: seq<nat>)
    returns (parents': seq<VisitedDir>, ghost idx': seq<nat>)
    requires M.ProperStream(r) && i < |r| && Stacked(f, r, i, idx) && Mirrors(r, i, idx, parents)
    requires path == r[i].entry.path
    ensures Stacked(f, r, i, idx') && Mirrors(r, i, idx', parents')
    ensures forall k: nat :: k in idx' ==> k < |r| && M.LeadsTo(r, k, i)
  {
    hide M.Needed, M.ProperStream, Stacked;
    parents', idx' := parents, idx;
    while parents' != [] && !(parents'[|parents'| - 1].pathWithSep <= path)
      invariant Stacked(f, r, i, idx') && Mirrors(r, i, idx', parents')
      decreases |parents'|
    {
      PopVisited(f, r, i, idx');
      parents', idx' := parents'[..|parents'| - 1], idx'[..|idx'| - 1];
    }
    AllLead(f, r, i, idx');
  }

  /** Everything below a directory that is not entered. */
  method SkipDir(s: seq<Entry>, i: nat) returns (n: nat)
    requires i < |s|
    ensures i < n <= |s| && (forall k :: i < k < n ==> Under(s[k].path, s[i].path))
    ensures n < |s| ==> !Under(s[n].path, s[i].path)
  {
    n := i + 1;
    while n < |s| && Under(s[n].path, s[i].path)
      invariant i < n <= |s| && forall k :: i < k < n ==> Under(s[k].path, s[i].path)
    {
      n := n + 1;
    }
  }

  /** What a selected entry does to the stack and the output. */
  lemma Selected(f: FilterFS, r: seq<M.Received>, i: nat, idx: seq<nat>, parents: seq<VisitedDir>,
                 parents': seq<VisitedDir>, matching: bool)
    requires M.ProperStream(r) && i < |r| && r[i].accepted && Mirrors(r, i, idx, parents)
    requires forall k: nat :: k in idx ==> k < |r| && M.LeadsTo(r, k, i)
    requires if matching then Stacked(f, r, i, idx) else idx == [] && forall k :: 0 <= k < |r| ==> r[k].accepted
    requires parents' == seq(|parents|, a requires 0 <= a < |parents| => parents[a].(calledFn := true))
    ensures Mirrors(r, i + 1, idx, parents') && M.Needed(r, i + 1, i)
    ensures Emitted(r, i + 1, i + 1) == Emitted(r, i, i) + Uncalled(parents) + [r[i].entry]
  {
    hide M.TreeStream, Stacked;
    assert M.LeadsTo(r, i, i);
    M.StillNeeded(r, i, i);
    forall a | 0 <= a < |idx| ensures M.Needed(r, i + 1, idx[a]) {
      assert idx[a] in idx;
      M.StillNeeded(r, i, idx[a]);
    }
    UncalledAreUnneeded(r, i, idx, parents);
    if matching {
      StackIsPending(f, r, i, idx);
      EmitStep(r, i, UnneededOf(r, i, idx));
    } else {
      NothingPending(r, i);
      EmitStep(r, i, []);
    }
  }

  /** Passing over entries i, ..., n - 1. */
  lemma PassedOver(r: seq<M.Received>, i: nat, n: nat, idx: seq<nat>, parents: seq<VisitedDir>)
    requires M.ProperStream(r) && i < n <= |r| && Mirrors(r, i, idx, parents)
    requires forall k :: i <= k < n ==> !r[k].accepted
    ensures Mirrors(r, n, idx, parents) && Emitted(r, n, n) == Emitted(r, i, i) && !M.Needed(r, n, i)
  {
    hide M.TreeStream, M.Needed;
    EmitNothing(r, i, n);
    M.NewIsUnneeded(r, i);
  }

  /** Unless a matcher is set nothing is hidden or passed over. */
  lemma NoMatchers(f: FilterFS, s: seq<Entry>)
    requires f.includes == [] && f.excludes == []
    ensures forall k :: 0 <= k < |s| ==> Marked(f, s)[k].accepted
  {
    forall k | 0 <= k < |s| ensures !Hidden(f, s, k) { }
  }

  /** The filtered walk reports exactly the marked entries and the directories above them, each once
      and in walk order. */
  method Walk(f: FilterFS, s: seq<Entry>) returns (out: seq<Entry>)
    requires M.ProperStream(AllMarked(f, s))
    ensures out == Emitted(Marked(f, s), |s|, |s|)
  {
    hide M.TreeStream, M.Needed, Stacked, Prunes, Wants, Hidden, Emitted, Normal;
    MarkedIsStream(f, s);
    ghost var r := Marked(f, s);
    var parents: seq<VisitedDir> := [];
    ghost var idx: seq<nat> := [];
    out := [];
    var i := 0;
    var matching := f.includes != [] || f.excludes != [];
    Start(f, r);
    if !matching { NoMatchers(f, s); }
    while i < |s|
      invariant 0 <= i <= |s| && out == Emitted(r, i, i) && Mirrors(r, i, idx, parents)
      invariant if matching then Stacked(f, r, i, idx) else idx == [] && forall k :: 0 <= k < |r| ==> r[k].accepted
    {
      var path, isDir := s[i].path, IsDir(s[i].stat);
      if matching {
        parents, idx := PopParents(parents, path, f, r, i, idx);
        VisitedIsNotHidden(f, s, i, idx);
        Advance(f, r, i, idx);
      } else {
        WantsAll(f, s, i);
      }
      var skip, skipDir := Check(f, path, isDir);
      if skipDir {
        var n := SkipDir(s, i);
        Skipped(f, s, i, n);
        PassedOver(r, i, n, idx, parents);
        SkipOver(f, r, i, idx, n);
        i := n;
      } else {
        if !skip {
          ghost var before := parents;
          parents, out := Report(parents, out);
          Selected(f, r, i, idx, before, parents, matching);
          out := out + [s[i]];
        } else {
          PassedOver(r, i, i + 1, idx, parents);
        }
        if matching && isDir {
          parents := parents + [VisitedDir(s[i], path + [SEP], !skip)];
          idx := idx + [i];
        }
        i := i + 1;
      }
    }
  }

  lemma Start(f: FilterFS, r: seq<M.Received>)
    ensures Stacked(f, r, 0, []) && Emitted(r, 0, 0) == []
  { }

  lemma WantsAll(f: FilterFS, s: seq<Entry>, i: nat)
    requires f.includes == [] && f.excludes == [] && i < |s|
    ensures Wants(f, s[i].path) && !Prunes(f, s[i].path)
  { }

  /** A directory that is not entered is not selected, and hides what is below it. */
  lemma Skipped(f: FilterFS, s: seq<Entry>, i: nat, n: nat)
    requires M.ProperStream(Marked(f, s)) && i < n <= |s| && IsDir(s[i].stat) && Prunes(f, s[i].path)
    requires forall k :: i < k < n ==> Under(s[k].path, s[i].path)
    ensures forall k :: i <= k < n ==> !Marked(f, s)[k].accepted
    ensures forall k: nat :: i < k < n ==> M.LeadsTo(Marked(f, s), i, k)
    ensures n < |s| && !Under(s[n].path, s[i].path) ==> !M.LeadsTo(Marked(f, s), i, n)
  {
    forall k: nat | i < k < n ensures Hidden(f, s, k) {
      assert Hides(f, s, i, k);
    }
    if n < |s| { M.ProperAbove(Marked(f, s), i, n); }
  }
}
