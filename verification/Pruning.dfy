/** Whether the walk that skips directories reports the same as the walk that enters them all. */
module Pruning {
  import opened Bytes
  import opened Paths
  import opened Stats
  import opened Patterns
  import opened Matching
  import opened Filtering
  import opened Disk
  import M = MetadataReplay

  ghost predicate AllFaithful(f: FilterFS)
  {
    (forall p :: p in f.includes ==> Faithful(p)) && (forall p :: p in f.excludes ==> Faithful(p))
  }

  // No include pattern and no exception to an exclude pattern is of the shape P/*/**.
  ghost predicate NoStackedGlobs(f: FilterFS)
  {
    && (forall p :: p in f.includes && !p.exclusion ==> !IsStackedGlob(p))
    && (forall p :: p in f.excludes && p.exclusion ==> !IsStackedGlob(p))
  }

  /** Nothing inside a directory the walk does not enter is wanted. */
  lemma NothingWantedInside(f: FilterFS, d: Str, q: Str)
    requires WellFlagged(f) && AllFaithful(f) && NoStackedGlobs(f) && Prunes(f, d) && Under(q, d)
    ensures !Wants(f, q)
  {
    hide Faithful, IsPrefixPattern, IsStackedGlob, HasSpecial, MayReach;
    forall p | p in f.includes && !p.exclusion && f.onlyPrefixIncludes ensures IsPrefixPattern(p) { Shapes(p); }
    forall p | p in f.excludes && p.exclusion && f.onlyPrefixExcludeExceptions ensures IsPrefixPattern(p) { Shapes(p); }
    if f.includes != [] && f.onlyPrefixIncludes && !Selects(f.includes, d) && !AnyMayReach(f.includes, false, d) {
      NothingSelectedInside(f.includes, d, q);
    } else {
      EverythingSelectedInside(f.excludes, d, q);
    }
  }

  /** With patterns of the shapes that the trimming understands, skipping directories loses nothing. */
  lemma PruningLosesNothing(f: FilterFS, s: seq<Entry>)
    requires WellFlagged(f) && AllFaithful(f) && NoStackedGlobs(f)
    ensures Marked(f, s) == AllMarked(f, s)
  {
    hide Prunes, Wants, WellFlagged, AllFaithful, NoStackedGlobs;
    forall k | 0 <= k < |s| ensures Wants(f, s[k].path) ==> !Hidden(f, s, k) {
      if Hidden(f, s, k) {
        var j: nat :| Hides(f, s, j, k);
        NothingWantedInside(f, s[j].path, s[k].path);
      }
    }
  }

  // ---------------------------------------------------------------- filters made from texts

  function CompiledAll(texts: seq<Str>): seq<Pattern>
  {
    seq(|texts|, i requires 0 <= i < |texts| => Compiled(texts[i]))
  }

  lemma CompiledAreFaithful(texts: seq<Str>)
    ensures forall p :: p in CompiledAll(texts) ==> Faithful(p)
  {
    hide Faithful, Compiled;
    forall p | p in CompiledAll(texts) ensures Faithful(p) {
      var i :| 0 <= i < |texts| && CompiledAll(texts)[i] == p;
      CompiledTexts(texts[i]);
      CompiledIsFaithful(p);
    }
  }

  /** A filter made from texts: the walk that skips directories reports what the one that enters them all does,
      unless some text has the shape of a stacked glob. */
  method FilterFromTexts(includes: seq<Str>, excludes: seq<Str>) returns (f: FilterFS)
    ensures f.includes == CompiledAll(includes) && f.excludes == CompiledAll(excludes) && WellFlagged(f)
    ensures NoStackedGlobs(f) ==> forall s :: Marked(f, s) == AllMarked(f, s)
  {
    hide Faithful, Compiled, WellFlagged, NoStackedGlobs;
    f := NewFilterFS(CompiledAll(includes), CompiledAll(excludes));
    CompiledAreFaithful(includes);
    CompiledAreFaithful(excludes);
    if NoStackedGlobs(f) {
      forall s ensures Marked(f, s) == AllMarked(f, s) { PruningLosesNothing(f, s); }
    }
  }

  // ---------------------------------------------------------------- what is reported

  /** The last include pattern that hits the path or a directory above it, if there are any patterns, is no
      exception; and no exclude pattern hits it, or the last one that does is an exception. */
  ghost predicate Chosen(f: FilterFS, path: Str)
  {
    && (f.includes == [] || exists i: nat :: LastHit(f.includes, i, path) && !f.includes[i].exclusion)
    && !(exists i: nat :: LastHit(f.excludes, i, path) && !f.excludes[i].exclusion)
  }

  /** Entry k is chosen, or a directory above a chosen entry. */
  ghost predicate LeadsToChosen(f: FilterFS, s: seq<Entry>, k: nat)
  {
    k < |s| && exists j: nat :: j < |s| && (j == k || Under(s[j].path, s[k].path)) && Chosen(f, s[j].path)
  }

  lemma WantsMeans(f: FilterFS, path: Str)
    ensures Wants(f, path) <==> Chosen(f, path)
  {
    hide LastHit;
    SelectsMeaning(f.includes, path);
    SelectsMeaning(f.excludes, path);
    if f.excludes == [] { assert !Selects(f.excludes, path); }
  }

  lemma NeededMeans(f: FilterFS, s: seq<Entry>, k: nat)
    requires M.ProperStream(AllMarked(f, s)) && k < |s|
    ensures M.Needed(AllMarked(f, s), |s|, k) <==> LeadsToChosen(f, s, k)
  {
    hide Wants, Chosen, M.TreeStream;
    var r := AllMarked(f, s);
    AcceptableInside(r[k].entry.path);
    forall j: nat | j < |s| ensures r[j].accepted <==> Chosen(f, s[j].path) { WantsMeans(f, s[j].path); }
    forall j: nat | j < |s| ensures M.LeadsTo(r, k, j) <==> j == k || Under(s[j].path, s[k].path) { }
  }

  /** The walk reports exactly the chosen entries and the directories above them. */
  lemma {:induction false} WalkReports(f: FilterFS, s: seq<Entry>, e: Entry)
    requires WellFlagged(f) && AllFaithful(f) && NoStackedGlobs(f) && M.ProperStream(AllMarked(f, s))
    ensures e in Emitted(Marked(f, s), |s|, |s|) <==> exists k: nat :: k < |s| && LeadsToChosen(f, s, k) && s[k] == e
  {
    hide WellFlagged, AllFaithful, NoStackedGlobs, M.ProperStream, M.Needed, LeadsToChosen, Wants, Hidden;
    PruningLosesNothing(f, s);
    var r := AllMarked(f, s);
    EmittedMembers(r, |s|, e);
    forall k: nat | k < |s| ensures M.Needed(r, |s|, k) <==> LeadsToChosen(f, s, k) { NeededMeans(f, s, k); }
  }

  ghost predicate Increasing(s: seq<Entry>) { forall i, j :: 0 <= i < j < |s| ==> Before(s[i].path, s[j].path) }

  /** In strictly increasing walk order: each once. */
  lemma {:induction false} ReportedInOrder(r: seq<M.Received>, m: nat)
    requires M.ProperStream(r) && m <= |r|
    ensures Increasing(Emitted(r, |r|, m))
  {
    hide M.Needed, Before, Under, Normal, Increasing;
    if m > 0 {
      ReportedInOrder(r, m - 1);
      var before := Emitted(r, |r|, m - 1);
      forall e | e in before ensures Before(e.path, r[m - 1].entry.path) {
        EmittedMembers(r, m - 1, e);
      }
      OneMoreInOrder(before, r[m - 1].entry);
    } else {
      NothingInOrder();
    }
  }

  lemma NothingInOrder()
    ensures Increasing([])
  { }

  lemma OneMoreInOrder(s: seq<Entry>, e: Entry)
    requires Increasing(s) && forall x :: x in s ==> Before(x.path, e.path)
    ensures Increasing(s + [e]) && s + [] == s
  {
    hide Before;
    assert forall i :: 0 <= i < |s| ==> s[i] in s;
  }

  // ---------------------------------------------------------------- the shape that is lost

  /** A path with the directories above it, all of them directories. */
  function Chain(p: Str): seq<Entry>
    decreases |p|
  {
    (if LastSep(p) >= 0 then Chain(Parent(p)) else []) + [Entry(p, DIR_STAT)]
  }

  lemma ChainStep(p: Str)
    ensures LastSep(p) >= 0 ==> Chain(p) == Chain(Parent(p)) + [Entry(p, DIR_STAT)] && |Parent(p)| < |p|
    ensures LastSep(p) < 0 ==> Chain(p) == [Entry(p, DIR_STAT)]
  { }

  lemma LastOfChain(p: Str)
    ensures Chain(p) != [] && Chain(p)[|Chain(p)| - 1] == Entry(p, DIR_STAT)
  {
    hide DIR_STAT;
    ChainStep(p);
  }

  lemma ParentIsAbove(p: Str)
    requires Normal(p) && LastSep(p) >= 0
    ensures Under(p, Parent(p)) && Normal(Parent(p))
  {
    hide Normal, Split;
    ParentAndName(p);
    NormalParts(p);
  }

  lemma {:induction false} ChainEntry(p: Str, e: Entry)
    requires Normal(p) && e in Chain(p)
    ensures e.stat == DIR_STAT && Normal(e.path) && (e.path == p || Under(p, e.path))
    decreases |p|
  {
    hide Normal, Split, Chain, DIR_STAT, Under, LastSep, Parent;
    ChainStep(p);
    if LastSep(p) >= 0 && e in Chain(Parent(p)) {
      ParentIsAbove(p);
      ChainEntry(Parent(p), e);
      if e.path != Parent(p) { UnderTransitive(p, Parent(p), e.path); }
    }
  }

  lemma {:induction false} AncestorInChain(p: Str, a: Str)
    requires a == p || Under(p, a)
    ensures Entry(a, DIR_STAT) in Chain(p)
    decreases |p|
  {
    hide Split;
    if a != p {
      M.HasSep(p, a);
      AncestorOfParent(p, a);
      SplitParent(p);
      AncestorInChain(Parent(p), a);
    }
  }

  lemma {:induction false} ChainSorted(p: Str)
    requires Normal(p)
    ensures forall i, j :: 0 <= i < j < |Chain(p)| ==> Before(Chain(p)[i].path, Chain(p)[j].path)
    decreases |p|
  {
    hide Normal, Split, Before, LastSep, Parent, DIR_STAT;
    ChainStep(p);
    if LastSep(p) >= 0 {
      var d := Parent(p);
      ParentIsAbove(p);
      ChainSorted(d);
      forall e | e in Chain(d) ensures Before(e.path, p) {
        ChainEntry(d, e);
        if e.path != d { UnderTransitive(p, d, e.path); }
        PrefixBefore(e.path, p);
      }
      assert forall i :: 0 <= i < |Chain(d)| ==> Chain(d)[i] in Chain(d);
    }
  }

  /** The directory above an entry comes before it. */
  lemma AboveComesBefore(p: Str, i: nat, a: Str) returns (j: nat)
    requires Normal(p) && i < |Chain(p)| && Under(Chain(p)[i].path, a)
    ensures j < i && Chain(p)[j] == Entry(a, DIR_STAT)
  {
    hide Normal, Before, Chain;
    var s := Chain(p);
    var e := s[i];
    assert e in s;
    ChainEntry(p, e);
    if e.path != p { UnderTransitive(p, e.path, a); }
    AncestorInChain(p, a);
    j :| 0 <= j < |s| && s[j] == Entry(a, DIR_STAT);
    ChainSorted(p);
    PrefixBefore(a, e.path);
    BeforeTotal(a, e.path);
  }

  lemma ChainIsStream(f: FilterFS, p: Str)
    requires Normal(p)
    ensures M.ProperStream(AllMarked(f, Chain(p)))
  {
    hide Normal, Before, Chain, Under, Wants;
    var s := Chain(p);
    var r := AllMarked(f, s);
    ChainSorted(p);
    forall k | 0 <= k < |s| ensures Normal(s[k].path) { ChainEntry(p, s[k]); }
    assert IsDir(DIR_STAT);
    forall i, a | 0 <= i < |r| && Under(r[i].entry.path, a) ensures exists j: nat :: M.DirAt(r, j, a) && j < i {
      var j := AboveComesBefore(p, i, a);
      assert M.DirAt(r, j, a);
    }
  }

  const SOME_DIR: Str := [120]
  const SOME_FILE: Str := [102]

  /** An entry of directory c below the base of P/STAR/STARSTAR. */
  function LostPath(b: Str, c: Str): Str { b + [SEP] + c + [SEP] + SOME_FILE }

  lemma NormalBelow(b: Str, c: Str)
    requires Normal(b) && IsName(c)
    ensures Normal(b + [SEP] + c) && Under(b + [SEP] + c, b)
  {
    SplitPieceConcat(b + [SEP] + c, b, c);
  }

  /** What the matcher answers on the way down. */
  lemma StackedGlobMatches(p: Pattern, b: Str, c: Str)
    requires Faithful(p) && IsStackedGlob(p) && b == WithoutTrailingGlob(p) && IsName(c)
    ensures !Hits(p, b + [SEP] + c) && Hits(p, LostPath(b, c)) && !MayReach(p, b + [SEP] + c)
  {
    hide Normal, HasSpecial;
    var d, q := b + [SEP] + c, LostPath(b, c);
    assert q[|b| + 1..] == c + [SEP] + SOME_FILE;
    assert (c + [SEP] + SOME_FILE)[|c|] == SEP;
    assert Under(q, b);
    assert d[|b| + 1..] == c;
    assert |d + [SEP]| > |b + [SEP]|;
    if Hits(p, d) {
      var a := HitAt(p, d);
      if a != d { OnlyBaseAbove(d, b, c, a); }
    }
  }

  /** Above d/c there is only d and what is above it. */
  lemma OnlyBaseAbove(p: Str, d: Str, c: Str, a: Str)
    requires p == d + [SEP] + c && SEP !in c && Under(p, a)
    ensures |a| <= |d|
  {
    assert p[|a|] == SEP;
    assert forall j :: |d| < j < |p| ==> p[j] == c[j - |d| - 1];
  }

  lemma SelectsOne(p: Pattern, q: Str)
    requires !p.exclusion
    ensures Selects([p], q) <==> Hits(p, q)
  {
    assert [p][..0] == [];
  }

  function OnlyPattern(p: Pattern): FilterFS { FilterFS([p], [], true, true) }

  lemma LostIsProper(f: FilterFS, b: Str, c: Str)
    requires Normal(b) && IsName(c)
    ensures (var s, d := Chain(LostPath(b, c)), b + [SEP] + c;
             && s != [] && M.ProperStream(AllMarked(f, s)) && s[|s| - 1].path == LostPath(b, c)
             && Normal(LostPath(b, c)) && Normal(d) && Under(LostPath(b, c), d))
  {
    hide Normal, Chain;
    NormalBelow(b, c);
    NormalBelow(b + [SEP] + c, SOME_FILE);
    ChainIsStream(f, LostPath(b, c));
    LastOfChain(LostPath(b, c));
  }

  /** If the directory in the middle is not entered, the path below it is hidden. */
  lemma LostIsHidden(f: FilterFS, b: Str, c: Str)
    requires Normal(b) && IsName(c) && Prunes(f, b + [SEP] + c)
    ensures (var s := Chain(LostPath(b, c)); s != [] && Hidden(f, s, |s| - 1))
  {
    hide Normal, Chain, Prunes;
    var s, d := Chain(LostPath(b, c)), b + [SEP] + c;
    LostIsProper(f, b, c);
    AncestorInChain(LostPath(b, c), d);
    var j :| 0 <= j < |s| && s[j] == Entry(d, DIR_STAT);
    assert IsDir(DIR_STAT);
    assert Hides(f, s, j, |s| - 1);
  }

  lemma {:induction false} EmittedMembers(r: seq<M.Received>, m: nat, e: Entry)
    requires m <= |r|
    ensures e in Emitted(r, |r|, m) <==> exists k: nat :: k < m && M.Needed(r, |r|, k) && r[k].entry == e
  {
    hide M.Needed;
    if m > 0 { EmittedMembers(r, m - 1, e); }
  }

  /** The last entry of a walk is needed only for itself. */
  lemma LastNeeded(r: seq<M.Received>)
    requires M.ProperStream(r) && r != []
    ensures M.Needed(r, |r|, |r| - 1) <==> r[|r| - 1].accepted
  {
    var n := |r| - 1;
    assert M.LeadsTo(r, n, n);
    if M.Needed(r, |r|, n) {
      var j :| 0 <= j < |r| && r[j].accepted && M.LeadsTo(r, n, j);
      M.LeadsBefore(r, n, j);
    }
  }

  lemma LastEmitted(r: seq<M.Received>)
    requires M.ProperStream(r) && r != []
    ensures r[|r| - 1].entry in Emitted(r, |r|, |r|) <==> r[|r| - 1].accepted
  {
    hide M.Needed, Emitted, Before, Normal;
    var n := |r| - 1;
    EmittedMembers(r, |r|, r[n].entry);
    LastNeeded(r);
    if k: nat :| k < |r| && M.Needed(r, |r|, k) && r[k].entry == r[n].entry && k != n {
      BeforeTotal(r[k].entry.path, r[n].entry.path);
    }
  }

  /** A wanted path in a directory that is not entered is reported only by the walk that enters it. */
  lemma WantedIsLost(f: FilterFS, b: Str, c: Str)
    requires Normal(b) && IsName(c) && Prunes(f, b + [SEP] + c) && Wants(f, LostPath(b, c))
    ensures (var s, e := Chain(LostPath(b, c)), Entry(LostPath(b, c), DIR_STAT);
             && M.ProperStream(AllMarked(f, s))
             && e !in Emitted(Marked(f, s), |s|, |s|) && e in Emitted(AllMarked(f, s), |s|, |s|))
  {
    hide Normal, Chain, Prunes, Wants, M.ProperStream, Hidden, Emitted;
    var s := Chain(LostPath(b, c));
    LostIsProper(f, b, c);
    LostIsHidden(f, b, c);
    LastOfChain(LostPath(b, c));
    MarkedIsStream(f, s);
    LastEmitted(Marked(f, s));
    LastEmitted(AllMarked(f, s));
  }

  /** Nothing else on that walk is wanted, so nothing at all is reported. */
  lemma NothingElseWanted(p: Pattern, b: Str, k: nat)
    requires Faithful(p) && IsStackedGlob(p) && !p.exclusion && b == WithoutTrailingGlob(p) && Normal(b)
    requires (var q := LostPath(b, SOME_DIR); k < |Chain(q)| && Chain(q)[k].path != q)
    ensures !Wants(OnlyPattern(p), Chain(LostPath(b, SOME_DIR))[k].path)
  {
    hide Normal, Chain, Selects, IsStackedGlob, HasSpecial, Faithful;
    var d, q := b + [SEP] + SOME_DIR, LostPath(b, SOME_DIR);
    var e := Chain(q)[k];
    NormalBelow(b, SOME_DIR);
    NormalBelow(d, SOME_FILE);
    assert e in Chain(q);
    ChainEntry(q, e);
    SelectsOne(p, e.path);
    StackedGlobMatches(p, b, SOME_DIR);
    Comparable(q, e.path, d);
    if Hits(p, e.path) {
      if Under(d, e.path) { HitsBelow(p, e.path, d); }
      if Under(e.path, d) { NothingBetween(d, SOME_FILE, e.path); }
    }
  }

  /** Between a directory and a name in it there is nothing. */
  lemma NothingBetween(d: Str, c: Str, a: Str)
    requires SEP !in c && Under(a, d)
    ensures !Under(d + [SEP] + c, a)
  {
    var q := d + [SEP] + c;
    assert forall k :: 0 <= k < |c| ==> q[|d| + 1 + k] == c[k] && c[k] != SEP;
    SepAfter(a, d);
    if Under(q, a) { SepAfter(q, a); }
  }

  lemma SepAfter(q: Str, a: Str)
    requires Under(q, a)
    ensures |a| < |q| && q[|a|] == SEP
  { }

  lemma {:induction false} NoneMarked(r: seq<M.Received>, m: nat)
    requires m <= |r| && forall k :: 0 <= k < |r| ==> !r[k].accepted
    ensures Emitted(r, |r|, m) == []
  {
    if m > 0 { NoneMarked(r, m - 1); }
  }

  /** The directory below the base is not entered, though something in it is wanted. */
  lemma StackedGlobPrunes(p: Pattern, b: Str, c: Str)
    requires Faithful(p) && IsStackedGlob(p) && !p.exclusion && b == WithoutTrailingGlob(p) && IsName(c)
    ensures Prunes(OnlyPattern(p), b + [SEP] + c) && Wants(OnlyPattern(p), LostPath(b, c))
  {
    hide Faithful, IsStackedGlob, Hits, MayReach, Selects;
    StackedGlobMatches(p, b, c);
    SelectsOne(p, b + [SEP] + c);
    SelectsOne(p, LostPath(b, c));
  }

  /** A single include pattern P/STAR/STARSTAR makes the walk lose a path that it selects: there is a walk of
      which nothing at all is reported. */
  lemma StackedGlobLoses(p: Pattern, b: Str)
    requires Faithful(p) && IsStackedGlob(p) && !p.exclusion && b == WithoutTrailingGlob(p) && Normal(b)
    ensures (var f, s := OnlyPattern(p), Chain(LostPath(b, SOME_DIR));
             && M.ProperStream(AllMarked(f, s))
             && Emitted(Marked(f, s), |s|, |s|) == [] && Emitted(AllMarked(f, s), |s|, |s|) != [])
  {
    hide Normal, Faithful, IsStackedGlob, Chain, Wants, Prunes, M.ProperStream, Hidden;
    var q := LostPath(b, SOME_DIR);
    var f, s := OnlyPattern(p), Chain(q);
    StackedGlobPrunes(p, b, SOME_DIR);
    WantedIsLost(f, b, SOME_DIR);
    LostIsHidden(f, b, SOME_DIR);
    LostIsProper(f, b, SOME_DIR);
    var r := Marked(f, s);
    forall k | 0 <= k < |s| ensures !r[k].accepted {
      if s[k].path != q { NothingElseWanted(p, b, k); } else { OnlyLast(q, k); }
    }
    NoneMarked(r, |s|);
  }

  lemma OnlyLast(p: Str, k: nat)
    requires k < |Chain(p)| && Chain(p)[k].path == p && Normal(p)
    ensures k == |Chain(p)| - 1
  {
    hide Chain, Normal, Before;
    ChainSorted(p);
    LastOfChain(p);
    BeforeTotal(p, p);
  }

  // For a single include pattern without wildcards before its trailing globs: skipping directories
  // changes nothing on any walk exactly when the pattern is not P/*/**.
  lemma SinglePatternExact(p: Pattern)
    requires Faithful(p) && !p.exclusion && !HasSpecial(WithoutTrailingGlob(p)) && Normal(WithoutTrailingGlob(p))
    ensures (forall s :: M.ProperStream(AllMarked(OnlyPattern(p), s)) ==>
               Emitted(Marked(OnlyPattern(p), s), |s|, |s|) == Emitted(AllMarked(OnlyPattern(p), s), |s|, |s|))
            <==> !IsStackedGlob(p)
  {
    hide Normal, Faithful, IsStackedGlob, HasSpecial, M.TreeStream, Emitted, Marked, AllMarked;
    var f := OnlyPattern(p);
    if IsStackedGlob(p) {
      StackedGlobLoses(p, WithoutTrailingGlob(p));
    } else {
      forall s: seq<Entry> ensures Marked(f, s) == AllMarked(f, s) { PruningLosesNothing(f, s); }
    }
  }

  // The same for the text of an include pattern.
  lemma SingleTextExact(text: Str)
    requires text != [] && text[0] != 33
    requires (var b := WithoutTrailingGlob(Compiled(text)); !HasSpecial(b) && Normal(b))
    ensures (var f := OnlyPattern(Compiled(text));
             (forall s :: M.ProperStream(AllMarked(f, s)) ==>
                Emitted(Marked(f, s), |s|, |s|) == Emitted(AllMarked(f, s), |s|, |s|)))
            <==> text != WithoutTrailingGlob(Compiled(text)) + GLOB + DOUBLE_GLOB
  {
    hide Normal, Faithful, HasSpecial, M.ProperStream, Emitted, Marked, AllMarked;
    CompiledTexts(text);
    CompiledIsFaithful(Compiled(text));
    SinglePatternExact(Compiled(text));
  }

  // ---------------------------------------------------------------- exceptions to an exclude pattern

  /** One exclude pattern and one exception to it. */
  function OnlyException(base: Pattern, exc: Pattern): FilterFS { FilterFS([], [base, exc], true, true) }

  lemma SelectsException(base: Pattern, exc: Pattern, q: Str)
    requires !base.exclusion && exc.exclusion
    ensures Selects([base, exc], q) <==> Hits(base, q) && !Hits(exc, q)
  {
    hide Hits;
    SelectsOne(base, q);
    assert [base, exc][..1] == [base];
  }

  // The exception P/*/** reaches into a directory of P that the base pattern excludes, and the walk does
  // not go there.
  lemma StackedExceptionLoses(base: Pattern, exc: Pattern, c: Str)
    requires Faithful(exc) && IsStackedGlob(exc) && !base.exclusion && exc.exclusion
    requires (var b := WithoutTrailingGlob(exc); Normal(b) && IsName(c) && Hits(base, b + [SEP] + c))
    ensures (var b, f := WithoutTrailingGlob(exc), OnlyException(base, exc);
             var s, e := Chain(LostPath(b, c)), Entry(LostPath(b, c), DIR_STAT);
             && M.ProperStream(AllMarked(f, s))
             && e !in Emitted(Marked(f, s), |s|, |s|) && e in Emitted(AllMarked(f, s), |s|, |s|))
  {
    hide Normal, Faithful, IsStackedGlob, Hits, MayReach, Selects, Chain, Hidden, M.ProperStream, Emitted, Marked,
         AllMarked;
    var b, f := WithoutTrailingGlob(exc), OnlyException(base, exc);
    var d := b + [SEP] + c;
    StackedGlobMatches(exc, b, c);
    SelectsException(base, exc, d);
    SelectsException(base, exc, LostPath(b, c));
    WantedIsLost(f, b, c);
  }

  // With the excludes P and !P/*/** that is the case for every directory in P.
  lemma ExceptionToItsBase(base: Pattern, exc: Pattern)
    requires Faithful(exc) && IsStackedGlob(exc) && !base.exclusion && exc.exclusion
    requires (var b := WithoutTrailingGlob(exc); Normal(b) && base.matches(b))
    ensures (var b, f := WithoutTrailingGlob(exc), OnlyException(base, exc);
             var s := Chain(LostPath(b, SOME_DIR));
             && M.ProperStream(AllMarked(f, s))
             && Emitted(Marked(f, s), |s|, |s|) != Emitted(AllMarked(f, s), |s|, |s|))
  {
    hide Normal, Faithful, IsStackedGlob, Chain, M.ProperStream, Emitted, Marked, AllMarked;
    var b := WithoutTrailingGlob(exc);
    assert Under(b + [SEP] + SOME_DIR, b);
    HitsAncestor(base, b + [SEP] + SOME_DIR, b);
    StackedExceptionLoses(base, exc, SOME_DIR);
  }

  /** A directory whose excluded contents the exception reaches, though it cannot reach the directory, is
      one level below the exception's base. */
  lemma OneLevelDown(exc: Pattern, d: Str, q: Str) returns (c: Str)
    requires Faithful(exc) && IsStackedGlob(exc) && Normal(d)
    requires Under(q, d) && Hits(exc, q) && !Hits(exc, d) && !MayReach(exc, d)
    ensures IsName(c) && d == WithoutTrailingGlob(exc) + [SEP] + c
  {
    hide Normal, Split, HasSpecial;
    var b := WithoutTrailingGlob(exc);
    var a := HitAt(exc, q);
    Comparable(q, a, d);
    if Under(d, a) { HitsAncestor(exc, d, a); }
    assert Under(a, b);
    Comparable(a, b, d);
    PrefixOfBase(b, d);
    c := d[|b| + 1..];
    assert d == b + [SEP] + c;
    SplitPieceConcat(d, b, c);
    NameOfNormal(d, b, c);
  }

  lemma NameOfNormal(d: Str, b: Str, c: Str)
    requires Normal(d) && Split(d) == Split(b) + [c]
    ensures IsName(c)
  {
    assert c in Split(d);
  }

  lemma NothingLostBelow(base: Pattern, exc: Pattern, s: seq<Entry>)
    requires Faithful(exc) && IsStackedGlob(exc) && !base.exclusion && exc.exclusion
    requires forall c :: IsName(c) ==> !Hits(base, WithoutTrailingGlob(exc) + [SEP] + c)
    requires M.ProperStream(AllMarked(OnlyException(base, exc), s))
    ensures Marked(OnlyException(base, exc), s) == AllMarked(OnlyException(base, exc), s)
  {
    hide Faithful, IsStackedGlob, Hits, MayReach, Normal, Selects;
    var f := OnlyException(base, exc);
    forall k | 0 <= k < |s| ensures Wants(f, s[k].path) ==> !Hidden(f, s, k) {
      if Wants(f, s[k].path) && Hidden(f, s, k) {
        var j: nat :| Hides(f, s, j, k);
        var d, q := s[j].path, s[k].path;
        assert AllMarked(f, s)[j].entry == s[j];
        SelectsException(base, exc, d);
        SelectsException(base, exc, q);
        HitsBelow(base, d, q);
        assert f.excludes[1] == exc;
        var c := OneLevelDown(exc, d, q);
      }
    }
  }

  // For one exception, without wildcards before its trailing globs, behind one exclude pattern: skipping
  // directories changes nothing on any walk exactly when the exception is not P/*/** or the base pattern
  // excludes no name in P.
  lemma SingleExceptionExact(base: Pattern, exc: Pattern)
    requires Faithful(base) && Faithful(exc) && !base.exclusion && exc.exclusion
    requires !HasSpecial(WithoutTrailingGlob(exc)) && Normal(WithoutTrailingGlob(exc))
    ensures (var f := OnlyException(base, exc);
             (forall s :: M.ProperStream(AllMarked(f, s)) ==>
                Emitted(Marked(f, s), |s|, |s|) == Emitted(AllMarked(f, s), |s|, |s|)))
            <==> !(IsStackedGlob(exc) && exists c :: IsName(c) && Hits(base, WithoutTrailingGlob(exc) + [SEP] + c))
  {
    hide Normal, Faithful, IsStackedGlob, HasSpecial, Hits, M.ProperStream, Emitted, Marked, AllMarked;
    var b, f := WithoutTrailingGlob(exc), OnlyException(base, exc);
    if !IsStackedGlob(exc) {
      forall s: seq<Entry> ensures Marked(f, s) == AllMarked(f, s) { PruningLosesNothing(f, s); }
    } else if c :| IsName(c) && Hits(base, b + [SEP] + c) {
      StackedExceptionLoses(base, exc, c);
    } else {
      forall s: seq<Entry> | M.ProperStream(AllMarked(f, s)) ensures Marked(f, s) == AllMarked(f, s) {
        NothingLostBelow(base, exc, s);
      }
    }
  }
}
