/** What FollowLinks finds of everything that the links lead to. */
module LinkClosure {
  import opened Bytes
  import opened Deduping
  import opened LinkFollowing
  import opened Paths

  // ---------------------------------------------------------------- all that there is to find

  /** One path leads on to the next, from one that was given. */
  ghost predicate Chain(fs: LinkFS, paths: seq<Str>, chain: seq<Str>)
  {
    && chain != [] && chain[0] in paths
    && forall i :: 0 <= i < |chain| - 1 ==> chain[i + 1] in Onward(fs, chain[i])
  }

  ghost predicate EndsIn(fs: LinkFS, paths: seq<Str>, chain: seq<Str>, p: Str)
  {
    Chain(fs, paths, chain) && chain[|chain| - 1] == p
  }

  /** The path is given, or some such path leads on to it. */
  ghost predicate TakenUp(fs: LinkFS, paths: seq<Str>, p: Str) { exists chain :: EndsIn(fs, paths, chain, p) }

  lemma GivenIsTakenUp(fs: LinkFS, paths: seq<Str>, p: Str)
    requires p in paths
    ensures TakenUp(fs, paths, p)
  {
    assert EndsIn(fs, paths, [p], p);
  }

  lemma OnwardIsTakenUp(fs: LinkFS, paths: seq<Str>, p: Str, q: Str)
    requires TakenUp(fs, paths, p) && q in Onward(fs, p)
    ensures TakenUp(fs, paths, q)
  {
    hide Onward;
    var chain :| EndsIn(fs, paths, chain, p);
    var more := chain + [q];
    forall i | 0 <= i < |more| - 1 ensures more[i + 1] in Onward(fs, more[i]) {
      if i < |chain| - 1 { assert more[i + 1] == chain[i + 1]; }
    }
    assert EndsIn(fs, paths, more, q);
  }

  ghost predicate IsLink(fs: LinkFS, p: Str) { Targets(fs, p) != [] }

  /** Every path taken up is resolved, and if that ended at a link, the link was followed with the
      remainder of that very path: nothing was left undone, even where that would have found nothing new. */
  ghost predicate Complete(fs: LinkFS, paths: seq<Str>, tr: Trail)
  {
    forall p :: TakenUp(fs, paths, p) ==> Finished(fs, tr, p)
  }

  ghost predicate Finished(fs: LinkFS, tr: Trail, p: Str)
  {
    && Stop(fs, p) in tr.resolved
    && (IsLink(fs, Stop(fs, p)) ==> Stop(fs, p) in tr.follows && tr.follows[Stop(fs, p)] == Remainder(fs, p))
  }

  /** No link is met with two different remainders. */
  ghost predicate OneRemainder(fs: LinkFS, paths: seq<Str>)
  {
    forall p, q ::
      TakenUp(fs, paths, p) && TakenUp(fs, paths, q) && Stop(fs, p) == Stop(fs, q) && IsLink(fs, Stop(fs, p))
      ==> Remainder(fs, p) == Remainder(fs, q)
  }

  // ---------------------------------------------------------------- what a run leaves

  /** Links followed are resolved ones, and all of those. */
  ghost predicate Coherent(fs: LinkFS, tr: Trail)
  {
    forall r :: r in tr.follows <==> r in tr.resolved && IsLink(fs, r)
  }

  /** Nothing resolved is lost, and no remainder is replaced. */
  ghost predicate Extends(tr: Trail, r: Trail)
  {
    tr.resolved <= r.resolved && forall l :: l in tr.follows ==> l in r.follows && r.follows[l] == tr.follows[l]
  }

  /** What a link followed since leads on to is resolved. */
  ghost predicate Closed(fs: LinkFS, tr: Trail, r: Trail)
  {
    forall l :: l in r.follows && l !in tr.follows ==> ClosedAt(fs, r, l)
  }

  ghost predicate ClosedAt(fs: LinkFS, r: Trail, l: Str)
    requires l in r.follows
  {
    AllStopped(fs, r, JoinEach(Targets(fs, l), r.follows[l]))
  }

  ghost predicate AllStopped(fs: LinkFS, r: Trail, paths: seq<Str>)
  {
    forall q :: q in paths ==> Stop(fs, q) in r.resolved
  }

  lemma ExtendsTransitive(a: Trail, b: Trail, c: Trail)
    requires Extends(a, b) && Extends(b, c)
    ensures Extends(a, c)
  { }

  lemma ClosedTransitive(fs: LinkFS, a: Trail, b: Trail, c: Trail)
    requires Extends(a, b) && Extends(b, c) && Closed(fs, a, b) && Closed(fs, b, c)
    ensures Closed(fs, a, c)
  {
    hide JoinEach, Targets, Stop;
    forall l | l in c.follows && l !in a.follows ensures ClosedAt(fs, c, l) {
      if l in b.follows { assert ClosedAt(fs, b, l); }
    }
  }

  lemma {:induction false} AppendedCloses(fs: LinkFS, comps: set<Str>, path: Str, tr: Trail)
    requires ProperFS(fs) && Covers(fs, comps) && Within(path, comps) && Coherent(fs, tr)
    ensures (var r := Appended(fs, comps, path, tr);
             Stop(fs, path) in r.resolved && Extends(tr, r) && Closed(fs, tr, r) && Coherent(fs, r))
    decreases Expandable(fs, comps) - tr.resolved, 1, 0
  {
    hide ProperFS, Covers, Within, Stop, Remainder, Onward, Targets, AppendedAll, Expandable, ClosedAt;
    var p := Stop(fs, path);
    if p !in tr.resolved && Targets(fs, p) != [] {
      OnwardWithin(fs, path, comps);
      StopExpandable(fs, path, comps);
      var mid := Trail(tr.resolved + {p}, tr.follows[p := Remainder(fs, path)]);
      AppendedAllCloses(fs, comps, Onward(fs, path), mid);
      var r := AppendedAll(fs, comps, Onward(fs, path), mid);
      assert ClosedAt(fs, r, p) by { OnwardMeaning(fs, path); FollowedIsClosed(fs, r, p, Onward(fs, path)); }
    }
  }

  lemma OnwardMeaning(fs: LinkFS, path: Str)
    ensures Onward(fs, path) == JoinEach(Targets(fs, Stop(fs, path)), Remainder(fs, path))
  { }

  lemma FollowedIsClosed(fs: LinkFS, r: Trail, p: Str, paths: seq<Str>)
    requires p in r.follows && paths == JoinEach(Targets(fs, p), r.follows[p]) && AllStopped(fs, r, paths)
    ensures ClosedAt(fs, r, p)
  { }

  lemma {:induction false} AppendedAllCloses(fs: LinkFS, comps: set<Str>, paths: seq<Str>, tr: Trail)
    requires ProperFS(fs) && Covers(fs, comps) && (forall q :: q in paths ==> Within(q, comps)) && Coherent(fs, tr)
    ensures (var r := AppendedAll(fs, comps, paths, tr);
             AllStopped(fs, r, paths) && Extends(tr, r) && Closed(fs, tr, r) && Coherent(fs, r))
    decreases Expandable(fs, comps) - tr.resolved, 2, |paths|
  {
    hide ProperFS, Covers, Within, Stop, Appended, Expandable, Coherent, Closed;
    if paths == [] {
      ClosedAtOnce(fs, tr);
    } else {
      var n := |paths| - 1;
      var mid := AppendedAll(fs, comps, paths[..n], tr);
      AppendedAllCloses(fs, comps, paths[..n], tr);
      AppendedCloses(fs, comps, paths[n], mid);
      var r := Appended(fs, comps, paths[n], mid);
      ExtendsTransitive(tr, mid, r);
      ClosedTransitive(fs, tr, mid, r);
      assert paths == paths[..n] + [paths[n]];
      assert forall q :: q in paths <==> q in paths[..n] || q == paths[n];
    }
  }

  lemma ClosedAtOnce(fs: LinkFS, tr: Trail)
    ensures Closed(fs, tr, tr)
  { }

  /** All that was resolved, and every remainder, stems from a path taken up. */
  ghost predicate Sound(fs: LinkFS, paths: seq<Str>, tr: Trail)
  {
    && (forall r :: r in tr.resolved ==> exists p :: TakenUp(fs, paths, p) && Stop(fs, p) == r)
    && (forall l :: l in tr.follows ==>
          exists p :: TakenUp(fs, paths, p) && Stop(fs, p) == l && Remainder(fs, p) == tr.follows[l])
  }

  lemma {:induction false} AppendedSound(fs: LinkFS, comps: set<Str>, paths: seq<Str>, path: Str, tr: Trail)
    requires ProperFS(fs) && Covers(fs, comps) && Within(path, comps)
    requires Sound(fs, paths, tr) && TakenUp(fs, paths, path)
    ensures Sound(fs, paths, Appended(fs, comps, path, tr))
    decreases Expandable(fs, comps) - tr.resolved, 1, 0
  {
    hide ProperFS, Covers, Within, Stop, Remainder, Onward, Targets, AppendedAll, Expandable, TakenUp;
    var p := Stop(fs, path);
    if p !in tr.resolved && Targets(fs, p) != [] {
      OnwardWithin(fs, path, comps);
      StopExpandable(fs, path, comps);
      var mid := Trail(tr.resolved + {p}, tr.follows[p := Remainder(fs, path)]);
      forall q | q in Onward(fs, path) ensures TakenUp(fs, paths, q) { OnwardIsTakenUp(fs, paths, path, q); }
      AppendedAllSound(fs, comps, paths, Onward(fs, path), mid);
    }
  }

  lemma {:induction false} AppendedAllSound(fs: LinkFS, comps: set<Str>, paths: seq<Str>, more: seq<Str>, tr: Trail)
    requires ProperFS(fs) && Covers(fs, comps) && (forall q :: q in more ==> Within(q, comps)) && Sound(fs, paths, tr)
    requires forall q :: q in more ==> TakenUp(fs, paths, q)
    ensures Sound(fs, paths, AppendedAll(fs, comps, more, tr))
    decreases Expandable(fs, comps) - tr.resolved, 2, |more|
  {
    hide ProperFS, Covers, Within, Appended, Expandable, TakenUp, Sound;
    if more != [] {
      var n := |more| - 1;
      AppendedAllSound(fs, comps, paths, more[..n], tr);
      AppendedSound(fs, comps, paths, more[n], AppendedAll(fs, comps, more[..n], tr));
    }
  }

  // ---------------------------------------------------------------- the whole run

  ghost function PiecesOf(paths: seq<Str>): set<Str> { set i, c | 0 <= i < |paths| && c in Split(paths[i]) :: c }

  ghost function AllPieces(fs: LinkFS, paths: seq<Str>): (comps: set<Str>)
    ensures Covers(fs, comps) && forall p :: p in paths ==> Within(p, comps)
  {
    {UP, CURRENT, []} + PiecesOf(paths) + (set p, c | p in fs.links.Keys && c in Split(fs.links[p]) :: c)
    + set d, n, c | d in fs.names.Keys && n in fs.names[d] && c in Split(n) :: c
  }

  /** What the resolver has found in the end. */
  ghost function Found(fs: LinkFS, paths: seq<Str>): Trail
    requires ProperFS(fs)
  {
    AppendedAll(fs, AllPieces(fs, paths), paths, Trail({}, map[]))
  }

  lemma FoundFacts(fs: LinkFS, paths: seq<Str>)
    requires ProperFS(fs)
    ensures (var r := Found(fs, paths);
             AllStopped(fs, r, paths) && Closed(fs, Trail({}, map[]), r) && Coherent(fs, r) && Sound(fs, paths, r))
  {
    hide ProperFS, Covers, Within, AllPieces, TakenUp, AppendedAll, Stop, Remainder, ClosedAt;
    AppendedAllCloses(fs, AllPieces(fs, paths), paths, Trail({}, map[]));
    forall p | p in paths ensures TakenUp(fs, paths, p) { GivenIsTakenUp(fs, paths, p); }
    AppendedAllSound(fs, AllPieces(fs, paths), paths, paths, Trail({}, map[]));
  }

  /** Whatever is found is a path that the links lead to, with no link above it. */
  lemma FoundIsSound(fs: LinkFS, paths: seq<Str>, r: Str)
    requires ProperFS(fs) && r in Found(fs, paths).resolved
    ensures exists p :: TakenUp(fs, paths, p) && Stop(fs, p) == r
    ensures Settled(fs, r) && r != [] && !IsAbs(r)
  {
    hide TakenUp, Stop, Found, Settled, IsAbs;
    FoundFacts(fs, paths);
    var p :| TakenUp(fs, paths, p) && Stop(fs, p) == r;
    StopIsSettled(fs, p);
  }

  /** With one remainder for each link, a finished path leads on to finished ones. */
  lemma OnwardFinished(fs: LinkFS, paths: seq<Str>, p: Str, q: Str)
    requires ProperFS(fs) && OneRemainder(fs, paths) && TakenUp(fs, paths, p) && q in Onward(fs, p)
    requires Stop(fs, p) in Found(fs, paths).resolved
    ensures Stop(fs, q) in Found(fs, paths).resolved
  {
    hide TakenUp, Stop, Found, Remainder, Onward;
    var r := Found(fs, paths);
    FoundFacts(fs, paths);
    OnwardMeaning(fs, p);
    var l := Stop(fs, p);
    assert l in r.follows;
    RemainderFound(fs, paths, p);
    assert ClosedAt(fs, r, l);
  }

  lemma RemainderFound(fs: LinkFS, paths: seq<Str>, p: Str)
    requires ProperFS(fs) && OneRemainder(fs, paths) && TakenUp(fs, paths, p) && Stop(fs, p) in Found(fs, paths).follows
    ensures Found(fs, paths).follows[Stop(fs, p)] == Remainder(fs, p)
  {
    hide TakenUp, Stop, Found, Remainder;
    FoundFacts(fs, paths);
    var r := Found(fs, paths);
    var x :| TakenUp(fs, paths, x) && Stop(fs, x) == Stop(fs, p) && Remainder(fs, x) == r.follows[Stop(fs, p)];
  }

  lemma {:induction false} ChainFinished(fs: LinkFS, paths: seq<Str>, chain: seq<Str>)
    requires ProperFS(fs) && OneRemainder(fs, paths) && Chain(fs, paths, chain)
    ensures Stop(fs, chain[|chain| - 1]) in Found(fs, paths).resolved
    decreases |chain|
  {
    hide OneRemainder, Stop, Found, Onward;
    var n := |chain| - 1;
    if n == 0 {
      FoundFacts(fs, paths);
    } else {
      var init := chain[..n];
      assert Chain(fs, paths, init);
      ChainFinished(fs, paths, init);
      assert EndsIn(fs, paths, init, chain[n - 1]);
      assert chain[n - 1 + 1] in Onward(fs, chain[n - 1]);
      OnwardFinished(fs, paths, chain[n - 1], chain[n]);
    }
  }

  /** Every path taken up is finished, each with its own remainder, if and only if no link is met with two
      different remainders. */
  lemma CompleteExactly(fs: LinkFS, paths: seq<Str>)
    requires ProperFS(fs)
    ensures Complete(fs, paths, Found(fs, paths)) <==> OneRemainder(fs, paths)
  {
    hide TakenUp, Stop, Found, Remainder;
    var r := Found(fs, paths);
    if OneRemainder(fs, paths) {
      FoundFacts(fs, paths);
      forall p | TakenUp(fs, paths, p) ensures Finished(fs, r, p) {
        TakenUpStopped(fs, paths, p);
        if IsLink(fs, Stop(fs, p)) { RemainderFound(fs, paths, p); }
      }
    }
    if Complete(fs, paths, r) {
      forall p, q |
        TakenUp(fs, paths, p) && TakenUp(fs, paths, q) && Stop(fs, p) == Stop(fs, q) && IsLink(fs, Stop(fs, p))
        ensures Remainder(fs, p) == Remainder(fs, q)
      {
        assert Finished(fs, r, p) && Finished(fs, r, q);
      }
    }
  }

  lemma TakenUpStopped(fs: LinkFS, paths: seq<Str>, p: Str)
    requires ProperFS(fs) && OneRemainder(fs, paths) && TakenUp(fs, paths, p)
    ensures Stop(fs, p) in Found(fs, paths).resolved
  {
    hide Stop, Found, OneRemainder, Chain;
    var chain :| EndsIn(fs, paths, chain, p);
    ChainFinished(fs, paths, chain);
  }

  /** Every path where something taken up stops is found. */
  ghost predicate AllFound(fs: LinkFS, paths: seq<Str>, tr: Trail)
  {
    forall p :: TakenUp(fs, paths, p) ==> Stop(fs, p) in tr.resolved
  }

  /** p meets a link that was followed with another remainder, and is left there. */
  ghost predicate LeftBehind(fs: LinkFS, tr: Trail, p: Str)
  {
    Stop(fs, p) in tr.follows && tr.follows[Stop(fs, p)] != Remainder(fs, p)
  }

  /** Whatever is left behind would have led only to what is found anyway. */
  ghost predicate NothingMissed(fs: LinkFS, paths: seq<Str>, tr: Trail)
  {
    forall p :: TakenUp(fs, paths, p) && LeftBehind(fs, tr, p) ==> AllStopped(fs, tr, Onward(fs, p))
  }

  lemma OnwardFound(fs: LinkFS, paths: seq<Str>, p: Str, q: Str)
    requires ProperFS(fs) && NothingMissed(fs, paths, Found(fs, paths)) && TakenUp(fs, paths, p) && q in Onward(fs, p)
    requires Stop(fs, p) in Found(fs, paths).resolved
    ensures Stop(fs, q) in Found(fs, paths).resolved
  {
    hide TakenUp, Stop, Found, Remainder, Onward;
    var r, l := Found(fs, paths), Stop(fs, p);
    FoundFacts(fs, paths);
    OnwardMeaning(fs, p);
    assert l in r.follows;
    if !LeftBehind(fs, r, p) { assert ClosedAt(fs, r, l); }
  }

  lemma {:induction false} ChainFound(fs: LinkFS, paths: seq<Str>, chain: seq<Str>)
    requires ProperFS(fs) && NothingMissed(fs, paths, Found(fs, paths)) && Chain(fs, paths, chain)
    ensures Stop(fs, chain[|chain| - 1]) in Found(fs, paths).resolved
    decreases |chain|
  {
    hide NothingMissed, Stop, Found, Onward;
    var n := |chain| - 1;
    if n == 0 {
      FoundFacts(fs, paths);
    } else {
      var init := chain[..n];
      assert Chain(fs, paths, init);
      ChainFound(fs, paths, init);
      assert EndsIn(fs, paths, init, chain[n - 1]);
      assert chain[n - 1 + 1] in Onward(fs, chain[n - 1]);
      OnwardFound(fs, paths, chain[n - 1], chain[n]);
    }
  }

  /** All of it is found, if and only if nothing is missed by what is left behind. */
  lemma AllFoundExactly(fs: LinkFS, paths: seq<Str>)
    requires ProperFS(fs)
    ensures AllFound(fs, paths, Found(fs, paths)) <==> NothingMissed(fs, paths, Found(fs, paths))
  {
    hide Stop, Found, Onward, LeftBehind, Chain;
    var r := Found(fs, paths);
    if AllFound(fs, paths, r) {
      forall p, q | TakenUp(fs, paths, p) && q in Onward(fs, p) ensures Stop(fs, q) in r.resolved {
        OnwardIsTakenUp(fs, paths, p, q);
      }
    }
    if NothingMissed(fs, paths, r) {
      forall p | TakenUp(fs, paths, p) ensures Stop(fs, p) in r.resolved {
        var chain :| EndsIn(fs, paths, chain, p);
        ChainFound(fs, paths, chain);
      }
    }
  }

  /** If no link is met with two remainders exactly the paths where what is taken up stops are found. */
  lemma FoundExactly(fs: LinkFS, paths: seq<Str>, r: Str)
    requires ProperFS(fs) && OneRemainder(fs, paths)
    ensures r in Found(fs, paths).resolved <==> exists p :: TakenUp(fs, paths, p) && Stop(fs, p) == r
  {
    hide TakenUp, Stop, Found, OneRemainder;
    if r in Found(fs, paths).resolved { FoundIsSound(fs, paths, r); }
    if p :| TakenUp(fs, paths, p) && Stop(fs, p) == r { TakenUpStopped(fs, paths, p); }
  }

  // ---------------------------------------------------------------- FollowLinks

  /** Resolves all the paths, sorts what was found and removes covered paths; None when the root is among
      them. */
  method FollowLinks(fs: LinkFS, paths: seq<Str>) returns (out: Option<seq<Str>>)
    requires ProperFS(fs)
    ensures out.None? <==> CURRENT in Found(fs, paths).resolved
    ensures out.Some? ==> exists s :: Sorts(s, Found(fs, paths).resolved) && out.value == Deduped(s, [])
  {
    hide AllPieces, Covers, Within, Targets, Settled, ProperFS, Appended, Deduped;
    ghost var comps := AllPieces(fs, paths);
    var r := new SymlinkResolver(fs, comps);
    for i := 0 to |paths|
      invariant fresh(r) && r.Valid() && r.fs == fs && r.comps == comps
      invariant r.Trace() == AppendedAll(fs, comps, paths[..i], Trail({}, map[]))
    {
      assert paths[..i + 1] == paths[..i] + [paths[i]];
      AppendedAllSnoc(fs, comps, paths[..i], paths[i], Trail({}, map[]));
      r.Append(paths[i]);
    }
    assert paths[..|paths|] == paths;
    assert r.resolved == Found(fs, paths).resolved;
    var sorted := SortPaths(r.resolved);
    assert Sorts(sorted, r.resolved);
    out := DedupePaths(sorted);
  }

  /** s is the set in byte order. */
  ghost predicate Sorts(s: seq<Str>, r: set<Str>) { Ascending(s) && forall p :: p in s <==> p in r }

  /** The list returned: all of it is found, what is found is in it or below something in it; and it is
      minimal exactly when nothing found sorts between a topmost path and something below it. */
  lemma FollowedList(fs: LinkFS, paths: seq<Str>, s: seq<Str>)
    requires ProperFS(fs) && Sorts(s, Found(fs, paths).resolved)
    ensures forall q :: q in Deduped(s, []) ==> q in Found(fs, paths).resolved
    ensures forall r :: r in Found(fs, paths).resolved ==>
              r in Deduped(s, []) || exists q :: q in Deduped(s, []) && Under(r, q)
    ensures Minimal(Deduped(s, [])) <==> forall a, b, c :: !SortsBetween(s, a, b, c)
  {
    hide Found, Minimal, SortsBetween, ProperFS, Settled, TakenUp;
    forall p | p in s ensures p != [] && p[0] != SEP && !Under(p, []) { FoundIsSound(fs, paths, p); }
    MinimalExactly(s);
    DedupedCovers(s, []);
  }

  // ---------------------------------------------------------------- a link met twice

  lemma {:induction false} NamesStay(cs: seq<Str>)
    requires cs != [] && AllNames(cs)
    ensures StepsOf(JoinAll(cs)) == cs
  {
    SplitJoin(cs);
    CleanNames(cs, false, []);
    assert [] + cs == cs;
    var r := Relativised(JoinAll(cs));
    CleanedPieces(cs);
  }

  /** The names of a little tree: a link l to the directory d, and the entries x and y looked up through it. */
  ghost predicate LittleTree(fs: LinkFS, l: Str, d: Str, x: Str, y: Str)
  {
    && fs.links == map[l := d] && l != d && x != y
    && (forall n :: n in [l, d, x, y] ==> IsName(n) && !ContainsWildcards(n))
    && forall p :: p in fs.names ==> p == CURRENT || Normal(p)
  }

  lemma TwoNames(a: Str, b: Str)
    requires IsName(a) && IsName(b)
    ensures JoinAll([a, b]) == a + [SEP] + b && StepsOf(a + [SEP] + b) == [a, b]
  {
    assert [a, b][1..] == [b];
    NamesStay([a, b]);
  }

  lemma SplitBehindRoot(d: Str)
    ensures Split([SEP] + d) == [[]] + Split(d)
  {
    SplitName([]);
    SplitConcat([], d);
    assert [] + [SEP] + d == [SEP] + d;
  }

  lemma RootedPair(d: Str, x: Str)
    requires IsName(d) && IsName(x)
    ensures Join([SEP] + d, x) == [SEP] + d + [SEP] + x
    ensures StepsOf([SEP] + d + [SEP] + x) == [d, x]
  {
    var p := [SEP] + d + [SEP] + x;
    TwoNames(d, x);
    SplitConcat(d, x);
    SplitName(d);
    SplitName(x);
    SplitName([]);
    SplitConcat([], d + [SEP] + x);
    assert [] + [SEP] + (d + [SEP] + x) == p;
    assert Split(p) == [[], d, x];
    assert [[], d, x][1..] == [d, x];
    CleanNames([d, x], true, []);
    CleanNames([d, x], false, []);
    assert [] + [d, x] == [d, x];
    assert CleanComps(Split(p), true, []) == [d, x] && CleanComps(Split(p), false, []) == [d, x];
    assert [SEP] + (d + [SEP] + x) == p;
    var r := Relativised(p);
    CleanedPieces([d, x]);
  }

  lemma LittleTargets(fs: LinkFS, l: Str, d: Str, x: Str, y: Str, n: Str)
    requires LittleTree(fs, l, d, x, y) && (n == x || n == y)
    ensures Targets(fs, l) == [[SEP] + d] && Targets(fs, d) == [] && Targets(fs, d + [SEP] + n) == []
  {
    hide Split, Clean, Join, Dir, LastSep, ContainsWildcards, Base, TargetOf, JoinAll;
    assert l in [l, d, x, y] && d in [l, d, x, y] && n in [l, d, x, y];
    OneComponent(l);
    OneComponent(d);
    PlainTarget([], l, d);
    JoinOne(l);
    JoinOne(d);
    assert [] + [l] == [l] && [] + [d] == [d];
    assert Targets(fs, l) == [TargetOf(l, d)];
    var p := d + [SEP] + n;
    BaseBelow(d, n);
    assert SEP in p by { assert p[|d|] == SEP; }
  }

  lemma BaseBelow(d: Str, n: Str)
    requires IsName(n)
    ensures Base(d + [SEP] + n) == n
  {
    hide Split, Clean, LastSep;
    LastSepOf(d, n);
    var p := d + [SEP] + n;
    assert p[|p| - 1] == n[|n| - 1];
    BaseIsName(p);
    assert p[|d| + 1..] == n;
  }

  lemma LittleSteps(fs: LinkFS, l: Str, d: Str, x: Str, y: Str, n: Str)
    requires LittleTree(fs, l, d, x, y) && (n == x || n == y)
    ensures Stop(fs, l + [SEP] + n) == l && Remainder(fs, l + [SEP] + n) == n
    ensures Onward(fs, l + [SEP] + n) == [[SEP] + d + [SEP] + n]
    ensures Stop(fs, [SEP] + d + [SEP] + n) == d + [SEP] + n
  {
    hide Split, Clean, Join, Targets, StepsOf;
    assert l in [l, d, x, y] && d in [l, d, x, y] && n in [l, d, x, y];
    LittleTargets(fs, l, d, x, y, n);
    TwoNames(l, n);
    TwoNames(d, n);
    RootedPair(d, n);
    assert [l, n][..1] == [l] && [l, n][1..] == [n] && JoinAll([l]) == l && JoinAll([n]) == n;
    assert [d, n][..1] == [d] && [d, n][..2] == [d, n] && JoinAll([d]) == d;
    assert UpTo([l, n], 1) == l && UpTo([d, n], 1) == d && UpTo([d, n], 2) == d + [SEP] + n;
    assert StopAt(fs, [d, n], 1) == StopAt(fs, [d, n], 2) == 2;
  }

  lemma AppendedResolved(fs: LinkFS, comps: set<Str>, path: Str, tr: Trail)
    requires ProperFS(fs) && Covers(fs, comps) && Within(path, comps)
    ensures Stop(fs, path) in tr.resolved ==> Appended(fs, comps, path, tr) == tr
    ensures Stop(fs, path) !in tr.resolved && Targets(fs, Stop(fs, path)) == [] ==>
              Appended(fs, comps, path, tr).resolved == tr.resolved + {Stop(fs, path)}
  {
    hide Stop, Targets;
  }

  lemma AppendedOneTarget(fs: LinkFS, comps: set<Str>, path: Str, q: Str, tr: Trail)
    requires ProperFS(fs) && Covers(fs, comps) && Within(path, comps)
    requires Stop(fs, path) !in tr.resolved && Onward(fs, path) == [q]
    ensures Within(q, comps)
    ensures (Appended(fs, comps, path, tr)
             == Appended(fs, comps, q,
                         Trail(tr.resolved + {Stop(fs, path)}, tr.follows[Stop(fs, path) := Remainder(fs, path)])))
  {
    hide Stop, Remainder, Within, Covers, ProperFS, Expandable;
    OnwardWithin(fs, path, comps);
    assert q in Onward(fs, path);
    var mid := Trail(tr.resolved + {Stop(fs, path)}, tr.follows[Stop(fs, path) := Remainder(fs, path)]);
    AppendedAllSnoc(fs, comps, [], q, mid);
    assert [] + [q] == [q];
    assert Targets(fs, Stop(fs, path)) != [] by { OnwardMeaning(fs, path); }
  }

  lemma FoundTwo(fs: LinkFS, p: Str, q: Str)
    requires ProperFS(fs)
    ensures (var comps := AllPieces(fs, [p, q]);
             && Covers(fs, comps) && Within(p, comps) && Within(q, comps)
             && Found(fs, [p, q]) == Appended(fs, comps, q, Appended(fs, comps, p, Trail({}, map[]))))
  {
    hide Appended, Covers, Within, AllPieces;
    var comps := AllPieces(fs, [p, q]);
    assert p in [p, q] && q in [p, q];
    AppendedAllSnoc(fs, comps, [p], q, Trail({}, map[]));
    AppendedAllSnoc(fs, comps, [], p, Trail({}, map[]));
    assert [p] + [q] == [p, q] && [] + [p] == [p];
  }

  /** Looking x and then y up through the link to d finds the link and d/x. The second path stops at the link
      and is left there, so d/y, which it leads to, is never found. */
  lemma SecondRemainderLost(fs: LinkFS, l: Str, d: Str, x: Str, y: Str)
    requires LittleTree(fs, l, d, x, y) && ProperFS(fs)
    ensures (var paths := [l + [SEP] + x, l + [SEP] + y];
             && Found(fs, paths).resolved == {l, d + [SEP] + x}
             && TakenUp(fs, paths, [SEP] + d + [SEP] + y) && Stop(fs, [SEP] + d + [SEP] + y) == d + [SEP] + y
             && d + [SEP] + y !in Found(fs, paths).resolved)
  {
    hide Found, Appended, Stop, Onward, Remainder, Targets, TakenUp, Covers, Within, AllPieces, ProperFS, StepsOf,
         Split;
    var p, q := l + [SEP] + x, l + [SEP] + y;
    var comps := AllPieces(fs, [p, q]);
    LittleSteps(fs, l, d, x, y, x);
    LittleSteps(fs, l, d, x, y, y);
    LittleTargets(fs, l, d, x, y, x);
    assert l in [l, d, x, y];
    assert l != d + [SEP] + x && l != d + [SEP] + y by {
      assert (d + [SEP] + x)[|d|] == SEP && (d + [SEP] + y)[|d|] == SEP;
    }
    FoundTwo(fs, p, q);
    AppendedOneTarget(fs, comps, p, [SEP] + d + [SEP] + x, Trail({}, map[]));
    AppendedResolved(fs, comps, [SEP] + d + [SEP] + x, Trail({l}, map[l := x]));
    AppendedResolved(fs, comps, q, Appended(fs, comps, p, Trail({}, map[])));
    assert {} + {l} == {l} && {l} + {d + [SEP] + x} == {l, d + [SEP] + x};
    assert d + [SEP] + x != d + [SEP] + y by {
      assert (d + [SEP] + x)[|d| + 1..] == x && (d + [SEP] + y)[|d| + 1..] == y;
    }
    assert p in [p, q] && q in [p, q];
    GivenIsTakenUp(fs, [p, q], q);
    OnwardIsTakenUp(fs, [p, q], q, [SEP] + d + [SEP] + y);
  }

  // ---------------------------------------------------------------- a link below directories

  /** The names ds, l and t, without wildcards, and one link, l in the directory of ds, with the text t. */
  ghost predicate OneLink(fs: LinkFS, ds: seq<Str>, l: Str, t: Str)
  {
    && fs.links == map[JoinAll(ds + [l]) := t] && l != t && IsName(l) && IsName(t) && AllNames(ds)
    && !ContainsWildcards(l) && !ContainsWildcards(t) && forall d :: d in ds ==> !ContainsWildcards(d)
  }

  lemma NamesSnoc(ds: seq<Str>, n: Str)
    requires AllNames(ds) && IsName(n)
    ensures AllNames(ds + [n]) && Cleaned(ds + [n]) && ds + [n] != []
  {
    NamesAreCleaned(ds + [n]);
  }

  lemma WholePath(cs: seq<Str>)
    requires cs != []
    ensures UpTo(cs, |cs|) == JoinAll(cs)
  {
    assert cs[..|cs|] == cs;
  }

  /** A name without wildcards in a directory is a link only if it is the one link. */
  lemma NamedTargets(fs: LinkFS, ds: seq<Str>, l: Str, t: Str, cs: seq<Str>, k: nat)
    requires OneLink(fs, ds, l, t) && AllNames(cs) && k < |cs| && !ContainsWildcards(cs[k])
    ensures cs[..k + 1] == ds + [l] ==> Targets(fs, UpTo(cs, k + 1)) == [[SEP] + JoinAll(ds + [t])]
    ensures cs[..k + 1] != ds + [l] ==> Targets(fs, UpTo(cs, k + 1)) == []
  {
    hide ContainsWildcards, JoinAll, Base, Dir, TargetOf, Split;
    NamesAreCleaned(cs);
    DirOfStep(cs, k);
    PlainTarget(ds, l, t);
    NamesSnoc(ds, l);
    CleanedPrefix(cs, k + 1);
    CleanedPieces(ds + [l]);
    CleanedPieces(cs[..k + 1]);
  }

  lemma StopsAtEnd(fs: LinkFS, cs: seq<Str>, k: nat)
    requires k <= |cs| && forall j :: k <= j < |cs| ==> Targets(fs, UpTo(cs, j)) == []
    ensures StopAt(fs, cs, k) == |cs|
    decreases |cs| - k
  {
    hide Targets, UpTo;
    if k < |cs| { StopsAtEnd(fs, cs, k + 1); }
  }

  /** On the way down to a name in the directory of the link there are no links. */
  lemma OneLinkStops(fs: LinkFS, ds: seq<Str>, l: Str, t: Str, n: Str)
    requires OneLink(fs, ds, l, t) && (n == l || n == t)
    ensures StopAt(fs, ds + [n], 1) == |ds| + 1
    ensures Targets(fs, JoinAll(ds + [n])) == if n == l then [[SEP] + JoinAll(ds + [t])] else []
  {
    hide ContainsWildcards, JoinAll, Targets, UpTo;
    var cs := ds + [n];
    NamesSnoc(ds, n);
    forall j | 1 <= j < |cs| ensures Targets(fs, UpTo(cs, j)) == [] {
      assert cs[j - 1] == ds[j - 1] && ds[j - 1] in ds;
      NamedTargets(fs, ds, l, t, cs, j - 1);
      assert |cs[..j]| == j;
    }
    StopsAtEnd(fs, cs, 1);
    NamedTargets(fs, ds, l, t, cs, |ds|);
    WholePath(cs);
    assert cs[..|ds| + 1] == cs && cs[|ds|] == n;
  }

  /** A path of names, with or without a separator in front, is walked name by name. */
  lemma StepsOfNames(cs: seq<Str>)
    requires cs != [] && AllNames(cs)
    ensures StepsOf(JoinAll(cs)) == cs && StepsOf([SEP] + JoinAll(cs)) == cs
    ensures Join([SEP] + JoinAll(cs), []) == [SEP] + JoinAll(cs)
  {
    hide CleanComps, JoinAll;
    NamesStay(cs);
    NamesAreCleaned(cs);
    CleanedPieces(cs);
    var p := [SEP] + JoinAll(cs);
    SplitBehindRoot(JoinAll(cs));
    var r := Relativised(p);
    CleanSkips(cs, false);
    CleanSkips(cs, true);
    CleanNames(cs, false, []);
    CleanNames(cs, true, []);
    assert [] + cs == cs;
  }

  lemma CleanSkips(cs: seq<Str>, rooted: bool)
    ensures CleanComps([[]] + cs, rooted, []) == CleanComps(cs, rooted, [])
  {
    assert ([[]] + cs)[0] == [] && ([[]] + cs)[1..] == cs;
    assert CleanStep([], [], rooted) == [];
  }

  lemma FoundOne(fs: LinkFS, p: Str)
    requires ProperFS(fs)
    ensures (var comps := AllPieces(fs, [p]);
             && Covers(fs, comps) && Within(p, comps)
             && Found(fs, [p]) == Appended(fs, comps, p, Trail({}, map[])))
  {
    hide Appended, Covers, Within, AllPieces;
    assert p in [p];
    AppendedAllSnoc(fs, AllPieces(fs, [p]), [], p, Trail({}, map[]));
    assert [] + [p] == [p];
  }

  /** Looking up a link in a directory finds the link, and its target in the same directory. */
  lemma LinkBelowDirectory(fs: LinkFS, ds: seq<Str>, l: Str, t: Str)
    requires OneLink(fs, ds, l, t) && ProperFS(fs)
    ensures Found(fs, [JoinAll(ds + [l])]).resolved == {JoinAll(ds + [l]), JoinAll(ds + [t])}
  {
    hide Found, Appended, Targets, Covers, Within, AllPieces, ProperFS, StepsOf, Split, JoinAll, UpTo, Join, OneLink;
    var p, q := JoinAll(ds + [l]), [SEP] + JoinAll(ds + [t]);
    OneLinkNames(fs, ds, l, t);
    NamesSnoc(ds, l);
    NamesSnoc(ds, t);
    StepsOfNames(ds + [l]);
    StepsOfNames(ds + [t]);
    OneLinkStops(fs, ds, l, t, l);
    OneLinkStops(fs, ds, l, t, t);
    WholePath(ds + [l]);
    WholePath(ds + [t]);
    assert Stop(fs, p) == p && Stop(fs, q) == JoinAll(ds + [t]);
    assert (ds + [l])[|ds| + 1..] == [];
    EmptyJoin();
    assert Remainder(fs, p) == [];
    assert Onward(fs, p) == [q];
    FoundOne(fs, p);
    var comps := AllPieces(fs, [p]);
    AppendedOneTarget(fs, comps, p, q, Trail({}, map[]));
    DifferentNames(ds, l, t);
    AppendedResolved(fs, comps, q, Trail({p}, map[p := []]));
    assert {} + {p} == {p} && {p} + {JoinAll(ds + [t])} == {p, JoinAll(ds + [t])};
  }

  lemma OneLinkNames(fs: LinkFS, ds: seq<Str>, l: Str, t: Str)
    requires OneLink(fs, ds, l, t)
    ensures AllNames(ds) && IsName(l) && IsName(t) && l != t
  { }

  lemma DifferentNames(ds: seq<Str>, l: Str, t: Str)
    requires AllNames(ds) && IsName(l) && IsName(t) && l != t
    ensures JoinAll(ds + [l]) != JoinAll(ds + [t])
  {
    hide JoinAll;
    NamesSnoc(ds, l);
    NamesSnoc(ds, t);
    CleanedPieces(ds + [l]);
    CleanedPieces(ds + [t]);
    assert (ds + [l])[|ds|] == l && (ds + [t])[|ds|] == t;
  }
}
