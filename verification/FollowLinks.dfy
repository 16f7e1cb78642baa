/** Resolving paths through symbolic links, cycles included, and removing covered paths. */
module LinkFollowing {
  import opened Bytes
  import opened Paths

  const BACKSLASH: byte := 92

  /** The file system as the resolver sees it: the texts of its symbolic links, the names in its
      directories, and filepath.Match. */
  datatype LinkFS = LinkFS(links: map<Str, Str>, names: map<Str, seq<Str>>, glob: (Str, Str) -> bool)

  ghost predicate ProperFS(fs: LinkFS)
  {
    && (forall p :: p in fs.links ==> Normal(p))
    && (forall d :: d in fs.names ==> d == CURRENT || Normal(d))
  }

  /** How many backslashes stand right before position i. */
  function Backslashes(name: Str, i: nat): nat
    requires i <= |name|
  {
    if i > 0 && name[i - 1] == BACKSLASH then 1 + Backslashes(name, i - 1) else 0
  }

  /** A *, ? or [ at position i that is not escaped: the backslashes before it escape one another. */
  predicate WildcardAt(name: Str, i: nat)
  {
    i < |name| && (name[i] == 42 || name[i] == 63 || name[i] == 91) && Backslashes(name, i) % 2 == 0
  }

  predicate ContainsWildcards(name: Str) { exists i: nat :: i < |name| && WildcardAt(name, i) }

  /** containsWildcards: the loop skips what a backslash escapes. */
  method HasWildcards(name: Str) returns (has: bool)
    ensures has <==> ContainsWildcards(name)
  {
    var i := 0;
    while i < |name|
      invariant 0 <= i && (i <= |name| ==> Backslashes(name, i) % 2 == 0)
      invariant forall j: nat :: j < i ==> !WildcardAt(name, j)
    {
      var ch := name[i];
      if ch == BACKSLASH {
        i := i + 1;
      } else if ch == 42 || ch == 63 || ch == 91 {
        assert WildcardAt(name, i);
        return true;
      }
      i := i + 1;
    }
    return false;
  }

  // ---------------------------------------------------------------- link targets

  /** One step from a directory, given by its names from the root: ".." goes up, "." and "" stay. */
  function Tread(from: seq<Str>, c: Str): seq<Str>
  {
    if c == UP then if from == [] then [] else from[..|from| - 1]
    else if c == CURRENT || c == [] then from
    else from + [c]
  }

  /** Where a text leads from a directory. */
  function Trodden(from: seq<Str>, cs: seq<Str>): seq<Str>
    decreases |cs|
  {
    if cs == [] then from else Trodden(Tread(from, cs[0]), cs[1..])
  }

  /** The names of the directory that holds a path. */
  function DirNames(p: Str): seq<Str> { if LastSep(p) < 0 then [] else Split(Parent(p)) }

  /** Where a link leads, from the root of the tree: its text is followed from its own directory, or from the
      root when the text begins there. */
  function TargetOf(p: Str, text: Str): Str
  {
    [SEP] + JoinAll(Trodden(if IsAbs(text) then [] else DirNames(p), Split(text)))
  }

  function PlainTargets(fs: LinkFS, p: Str): seq<Str>
  {
    if p in fs.links then [TargetOf(p, fs.links[p])] else []
  }

  /** The targets of the links among the first names of a directory that match a pattern. */
  function GlobTargets(fs: LinkFS, dir: Str, base: Str, names: seq<Str>): seq<Str>
  {
    if names == [] then []
    else
      var n := |names| - 1;
      GlobTargets(fs, dir, base, names[..n])
      + if fs.glob(base, names[n]) then PlainTargets(fs, Join(dir, names[n])) else []
  }

  /** readSymlink with wildcards allowed: no target for what is missing or no link. */
  function Targets(fs: LinkFS, p: Str): seq<Str>
  {
    if ContainsWildcards(Base(p)) then
      if Dir(p) in fs.names then GlobTargets(fs, Dir(p), Base(p), fs.names[Dir(p)]) else []
    else PlainTargets(fs, p)
  }

  /** The target of one path, if it is a link. */
  method ReadLink(fs: LinkFS, p: Str) returns (targets: seq<Str>)
    requires ProperFS(fs)
    ensures targets == PlainTargets(fs, p)
  {
    hide Clean, Join, Dir, Normal, TargetOf;
    if p !in fs.links {
      return [];
    }
    LinkLeads(p, fs.links[p]);
    var link := Clean(fs.links[p]);
    if IsAbs(link) {
      return [link];
    }
    return [Join([SEP], Join(Dir(p), link))];
  }

  method ReadSymlink(fs: LinkFS, p: Str) returns (targets: seq<Str>)
    requires ProperFS(fs)
    ensures targets == Targets(fs, p)
  {
    hide ProperFS, Join, Dir, Base, PlainTargets, ContainsWildcards;
    var base := Base(p);
    var wild := HasWildcards(base);
    if wild {
      if Dir(p) !in fs.names {
        return [];
      }
      var names := fs.names[Dir(p)];
      targets := [];
      for i := 0 to |names|
        invariant targets == GlobTargets(fs, Dir(p), base, names[..i])
      {
        assert names[..i + 1][..i] == names[..i];
        if fs.glob(base, names[i]) {
          var more := ReadLink(fs, Join(Dir(p), names[i]));
          targets := targets + more;
        }
      }
      assert names[..|names|] == names;
      return;
    }
    targets := ReadLink(fs, p);
  }

  // ---------------------------------------------------------------- cleaned component lists

  lemma {:induction false} CleanCleaned(cs: seq<Str>, acc: seq<Str>)
    requires Cleaned(acc + cs)
    ensures CleanComps(cs, false, acc) == acc + cs
  {
    if cs != [] {
      var all := acc + cs;
      assert all[|acc|] == cs[0] && cs[0] in all;
      if cs[0] == UP && acc != [] { assert all[|acc| - 1] == UP; }
      assert CleanStep(acc, cs[0], false) == acc + [cs[0]];
      assert (acc + [cs[0]]) + cs[1..] == all;
      CleanCleaned(cs[1..], acc + [cs[0]]);
    } else {
      assert acc + cs == acc;
    }
  }

  lemma CleanedPieces(cs: seq<Str>)
    requires Cleaned(cs) && cs != []
    ensures Split(JoinAll(cs)) == cs && !IsAbs(JoinAll(cs)) && JoinAll(cs) != []
    ensures forall c :: c in cs ==> SEP !in c && c != [] && c != CURRENT
  {
    forall c | c in cs ensures SEP !in c && c != [] && c != CURRENT { }
    SplitJoin(cs);
    SplitPieces(JoinAll(cs));
    assert cs[0] in cs;
    if JoinAll(cs) == [] { SplitName([]); }
  }

  lemma CleanFixed(cs: seq<Str>)
    requires Cleaned(cs) && cs != []
    ensures Clean(JoinAll(cs)) == JoinAll(cs)
  {
    CleanedPieces(cs);
    assert [] + cs == cs;
    CleanCleaned(cs, []);
  }

  lemma CleanedPrefix(cs: seq<Str>, k: nat)
    requires Cleaned(cs) && k <= |cs|
    ensures Cleaned(cs[..k])
  {
    forall c | c in cs[..k] ensures IsName(c) || c == UP { assert c in cs; }
  }

  lemma JoinAllSnoc(cs: seq<Str>, c: Str)
    requires cs != []
    ensures JoinAll(cs + [c]) == JoinAll(cs) + [SEP] + c
  {
    if |cs| == 1 {
      assert (cs + [c])[1..] == [c];
    } else {
      JoinAllSnoc(cs[1..], c);
      assert (cs + [c])[1..] == cs[1..] + [c];
      assert cs[0] + [SEP] + (JoinAll(cs[1..]) + [SEP] + c) == (cs[0] + [SEP] + JoinAll(cs[1..])) + [SEP] + c;
    }
  }

  /** The path of the first k components. */
  function UpTo(cs: seq<Str>, k: nat): Str
    requires k <= |cs|
  {
    if k == 0 then CURRENT else JoinAll(cs[..k])
  }

  /** One more component. */
  lemma StepDown(cs: seq<Str>, k: nat)
    requires Cleaned(cs) && k < |cs|
    ensures Join(UpTo(cs, k), cs[k]) == UpTo(cs, k + 1)
  {
    var next := cs[..k + 1];
    CleanedPrefix(cs, k + 1);
    CleanedPieces(next);
    assert next == cs[..k] + [cs[k]] && cs[k] in next;
    CleanFixed(next);
    if k == 0 {
      SplitConcat(CURRENT, cs[0]);
      SplitName(CURRENT);
      SplitName(cs[0]);
      var p := CURRENT + [SEP] + cs[0];
      assert Split(p) == [CURRENT, cs[0]];
      assert [CURRENT, cs[0]][1..] == [cs[0]];
      assert next == [cs[0]];
      assert CleanComps([CURRENT, cs[0]], false, []) == CleanComps([cs[0]], false, []);
      SplitName(cs[0]);
    } else {
      JoinAllSnoc(cs[..k], cs[k]);
      CleanedPrefix(cs, k);
      CleanedPieces(cs[..k]);
    }
  }

  /** A separator at the end does not change a cleaned path. */
  lemma CleanSepBehind(cs: seq<Str>)
    requires Cleaned(cs) && cs != []
    ensures Clean(JoinAll(cs) + [SEP]) == JoinAll(cs)
  {
    hide Cleaned;
    var d := JoinAll(cs);
    CleanedPieces(cs);
    assert d + [SEP] + [] == d + [SEP];
    SplitConcat(d, []);
    SplitName([]);
    CleanTrailingSep(cs, false, []);
    assert [] + cs == cs;
    CleanCleaned(cs, []);
  }

  /** The directory and the name of the path of the first k components. */
  lemma DirOfStep(cs: seq<Str>, k: nat)
    requires Cleaned(cs) && k < |cs|
    ensures Dir(UpTo(cs, k + 1)) == UpTo(cs, k) && Base(UpTo(cs, k + 1)) == cs[k]
  {
    hide Cleaned, Split, Clean, JoinAll;
    var next := cs[..k + 1];
    CleanedPrefix(cs, k + 1);
    CleanedPieces(next);
    assert next == cs[..k] + [cs[k]] && cs[k] in next;
    var p := UpTo(cs, k + 1);
    if k == 0 {
      assert next == [cs[0]];
      assert JoinAll([cs[0]]) == cs[0] by { JoinOne(cs[0]); }
      OneComponent(cs[0]);
    } else {
      CleanedPrefix(cs, k);
      JoinAllSnoc(cs[..k], cs[k]);
      var d := JoinAll(cs[..k]);
      LastSepOf(d, cs[k]);
      assert p[..|d| + 1] == d + [SEP];
      CleanSepBehind(cs[..k]);
      assert p[|d| + 1..] == cs[k];
      BaseIsName(p);
    }
  }

  lemma JoinOne(c: Str)
    ensures JoinAll([c]) == c
  { }

  lemma LastSepOf(d: Str, c: Str)
    requires SEP !in c && c != []
    ensures LastSep(d + [SEP] + c) == |d|
    ensures (d + [SEP] + c)[|d| + |c|] != SEP
  {
    var p := d + [SEP] + c;
    LastSepSplits(p);
    assert p[|d|] == SEP;
    assert forall j :: |d| < j < |p| ==> p[j] == c[j - |d| - 1];
    assert c[|c| - 1] in c;
  }

  /** Join(".", p) is relative and clean. */
  lemma Relativised(p: Str) returns (cs: seq<Str>)
    ensures Cleaned(cs) && Join(CURRENT, p) == (if cs == [] then CURRENT else JoinAll(cs))
    ensures cs == CleanComps(Split(p), false, [])
  {
    cs := CleanComps(Split(p), false, []);
    SplitPieces(p);
    CleanCompsCleaned(Split(p), false, []);
    if p == [] {
      CleanShort(CURRENT);
      SplitName([]);
      assert Split([])[1..] == [];
      assert CleanComps([], false, []) == [];
    } else {
      var q := CURRENT + [SEP] + p;
      SplitConcat(CURRENT, p);
      SplitName(CURRENT);
      assert ([CURRENT] + Split(p))[1..] == Split(p);
      assert CleanComps(Split(q), false, []) == cs;
      if cs != [] { CleanedPieces(cs); }
    }
  }

  // ---------------------------------------------------------------- what a link text means

  lemma {:induction false} TroddenSnoc(from: seq<Str>, cs: seq<Str>, c: Str)
    ensures Trodden(from, cs + [c]) == Tread(Trodden(from, cs), c)
    decreases |cs|
  {
    hide Tread;
    if cs == [] {
      assert ([] + [c])[1..] == [];
    } else {
      assert (cs + [c])[1..] == cs[1..] + [c];
      TroddenSnoc(Tread(from, cs[0]), cs[1..], c);
    }
  }

  /** Cleaning one more component treads one more step. */
  lemma CleanStepTreads(from: seq<Str>, acc: seq<Str>, c: Str)
    requires Cleaned(acc)
    ensures Trodden(from, CleanStep(acc, c, false)) == Tread(Trodden(from, acc), c)
  {
    hide Trodden;
    if c == UP && acc != [] && acc[|acc| - 1] != UP {
      var rest, last := acc[..|acc| - 1], acc[|acc| - 1];
      assert acc == rest + [last] && last in acc;
      TroddenSnoc(from, rest, last);
      assert (Trodden(from, rest) + [last])[..|Trodden(from, rest)|] == Trodden(from, rest);
    } else if c != [] && c != CURRENT {
      TroddenSnoc(from, acc, c);
    }
  }

  /** A relative text leads to the same place when it is cleaned first. */
  lemma {:induction false} CleanedTreads(from: seq<Str>, cs: seq<Str>, acc: seq<Str>)
    requires Cleaned(acc) && forall c :: c in cs ==> SEP !in c
    ensures Trodden(from, CleanComps(cs, false, acc)) == Trodden(Trodden(from, acc), cs)
  {
    hide Cleaned, CleanStep, Tread;
    if cs != [] {
      assert cs[0] in cs;
      StepStaysCleaned(acc, cs[0]);
      CleanStepTreads(from, acc, cs[0]);
      CleanedTreads(from, cs[1..], CleanStep(acc, cs[0], false));
    }
  }

  lemma StepStaysCleaned(acc: seq<Str>, c: Str)
    requires Cleaned(acc) && SEP !in c
    ensures Cleaned(CleanStep(acc, c, false))
  { }

  /** From the root the code cleans as it treads. */
  lemma {:induction false} RootedTreads(acc: seq<Str>, cs: seq<Str>)
    requires AllNames(acc) && forall c :: c in cs ==> SEP !in c
    ensures Trodden(acc, cs) == CleanComps(cs, true, acc)
    decreases |cs|
  {
    if cs != [] {
      assert cs[0] in cs;
      if acc != [] { assert acc[|acc| - 1] in acc; }
      RootedTreads(CleanStep(acc, cs[0], true), cs[1..]);
    }
  }

  lemma {:induction false} CleanConcat(a: seq<Str>, b: seq<Str>, rooted: bool, acc: seq<Str>)
    ensures CleanComps(a + b, rooted, acc) == CleanComps(b, rooted, CleanComps(a, rooted, acc))
  {
    hide CleanStep;
    if a == [] {
      assert a + b == b;
    } else {
      assert (a + b)[1..] == a[1..] + b;
      CleanConcat(a[1..], b, rooted, CleanStep(acc, a[0], rooted));
    }
  }

  /** The components of a relative path once cleaned, "." for none of them. */
  ghost function RelPath(cs: seq<Str>): Str { if cs == [] then CURRENT else JoinAll(cs) }

  lemma RelPieces(cs: seq<Str>, rooted: bool, acc: seq<Str>)
    requires Cleaned(cs)
    ensures CleanComps(Split(RelPath(cs)), rooted, acc) == CleanComps(cs, rooted, acc)
    ensures RelPath(cs) != [] && !IsAbs(RelPath(cs))
  {
    if cs == [] {
      SplitName(CURRENT);
      assert [CURRENT][1..] == [] && CleanStep(acc, CURRENT, rooted) == acc;
    } else {
      CleanedPieces(cs);
    }
  }

  lemma CleanRelPath(p: Str)
    requires !IsAbs(p)
    ensures (var cs := CleanComps(Split(p), false, []); Cleaned(cs) && Clean(p) == RelPath(cs))
  {
    CleanOutput(p);
    var cs := CleanComps(Split(p), false, []);
    if cs != [] { CleanedPieces(cs); }
  }

  lemma NamesAreCleaned(cs: seq<Str>)
    requires AllNames(cs)
    ensures Cleaned(cs)
  {
    forall i | 0 <= i < |cs| ensures cs[i] != UP { assert cs[i] in cs && IsName(cs[i]); }
  }

  lemma DirNamesAre(p: Str)
    requires Normal(p)
    ensures AllNames(DirNames(p)) && Dir(p) == RelPath(DirNames(p)) && Cleaned(DirNames(p))
  {
    hide Split, Clean, Dir;
    NormalDir(p);
    NormalParts(p);
    if LastSep(p) >= 0 {
      JoinSplit(Parent(p));
      assert Split(Parent(p)) != [] by { SplitPieces(Parent(p)); }
    }
    NamesAreCleaned(DirNames(p));
  }

  /** Joining to a relative path, and that to the root. */
  lemma JoinedTreads(ds: seq<Str>, cs: seq<Str>)
    requires Cleaned(ds) && AllNames(ds) && Cleaned(cs)
    ensures Join([SEP], Join(RelPath(ds), RelPath(cs))) == [SEP] + JoinAll(Trodden(ds, cs))
  {
    hide Trodden, Clean;
    var d, r := RelPath(ds), RelPath(cs);
    RelPieces(ds, false, []);
    RelPieces(cs, false, ds);
    SplitConcat(d, r);
    CleanConcat(Split(d), Split(r), false, []);
    CleanNames(ds, false, []);
    assert [] + ds == ds;
    var inner := d + [SEP] + r;
    assert !IsAbs(inner) by { assert inner[0] == d[0]; }
    CleanRelPath(inner);
    var m := CleanComps(Split(inner), false, []);
    assert m == CleanComps(cs, false, ds);
    assert Join(d, r) == RelPath(m);
    RootJoin(m);
    CleanedPiecesOf(cs);
    CleanedTreads([], cs, ds);
    TroddenNames([], ds);
    assert [] + ds == ds;
  }

  lemma CleanedPiecesOf(cs: seq<Str>)
    requires Cleaned(cs)
    ensures forall c :: c in cs ==> SEP !in c
  { }

  lemma {:induction false} TroddenNames(from: seq<Str>, cs: seq<Str>)
    requires AllNames(cs)
    ensures Trodden(from, cs) == from + cs
    decreases |cs|
  {
    if cs != [] {
      assert cs[0] in cs && IsName(cs[0]);
      TroddenNames(from + [cs[0]], cs[1..]);
      assert from + [cs[0]] + cs[1..] == from + cs;
    }
  }

  lemma RootJoin(m: seq<Str>)
    requires Cleaned(m)
    ensures Join([SEP], RelPath(m)) == [SEP] + JoinAll(Trodden([], m))
  {
    hide Trodden;
    var r := RelPath(m);
    var p := [SEP] + [SEP] + r;
    RelPieces(m, true, []);
    SplitConcat([], [SEP] + r);
    SplitConcat([], r);
    SplitName([]);
    assert [] + [SEP] + ([SEP] + r) == p && [] + [SEP] + r == [SEP] + r;
    assert Split(p) == [[]] + ([[]] + Split(r));
    CleanConcat([[]], [[]] + Split(r), true, []);
    CleanConcat([[]], Split(r), true, []);
    var nothing: seq<Str> := [[]];
    assert nothing[1..] == [] && CleanComps(nothing, true, []) == [];
    CleanedPiecesOf(m);
    RootedTreads([], m);
  }

  /** What the code computes for a link is where its text leads. */
  lemma LinkLeads(p: Str, text: Str)
    requires Normal(p)
    ensures (var link := Clean(text);
             TargetOf(p, text) == if IsAbs(link) then link else Join([SEP], Join(Dir(p), link)))
  {
    hide Normal, Dir, Join, Trodden, JoinAll, CleanComps;
    SplitPieces(text);
    if IsAbs(text) {
      RootedTreads([], Split(text));
    } else {
      CleanRelPath(text);
      var cs := CleanComps(Split(text), false, []);
      RelPieces(cs, false, []);
      DirNamesAre(p);
      JoinedTreads(DirNames(p), cs);
      CleanedTreads(DirNames(p), Split(text), []);
      TroddenNothing(DirNames(p));
    }
  }

  lemma TroddenNothing(from: seq<Str>)
    ensures Trodden(from, []) == from
  { }

  /** In particular a name leads to that name in the link's own directory. */
  lemma PlainTarget(ds: seq<Str>, l: Str, t: Str)
    requires AllNames(ds) && IsName(l) && IsName(t)
    ensures TargetOf(JoinAll(ds + [l]), t) == [SEP] + JoinAll(ds + [t])
  {
    hide JoinAll, Split, LastSep;
    SplitName(t);
    assert !IsAbs(t) by { assert t[0] in t; }
    DirNamesOf(ds, l);
    assert AllNames([t]);
    TroddenNames(ds, [t]);
  }

  lemma {:induction false} GlobMembers(fs: LinkFS, dir: Str, base: Str, names: seq<Str>, t: Str)
    ensures t in GlobTargets(fs, dir, base, names) <==>
              exists n :: n in names && fs.glob(base, n) && t in PlainTargets(fs, Join(dir, n))
  {
    hide Join, PlainTargets;
    if names != [] {
      var k := |names| - 1;
      GlobMembers(fs, dir, base, names[..k], t);
      assert names == names[..k] + [names[k]];
      assert forall n :: n in names <==> n in names[..k] || n == names[k];
    }
  }

  /** The path of a name in a directory given by its names. */
  lemma InDirectory(ds: seq<Str>, n: Str)
    requires AllNames(ds) && IsName(n)
    ensures Join(RelPath(ds), n) == JoinAll(ds + [n])
    ensures Dir(JoinAll(ds + [n])) == RelPath(ds) && Base(JoinAll(ds + [n])) == n
  {
    hide JoinAll, Join, Dir, Base;
    var cs := ds + [n];
    assert AllNames(cs);
    NamesAreCleaned(cs);
    StepDown(cs, |ds|);
    DirOfStep(cs, |ds|);
    assert cs[..|ds|] == ds && cs[..|ds| + 1] == cs;
  }

  /** The targets of a name with wildcards: those of the links among the names that it matches, in its own
      directory. */
  lemma WildcardTargets(fs: LinkFS, ds: seq<Str>, pattern: Str, t: Str)
    requires AllNames(ds) && IsName(pattern) && ContainsWildcards(pattern)
    requires RelPath(ds) in fs.names ==> forall n :: n in fs.names[RelPath(ds)] ==> IsName(n)
    ensures t in Targets(fs, JoinAll(ds + [pattern])) <==>
              && RelPath(ds) in fs.names
              && exists n :: n in fs.names[RelPath(ds)] && fs.glob(pattern, n) && JoinAll(ds + [n]) in fs.links &&
                             t == TargetOf(JoinAll(ds + [n]), fs.links[JoinAll(ds + [n])])
  {
    hide Join, Dir, Base, JoinAll, IsName, ContainsWildcards, TargetOf, RelPath, GlobTargets;
    InDirectory(ds, pattern);
    if RelPath(ds) in fs.names {
      var names := fs.names[RelPath(ds)];
      GlobMembers(fs, RelPath(ds), pattern, names, t);
      forall n | n in names ensures Join(RelPath(ds), n) == JoinAll(ds + [n]) { InDirectory(ds, n); }
    }
  }

  lemma DirNamesOf(ds: seq<Str>, l: Str)
    requires AllNames(ds) && IsName(l)
    ensures DirNames(JoinAll(ds + [l])) == ds
  {
    if ds == [] {
      assert ds + [l] == [l];
      JoinOne(l);
      OneComponent(l);
    } else {
      JoinAllSnoc(ds, l);
      LastSepOf(JoinAll(ds), l);
      assert Parent(JoinAll(ds + [l])) == JoinAll(ds);
      assert forall c :: c in ds ==> IsName(c);
      SplitJoin(ds);
    }
  }

  // ---------------------------------------------------------------- finitely many components

  ghost predicate Within(p: Str, comps: set<Str>) { forall c :: c in Split(p) ==> c in comps }

  /** Every component that resolving can come across. */
  ghost predicate Covers(fs: LinkFS, comps: set<Str>)
  {
    && UP in comps && CURRENT in comps && [] in comps
    && (forall p :: p in fs.links ==> Within(fs.links[p], comps))
    && (forall d, n :: d in fs.names && n in fs.names[d] ==> Within(n, comps))
  }

  lemma {:induction false} CleanCompsWithin(cs: seq<Str>, rooted: bool, acc: seq<Str>, comps: set<Str>)
    requires UP in comps && (forall c :: c in cs ==> c in comps) && (forall c :: c in acc ==> c in comps)
    ensures forall c :: c in CleanComps(cs, rooted, acc) ==> c in comps
  {
    if cs != [] {
      assert cs[0] in cs;
      CleanCompsWithin(cs[1..], rooted, CleanStep(acc, cs[0], rooted), comps);
    }
  }

  lemma WithinClean(p: Str, comps: set<Str>)
    requires UP in comps && CURRENT in comps && [] in comps && Within(p, comps)
    ensures Within(Clean(p), comps)
  {
    var cs := CleanComps(Split(p), IsAbs(p), []);
    var out := JoinAll(cs);
    CleanCompsWithin(Split(p), IsAbs(p), [], comps);
    SplitName(CURRENT);
    SplitName([]);
    CleanOutput(p);
    if cs != [] { CleanedPieces(cs); }
    assert [] + [SEP] + out == [SEP] + out;
    SplitConcat([], out);
  }

  lemma WithinJoin(a: Str, b: Str, comps: set<Str>)
    requires UP in comps && CURRENT in comps && [] in comps && Within(a, comps) && Within(b, comps)
    ensures Within(Join(a, b), comps)
  {
    SplitName([]);
    if a != [] && b != [] {
      SplitConcat(a, b);
      WithinClean(a + [SEP] + b, comps);
    } else if a != [] {
      WithinClean(a, comps);
    } else if b != [] {
      WithinClean(b, comps);
    }
  }

  lemma TrailingSep(d: Str)
    ensures Split(d + [SEP]) == Split(d) + [[]]
  {
    assert d + [SEP] + [] == d + [SEP];
    SplitConcat(d, []);
    SplitName([]);
  }

  /** The part of a path before its last name, separator included. */
  lemma DirPart(p: Str)
    ensures LastSep(p) >= 0 ==> p[..LastSep(p) + 1] == Parent(p) + [SEP] && Split(p) == Split(Parent(p)) + [Name(p)]
    ensures LastSep(p) < 0 ==> p[..LastSep(p) + 1] == []
  {
    hide Split;
    SplitParent(p);
    LastSepSplits(p);
  }

  lemma WithinDir(p: Str, comps: set<Str>)
    requires UP in comps && CURRENT in comps && [] in comps && Within(p, comps)
    ensures Within(Dir(p), comps)
  {
    hide Split, Clean, LastSep, Parent;
    var d := p[..LastSep(p) + 1];
    DirPart(p);
    SplitName([]);
    if LastSep(p) >= 0 { TrailingSep(Parent(p)); }
    WithinClean(d, comps);
  }

  lemma PlainWithin(fs: LinkFS, p: Str, comps: set<Str>)
    requires Covers(fs, comps) && Within(p, comps)
    ensures forall t :: t in PlainTargets(fs, p) ==> Within(t, comps)
  {
    if p in fs.links { TargetWithin(p, fs.links[p], comps); }
  }

  lemma {:induction false} TroddenWithin(from: seq<Str>, cs: seq<Str>, comps: set<Str>)
    requires (forall c :: c in from ==> c in comps) && (forall c :: c in cs ==> c in comps)
    ensures forall c :: c in Trodden(from, cs) ==> c in comps
    decreases |cs|
  {
    if cs != [] {
      assert cs[0] in cs;
      TroddenWithin(Tread(from, cs[0]), cs[1..], comps);
    }
  }

  lemma {:induction false} TroddenPieces(from: seq<Str>, cs: seq<Str>)
    requires (forall c :: c in from ==> SEP !in c) && (forall c :: c in cs ==> SEP !in c)
    ensures forall c :: c in Trodden(from, cs) ==> SEP !in c
    decreases |cs|
  {
    if cs != [] {
      assert cs[0] in cs;
      TroddenPieces(Tread(from, cs[0]), cs[1..]);
    }
  }

  lemma TargetWithin(p: Str, text: Str, comps: set<Str>)
    requires [] in comps && Within(p, comps) && Within(text, comps)
    ensures Within(TargetOf(p, text), comps)
  {
    hide JoinAll, Trodden, Parent, LastSep;
    var from := if IsAbs(text) then [] else DirNames(p);
    var cs := Trodden(from, Split(text));
    DirPart(p);
    SplitPieces(text);
    SplitPieces(Parent(p));
    assert forall c :: c in DirNames(p) ==> c in Split(p);
    TroddenWithin(from, Split(text), comps);
    TroddenPieces(from, Split(text));
    if cs == [] { SplitName([]); EmptyJoin(); } else { SplitJoin(cs); }
    SplitConcat([], JoinAll(cs));
    SplitName([]);
    assert [] + [SEP] + JoinAll(cs) == [SEP] + JoinAll(cs);
  }

  lemma EmptyJoin()
    ensures JoinAll([]) == []
  { }


  lemma {:induction false} GlobWithin(fs: LinkFS, dir: Str, base: Str, names: seq<Str>, comps: set<Str>)
    requires Covers(fs, comps) && Within(dir, comps) && forall n :: n in names ==> Within(n, comps)
    ensures forall t :: t in GlobTargets(fs, dir, base, names) ==> Within(t, comps)
  {
    hide Join, Within, PlainTargets;
    if names != [] {
      var n := |names| - 1;
      GlobWithin(fs, dir, base, names[..n], comps);
      WithinJoin(dir, names[n], comps);
      PlainWithin(fs, Join(dir, names[n]), comps);
    }
  }

  lemma TargetsWithin(fs: LinkFS, p: Str, comps: set<Str>)
    requires Covers(fs, comps) && Within(p, comps)
    ensures forall t :: t in Targets(fs, p) ==> Within(t, comps)
  {
    hide Dir, Base, Within, PlainTargets, GlobTargets;
    PlainWithin(fs, p, comps);
    WithinDir(p, comps);
    if Dir(p) in fs.names { GlobWithin(fs, Dir(p), Base(p), fs.names[Dir(p)], comps); }
  }

  function Below(d: Str, c: Str): Str { if d == CURRENT then c else d + [SEP] + c }

  /** The paths that can have targets: finitely many. */
  ghost function Expandable(fs: LinkFS, comps: set<Str>): set<Str>
  {
    fs.links.Keys + set d, c | d in fs.names.Keys && c in comps :: Below(d, c)
  }

  /** The components of a relative clean path: ".", or a cleaned list. */
  ghost predicate Steps(cs: seq<Str>) { cs == [CURRENT] || (cs != [] && Cleaned(cs)) }

  lemma StepsDown(cs: seq<Str>, k: nat)
    requires Steps(cs) && k < |cs|
    ensures Join(UpTo(cs, k), cs[k]) == UpTo(cs, k + 1)
  {
    if cs == [CURRENT] {
      CleanShort(CURRENT);
      SplitConcat(CURRENT, CURRENT);
      SplitName(CURRENT);
      var p := CURRENT + [SEP] + CURRENT;
      assert Split(p) == [CURRENT, CURRENT];
      assert [CURRENT, CURRENT][1..] == [CURRENT] && [CURRENT][1..] == [];
      assert CleanComps([], false, []) == [];
      assert cs[..1] == cs;
    } else {
      StepDown(cs, k);
    }
  }

  /** "." has no targets. */
  lemma CurrentHasNoTargets(fs: LinkFS)
    requires ProperFS(fs)
    ensures Targets(fs, CURRENT) == []
  {
    OneComponent(CURRENT);
    SplitName(CURRENT);
    assert CURRENT in [CURRENT];
    assert CURRENT[1..] == [] && !ContainsWildcards([]);
    assert !ContainsWildcards(CURRENT);
  }

  lemma LinksExpandable(fs: LinkFS, comps: set<Str>, p: Str)
    requires p in fs.links
    ensures p in Expandable(fs, comps)
  { }

  lemma NamesExpandable(fs: LinkFS, comps: set<Str>, d: Str, c: Str)
    requires d in fs.names && c in comps
    ensures Below(d, c) in Expandable(fs, comps)
  { }

  lemma BelowStep(cs: seq<Str>, k: nat)
    requires Cleaned(cs) && k < |cs|
    ensures UpTo(cs, k + 1) == Below(UpTo(cs, k), cs[k])
  {
    hide Split;
    assert cs[..k + 1] == cs[..k] + [cs[k]];
    if k > 0 {
      JoinAllSnoc(cs[..k], cs[k]);
      CleanedPrefix(cs, k);
      CleanedPieces(cs[..k]);
      SplitName(CURRENT);
      assert cs[..k][0] in cs[..k];
    }
  }

  lemma TargetsAreKnown(fs: LinkFS, cs: seq<Str>, k: nat, comps: set<Str>)
    requires ProperFS(fs) && Steps(cs) && k < |cs| && (forall c :: c in cs ==> c in comps)
    requires Targets(fs, UpTo(cs, k + 1)) != []
    ensures UpTo(cs, k + 1) in Expandable(fs, comps)
  {
    hide GlobTargets, TargetOf, Expandable, Cleaned, Dir, Base, ContainsWildcards, Below, ProperFS;
    assert cs[..|cs|] == cs;
    CurrentHasNoTargets(fs);
    if cs != [CURRENT] {
      DirOfStep(cs, k);
      BelowStep(cs, k);
      if UpTo(cs, k + 1) in fs.links {
        LinksExpandable(fs, comps, UpTo(cs, k + 1));
      } else {
        assert cs[k] in cs;
        NamesExpandable(fs, comps, UpTo(cs, k), cs[k]);
      }
    }
  }

  lemma TopHasNoAncestors(cs: seq<Str>, a: Str)
    requires Steps(cs)
    ensures !Under(UpTo(cs, 1), a)
  {
    assert cs[..1] == [cs[0]];
    if cs != [CURRENT] {
      CleanedPieces(cs);
      assert cs[0] in cs;
    }
    assert SEP !in UpTo(cs, 1);
    if Under(UpTo(cs, 1), a) { HasSepAt(UpTo(cs, 1), a); }
  }

  /** The ancestors of the path of k components are the shorter paths. */
  lemma {:induction false} Ancestors(cs: seq<Str>, k: nat, a: Str) returns (j: nat)
    requires Steps(cs) && 0 < k <= |cs| && Under(UpTo(cs, k), a)
    ensures 0 < j < k && a == UpTo(cs, j)
  {
    hide Cleaned, Split, JoinAll;
    TopHasNoAncestors(cs, a);
    var p := UpTo(cs, k);
    var d := cs[..k - 1];
    CleanedPrefix(cs, k);
    CleanedPrefix(cs, k - 1);
    CleanedPieces(cs[..k]);
    assert cs[..k] == d + [cs[k - 1]] && cs[k - 1] in cs[..k];
    JoinAllSnoc(d, cs[k - 1]);
    AncestorAbove(p, JoinAll(d), cs[k - 1], a);
    if a == JoinAll(d) { j := k - 1; } else { j := Ancestors(cs, k - 1, a); }
  }

  lemma HasSepAt(p: Str, a: Str)
    requires Under(p, a)
    ensures SEP in p
  {
    assert p[|a|] == SEP;
  }

  lemma AncestorAbove(p: Str, d: Str, c: Str, a: Str)
    requires p == d + [SEP] + c && SEP !in c && Under(p, a)
    ensures a == d || Under(d, a)
  {
    assert p[|a|] == SEP;
    assert forall j :: |d| < j < |p| ==> p[j] == c[j - |d| - 1];
    assert a == p[..|a|];
    if |a| < |d| { assert d == p[..|d|] && d[..|a| + 1] == a + [SEP]; } else { assert d == p[..|d|]; }
  }

  // ---------------------------------------------------------------- one path

  /** The components the loop walks through. */
  function StepsOf(path: Str): seq<Str> { Split(Join(CURRENT, path)) }

  /** From k components on: how far the loop goes, to the first path with targets or to the end. */
  function StopAt(fs: LinkFS, cs: seq<Str>, k: nat): (n: nat)
    requires k <= |cs|
    ensures k <= n <= |cs|
    decreases |cs| - k
  {
    if k == |cs| || Targets(fs, UpTo(cs, k)) != [] then k else StopAt(fs, cs, k + 1)
  }

  function StopLen(fs: LinkFS, path: Str): (n: nat)
    ensures 0 < n <= |StepsOf(path)|
  {
    StopAt(fs, StepsOf(path), 1)
  }

  /** Where the loop stops: at the first link on the way, or at the end. */
  function Stop(fs: LinkFS, path: Str): Str { UpTo(StepsOf(path), StopLen(fs, path)) }

  /** What is left of the path there. */
  function Remainder(fs: LinkFS, path: Str): Str { JoinAll(StepsOf(path)[StopLen(fs, path)..]) }

  function JoinEach(targets: seq<Str>, rest: Str): seq<Str>
  {
    seq(|targets|, i requires 0 <= i < |targets| => Join(targets[i], rest))
  }

  /** What the path leads on to: the remainder behind every target. */
  function Onward(fs: LinkFS, path: Str): seq<Str> { JoinEach(Targets(fs, Stop(fs, path)), Remainder(fs, path)) }

  /** Nothing above the path has targets of its own. */
  ghost predicate Settled(fs: LinkFS, p: Str) { forall a :: Under(p, a) ==> Targets(fs, a) == [] }

  lemma StartSteps(path: Str)
    ensures Steps(StepsOf(path))
    ensures forall comps :: UP in comps && CURRENT in comps && Within(path, comps) ==>
              forall c :: c in StepsOf(path) ==> c in comps
  {
    hide CleanComps;
    var r := Relativised(path);
    forall comps | UP in comps && CURRENT in comps && Within(path, comps)
      ensures forall c :: c in StepsOf(path) ==> c in comps
    {
      CleanCompsWithin(Split(path), false, [], comps);
      SplitName(CURRENT);
      if r != [] { CleanedPieces(r); }
    }
    SplitName(CURRENT);
    if r != [] { CleanedPieces(r); }
  }

  lemma StartUp(cs: seq<Str>)
    requires Steps(cs)
    ensures |cs| > 0 && cs[0..] == cs && UpTo(cs, 0) == CURRENT
  { }

  lemma UpToRelative(cs: seq<Str>, k: nat)
    requires Steps(cs) && 0 < k <= |cs|
    ensures UpTo(cs, k) != [] && !IsAbs(UpTo(cs, k))
  {
    if cs == [CURRENT] {
      assert cs[..k] == cs;
    } else {
      CleanedPrefix(cs, k);
      CleanedPieces(cs[..k]);
    }
  }

  lemma {:induction false} NoTargetsBefore(fs: LinkFS, cs: seq<Str>, k: nat, j: nat)
    requires k <= |cs| && k <= j < StopAt(fs, cs, k)
    ensures Targets(fs, UpTo(cs, j)) == []
    decreases j - k
  {
    hide Targets, UpTo;
    if k < j { NoTargetsBefore(fs, cs, k + 1, j); }
  }

  lemma {:induction false} StopsSomewhere(fs: LinkFS, cs: seq<Str>, k: nat)
    requires k <= |cs|
    ensures StopAt(fs, cs, k) == |cs| || Targets(fs, UpTo(cs, StopAt(fs, cs, k))) != []
    decreases |cs| - k
  {
    hide Targets, UpTo;
    if k < |cs| { StopsSomewhere(fs, cs, k + 1); }
  }

  /** The loop stops at a relative path, above which nothing is a link. */
  lemma StopIsSettled(fs: LinkFS, path: Str)
    ensures Settled(fs, Stop(fs, path)) && Stop(fs, path) != [] && !IsAbs(Stop(fs, path))
  {
    hide Targets, UpTo, StopAt, StepsOf, Under, IsAbs;
    var cs, n := StepsOf(path), StopLen(fs, path);
    StartSteps(path);
    UpToRelative(cs, n);
    forall a | Under(UpTo(cs, n), a) ensures Targets(fs, a) == [] {
      var j := Ancestors(cs, n, a);
      NoTargetsBefore(fs, cs, 1, j);
    }
  }

  lemma StepsPieces(cs: seq<Str>)
    requires Steps(cs)
    ensures forall c :: c in cs ==> SEP !in c
  {
    if cs != [CURRENT] { CleanedPieces(cs); }
  }

  lemma EmptyCovered(fs: LinkFS, comps: set<Str>)
    requires Covers(fs, comps)
    ensures [] in comps && UP in comps && CURRENT in comps
  { }

  lemma PartsWithin(cs: seq<Str>, comps: set<Str>)
    requires (forall c :: c in cs ==> c in comps && SEP !in c) && [] in comps
    ensures Within(JoinAll(cs), comps)
  {
    if cs == [] { SplitName([]); } else { SplitJoin(cs); }
  }

  lemma JoinEachWithin(targets: seq<Str>, rest: Str, comps: set<Str>)
    requires UP in comps && CURRENT in comps && [] in comps && Within(rest, comps)
    requires forall t :: t in targets ==> Within(t, comps)
    ensures forall q :: q in JoinEach(targets, rest) ==> Within(q, comps)
  {
    hide Within, Join;
    forall i | 0 <= i < |targets| ensures Within(JoinEach(targets, rest)[i], comps) {
      WithinJoin(targets[i], rest, comps);
    }
  }

  /** Resolving never leaves the known components. */
  lemma OnwardWithin(fs: LinkFS, path: Str, comps: set<Str>)
    requires Covers(fs, comps) && Within(path, comps)
    ensures forall q :: q in Onward(fs, path) ==> Within(q, comps)
  {
    hide Targets, Join, Covers, Within, StepsOf, StopLen, JoinEach, Steps, JoinAll;
    var cs, n := StepsOf(path), StopLen(fs, path);
    EmptyCovered(fs, comps);
    StartSteps(path);
    StepsPieces(cs);
    assert (forall c :: c in cs[..n] ==> c in cs) && (forall c :: c in cs[n..] ==> c in cs);
    PartsWithin(cs[..n], comps);
    PartsWithin(cs[n..], comps);
    TargetsWithin(fs, UpTo(cs, n), comps);
    JoinEachWithin(Targets(fs, Stop(fs, path)), Remainder(fs, path), comps);
  }

  lemma StopExpandable(fs: LinkFS, path: Str, comps: set<Str>)
    requires ProperFS(fs) && Covers(fs, comps) && Within(path, comps) && Targets(fs, Stop(fs, path)) != []
    ensures Stop(fs, path) in Expandable(fs, comps)
  {
    hide Targets, Within, StepsOf, StopLen, Steps, Expandable, ProperFS;
    EmptyCovered(fs, comps);
    StartSteps(path);
    TargetsAreKnown(fs, StepsOf(path), StopLen(fs, path) - 1, comps);
  }

  // ---------------------------------------------------------------- reference

  /** What has been resolved, and with which remainder each link among it was followed. */
  datatype Trail = Trail(resolved: set<Str>, follows: map<Str, Str>)

  /** One path: nothing more is done where a path stops that is resolved already. */
  ghost function Appended(fs: LinkFS, comps: set<Str>, path: Str, tr: Trail): (r: Trail)
    requires ProperFS(fs) && Covers(fs, comps) && Within(path, comps)
    ensures tr.resolved <= r.resolved
    decreases Expandable(fs, comps) - tr.resolved, 1, 0
  {
    var p := Stop(fs, path);
    if p in tr.resolved then tr
    else if Targets(fs, p) == [] then Trail(tr.resolved + {p}, tr.follows)
    else
      OnwardWithin(fs, path, comps);
      StopExpandable(fs, path, comps);
      AppendedAll(fs, comps, Onward(fs, path), Trail(tr.resolved + {p}, tr.follows[p := Remainder(fs, path)]))
  }

  ghost function AppendedAll(fs: LinkFS, comps: set<Str>, paths: seq<Str>, tr: Trail): (r: Trail)
    requires ProperFS(fs) && Covers(fs, comps) && forall q :: q in paths ==> Within(q, comps)
    ensures tr.resolved <= r.resolved
    decreases Expandable(fs, comps) - tr.resolved, 2, |paths|
  {
    if paths == [] then tr
    else
      var n := |paths| - 1;
      Appended(fs, comps, paths[n], AppendedAll(fs, comps, paths[..n], tr))
  }

  lemma AppendedAllSnoc(fs: LinkFS, comps: set<Str>, paths: seq<Str>, q: Str, tr: Trail)
    requires ProperFS(fs) && Covers(fs, comps) && (forall p :: p in paths ==> Within(p, comps)) && Within(q, comps)
    ensures (AppendedAll(fs, comps, paths + [q], tr)
             == Appended(fs, comps, q, AppendedAll(fs, comps, paths, tr)))
  {
    assert (paths + [q])[..|paths|] == paths;
  }

  // ---------------------------------------------------------------- the resolver

  class SymlinkResolver {
    const fs: LinkFS
    var resolved: set<Str>
    ghost const comps: set<Str>
    ghost var follows: map<Str, Str>  // the links followed, each with its remainder
    ghost var expanded: seq<Str>  // the same links, in the order they were followed

    ghost predicate Valid()
      reads this
    {
      && ProperFS(fs) && Covers(fs, comps)
      && (forall r :: r in resolved ==> Settled(fs, r) && !IsAbs(r))
      && (forall i, j :: 0 <= i < j < |expanded| ==> expanded[i] != expanded[j])
      && (forall r :: r in expanded <==> r in resolved && Targets(fs, r) != [])
      && (forall r :: r in expanded <==> r in follows)
    }

    ghost function Trace(): Trail
      reads this
    {
      Trail(resolved, follows)
    }

    constructor (fs: LinkFS, ghost comps: set<Str>)
      requires ProperFS(fs) && Covers(fs, comps)
      ensures Valid() && this.fs == fs && this.comps == comps && Trace() == Trail({}, map[]) && expanded == []
    {
      this.fs, this.comps, resolved, follows, expanded := fs, comps, {}, map[], [];
    }

    /** Resolves one path. Ends on every file system: each recursive call has one more of the finitely
        many expandable paths behind it. */
    method Append(path: Str)
      requires Valid() && Within(path, comps)
      modifies this
      ensures Valid() && old(resolved) <= resolved && old(expanded) <= expanded
      ensures Trace() == Appended(fs, comps, path, old(Trace()))
      decreases Expandable(fs, comps) - resolved, 1
    {
      hide Clean, Cleaned, Join, Targets, Settled, Covers, ProperFS, Expandable, Within, Steps, JoinAll, UpTo, IsAbs,
           StepsOf, StopLen, AppendedAll;
      ghost var cs, n := StepsOf(path), StopLen(fs, path);
      var rest := Split(Join(CURRENT, path));
      var current := CURRENT;
      ghost var k := 0;
      StartSteps(path);
      StepsMeaning(path);
      StartUp(cs);
      FirstStop(fs, path);
      StopIsSettled(fs, path);
      while true
        invariant 0 <= k < |cs| && rest == cs[k..] && current == UpTo(cs, k)
        invariant Valid() && resolved == old(resolved) && expanded == old(expanded) && follows == old(follows)
        invariant n == StopAt(fs, cs, k + 1)
        decreases |rest|
      {
        StepsDown(cs, k);
        current := Join(current, rest[0]);
        var targets := ReadSymlink(fs, current);
        rest := rest[1..];
        k := k + 1;
        if rest == [] || targets != [] {
          assert n == k && current == Stop(fs, path);
          if current in resolved {
            return;
          }
        }
        if targets != [] {
          StopExpandable(fs, path, comps);
          OnwardWithin(fs, path, comps);
          resolved := resolved + {current};
          expanded := expanded + [current];
          follows := follows[current := JoinAll(rest)];
          FollowAll(targets, JoinAll(rest));
          return;
        }
        if rest == [] {
          resolved := resolved + {current};
          return;
        }
      }
    }

    /** Follows every target with what is left of the path. */
    method FollowAll(targets: seq<Str>, rest: Str)
      requires Valid() && forall q :: q in JoinEach(targets, rest) ==> Within(q, comps)
      modifies this
      ensures Valid() && old(resolved) <= resolved && old(expanded) <= expanded
      ensures Trace() == AppendedAll(fs, comps, JoinEach(targets, rest), old(Trace()))
      decreases Expandable(fs, comps) - resolved, 2
    {
      hide Clean, Cleaned, Join, Targets, Settled, Covers, ProperFS, Expandable, Within, Appended;
      ghost var all := JoinEach(targets, rest);
      for i := 0 to |targets|
        invariant Valid() && old(resolved) <= resolved && old(expanded) <= expanded
        invariant Trace() == AppendedAll(fs, comps, all[..i], old(Trace()))
      {
        assert all[i] in all && all[..i + 1] == all[..i] + [all[i]];
        AppendedAllSnoc(fs, comps, all[..i], all[i], old(Trace()));
        Append(Join(targets[i], rest));
      }
      assert all[..|targets|] == all;
    }
  }

  lemma StepsMeaning(path: Str)
    ensures StepsOf(path) == Split(Join(CURRENT, path))
  { }

  lemma FirstStop(fs: LinkFS, path: Str)
    ensures StopLen(fs, path) == StopAt(fs, StepsOf(path), 1)
  { }
}
