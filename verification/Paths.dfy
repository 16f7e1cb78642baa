/** Path strings: splitting, lexical cleaning, and the order of a tree walk.
    The separator is the one byte SEP; every function is total on byte strings. */
module Paths {
  import opened Bytes

  const SEP: byte := 47
  const DOT: byte := 46

  const CURRENT: Str := [DOT]
  const UP: Str := [DOT, DOT]

  // ---------------------------------------------------------------- components

  /** strings.Split(p, "/"), which is never empty. */
  function Split(p: Str): (cs: seq<Str>)
    ensures cs != []
  {
    if p == [] then [[]]
    else
      var r := Split(p[1..]);
      if p[0] == SEP then [[]] + r else OntoFirst(p[0], r)
  }

  function OntoFirst(b: byte, cs: seq<Str>): seq<Str>
    requires cs != []
  {
    [[b] + cs[0]] + cs[1..]
  }

  /** No component holds a separator. */
  lemma {:induction false} SplitPieces(p: Str)
    ensures forall c :: c in Split(p) ==> SEP !in c
    ensures p != [] && p[0] == SEP ==> Split(p)[0] == []
    ensures p != [] && p[0] != SEP ==> Split(p)[0] != []
  {
    if p != [] { SplitPieces(p[1..]); }
  }

  /** strings.Join(cs, "/"). */
  function JoinAll(cs: seq<Str>): Str
  {
    if cs == [] then [] else if |cs| == 1 then cs[0] else cs[0] + [SEP] + JoinAll(cs[1..])
  }

  lemma {:induction false} JoinSplit(p: Str)
    ensures JoinAll(Split(p)) == p
  {
    if p != [] {
      JoinSplit(p[1..]);
      var r := Split(p[1..]);
      if p[0] == SEP {
        assert ([[]] + r)[1..] == r;
      } else {
        assert ([[p[0]] + r[0]] + r[1..])[1..] == r[1..];
      }
    }
  }

  lemma {:induction false} SplitName(c: Str)
    requires SEP !in c
    ensures Split(c) == [c]
  {
    if c != [] {
      SplitName(c[1..]);
      assert [c[0]] + c[1..] == c;
    }
  }

  lemma OntoFirstConcat(b: byte, cs: seq<Str>, ds: seq<Str>)
    requires cs != []
    ensures OntoFirst(b, cs) + ds == OntoFirst(b, cs + ds)
  {
    assert (cs + ds)[0] == cs[0] && (cs + ds)[1..] == cs[1..] + ds;
  }

  lemma {:induction false} SplitConcat(a: Str, b: Str)
    ensures Split(a + [SEP] + b) == Split(a) + Split(b)
  {
    var p := a + [SEP] + b;
    if a == [] {
      assert p[1..] == b;
    } else {
      SplitConcat(a[1..], b);
      assert p[1..] == a[1..] + [SEP] + b && p[0] == a[0];
      if a[0] == SEP {
        assert Split(p) == [[]] + (Split(a[1..]) + Split(b));
      } else {
        assert Split(p) == OntoFirst(a[0], Split(a[1..]) + Split(b));
        OntoFirstConcat(a[0], Split(a[1..]), Split(b));
      }
    }
  }

  lemma {:induction false} SplitJoin(cs: seq<Str>)
    requires cs != [] && forall c :: c in cs ==> SEP !in c
    ensures Split(JoinAll(cs)) == cs
  {
    SplitName(cs[0]);
    if |cs| > 1 {
      SplitConcat(cs[0], JoinAll(cs[1..]));
      SplitJoin(cs[1..]);
    }
  }

  // ---------------------------------------------------------------- path/filepath

  predicate IsAbs(p: Str) { p != [] && p[0] == SEP }

  /** One step of filepath.Clean's lexical processing: drop "" and ".", let ".."
      cancel the component before it, keep a leading ".." unless rooted. */
  function CleanStep(acc: seq<Str>, c: Str, rooted: bool): seq<Str>
  {
    if c == [] || c == CURRENT then acc
    else if c != UP then acc + [c]
    else if acc != [] && acc[|acc| - 1] != UP then acc[..|acc| - 1]
    else if rooted then acc
    else acc + [UP]
  }

  function CleanComps(cs: seq<Str>, rooted: bool, acc: seq<Str>): seq<Str>
  {
    if cs == [] then acc else CleanComps(cs[1..], rooted, CleanStep(acc, cs[0], rooted))
  }

  /** filepath.Clean. */
  function Clean(p: Str): Str
  {
    var out := JoinAll(CleanComps(Split(p), IsAbs(p), []));
    if IsAbs(p) then [SEP] + out else if out == [] then CURRENT else out
  }

  /** Index of the last separator among the first n bytes, or -1. */
  function LastSepIn(p: Str, n: nat): (i: int)
    requires n <= |p|
    ensures -1 <= i < n
  {
    if n == 0 then -1 else if p[n - 1] == SEP then n - 1 else LastSepIn(p, n - 1)
  }

  /** Index of the last separator, or -1. */
  function LastSep(p: Str): (i: int)
    ensures -1 <= i < |p|
  {
    LastSepIn(p, |p|)
  }

  lemma {:induction false} LastSepInSplits(p: Str, n: nat)
    requires n <= |p|
    ensures LastSepIn(p, n) >= 0 ==> p[LastSepIn(p, n)] == SEP
    ensures forall j :: LastSepIn(p, n) < j < n ==> p[j] != SEP
  {
    if n > 0 && p[n - 1] != SEP { LastSepInSplits(p, n - 1); }
  }

  lemma LastSepSplits(p: Str)
    ensures LastSep(p) >= 0 ==> p[LastSep(p)] == SEP
    ensures forall j :: LastSep(p) < j < |p| ==> p[j] != SEP
  {
    LastSepInSplits(p, |p|);
  }

  /** filepath.Dir. */
  function Dir(p: Str): Str { Clean(p[..LastSep(p) + 1]) }

  function TrimSeps(p: Str): Str
  {
    if p != [] && p[|p| - 1] == SEP then TrimSeps(p[..|p| - 1]) else p
  }

  /** filepath.Base. */
  function Base(p: Str): Str
  {
    if p == [] then CURRENT
    else
      var t := TrimSeps(p);
      if t == [] then [SEP] else t[LastSep(t) + 1..]
  }

  /** filepath.Join of two elements. */
  function Join(a: Str, b: Str): Str
  {
    if a == [] && b == [] then []
    else if a == [] then Clean(b)
    else if b == [] then Clean(a)
    else Clean(a + [SEP] + b)
  }

  // ---------------------------------------------------------------- normal paths

  predicate IsName(c: Str) { c != [] && c != CURRENT && c != UP && SEP !in c }

  predicate AllNames(cs: seq<Str>) { forall c :: c in cs ==> IsName(c) }

  /** A relative path whose components are all proper names. */
  predicate Normal(p: Str) { AllNames(Split(p)) }

  /** What names something in a tree: a proper path, or "." for its root. */
  predicate Acceptable(p: Str) { Normal(p) || p == CURRENT }

  /** The parent directory, "" for a top-level path. */
  function Parent(p: Str): Str { if LastSep(p) < 0 then [] else p[..LastSep(p)] }

  function Name(p: Str): Str { p[LastSep(p) + 1..] }

  lemma {:induction false} CleanNames(cs: seq<Str>, rooted: bool, acc: seq<Str>)
    requires AllNames(cs)
    ensures CleanComps(cs, rooted, acc) == acc + cs
  {
    if cs != [] {
      assert cs[0] in cs && IsName(cs[0]);
      CleanNames(cs[1..], rooted, acc + [cs[0]]);
      assert acc + [cs[0]] + cs[1..] == acc + cs;
    }
  }

  /** A cleaned component list: leading ".." entries, then proper names. */
  predicate Cleaned(cs: seq<Str>)
  {
    && (forall c :: c in cs ==> IsName(c) || c == UP)
    && (forall i :: 0 < i < |cs| && cs[i] == UP ==> cs[i - 1] == UP)
  }

  lemma {:induction false} CleanCompsCleaned(cs: seq<Str>, rooted: bool, acc: seq<Str>)
    requires Cleaned(acc) && forall c :: c in cs ==> SEP !in c
    ensures Cleaned(CleanComps(cs, rooted, acc))
  {
    if cs != [] {
      assert cs[0] in cs;
      CleanCompsCleaned(cs[1..], rooted, CleanStep(acc, cs[0], rooted));
    }
  }

  lemma NormalRelative(p: Str)
    requires Normal(p)
    ensures p != [] && p[0] != SEP
  {
    SplitPieces(p);
    assert Split(p)[0] in Split(p);
  }

  lemma NormalIsClean(p: Str)
    requires Normal(p)
    ensures Clean(p) == p
  {
    NormalRelative(p);
    CleanNames(Split(p), IsAbs(p), []);
    JoinSplit(p);
    assert [] + Split(p) == Split(p);
  }

  /** The three textual checks of the validator: unclean, absolute, escaping. */
  predicate EscapeCheck(p: Str, dir: Str)
  {
    p == UP || dir == UP || UP + [SEP] <= p
  }

  predicate Escapes(p: Str) { EscapeCheck(p, Dir(p)) }

  lemma CleanShort(p: Str)
    requires p == [] || p == CURRENT
    ensures Clean(p) == CURRENT
  {
    SplitName(p);
    assert Split(p)[1..] == [];
    assert CleanComps(Split(p)[1..], false, []) == [];
  }

  lemma {:induction false} NameHasNoSep(c: Str, n: nat)
    requires n <= |c| && SEP !in c
    ensures LastSepIn(c, n) == -1
  {
    if n > 0 { NameHasNoSep(c, n - 1); }
  }

  lemma OneComponent(c: Str)
    requires c != [] && SEP !in c
    ensures LastSep(c) == -1 && Dir(c) == CURRENT && Base(c) == c && Join([], c) == Clean(c)
  {
    NameHasNoSep(c, |c|);
    assert c[..0] == [] && c[0..] == c;
    CleanShort(c[..0]);
    BaseIsName(c);
  }

  lemma NotNormal(p: Str, c: Str)
    requires !IsName(c) && SEP !in c && (p == c || c + [SEP] <= p)
    ensures !Normal(p)
  {
    SplitName(c);
    if p != c {
      var rest := p[|c| + 1..];
      assert p == c + [SEP] + rest;
      SplitConcat(c, rest);
    }
    assert Split(p)[0] == c && c in Split(p);
  }

  lemma NormalPasses(p: Str)
    requires Normal(p)
    ensures p == Clean(p) && !IsAbs(p) && !Escapes(p)
  {
    NormalIsClean(p);
    NormalRelative(p);
    NormalDir(p);
    NormalParts(p);
    assert !IsName(UP) && SEP !in UP;
    if p == UP || UP + [SEP] <= p { NotNormal(p, UP); }
    if Dir(p) == UP { NotNormal(Dir(p), UP); }
  }

  lemma UpFirstEscapes(cs: seq<Str>)
    requires cs != [] && cs[0] == UP
    ensures Escapes(JoinAll(cs))
  {
    if |cs| > 1 {
      assert JoinAll(cs) == UP + [SEP] + JoinAll(cs[1..]);
    }
  }

  lemma CleanedIsNormal(p: Str, out: seq<Str>)
    requires Cleaned(out) && out != [] && JoinAll(out) == p && !Escapes(p)
    ensures Normal(p)
  {
    SplitJoin(out);
    if out[0] == UP {
      UpFirstEscapes(out);
    }
    NoUpAfterName(out, |out|);
  }

  lemma CleanOutput(p: Str)
    ensures Cleaned(CleanComps(Split(p), IsAbs(p), []))
  {
    SplitPieces(p);
    CleanCompsCleaned(Split(p), IsAbs(p), []);
  }

  lemma PassingIsNormal(p: Str)
    requires p == Clean(p) && !IsAbs(p) && !Escapes(p) && p != CURRENT
    ensures Normal(p)
  {
    CleanOutput(p);
    CleanedIsNormal(p, CleanComps(Split(p), false, []));
  }

  lemma OneByteStays(c: Str, dir: Str)
    requires |c| == 1 && |dir| == 1
    ensures !EscapeCheck(c, dir)
  { }

  /** What passes those checks is exactly the normal paths and ".". */
  lemma CleanRelative(p: Str)
    ensures p == Clean(p) && !IsAbs(p) && !Escapes(p) <==> Normal(p) || p == CURRENT
  {
    if p == CURRENT {
      CleanShort(p);
      OneComponent(p);
      OneByteStays(p, Dir(p));
    } else if Normal(p) {
      NormalPasses(p);
    } else if p == Clean(p) && !IsAbs(p) && !Escapes(p) {
      PassingIsNormal(p);
    }
  }

  lemma {:induction false} NoUpAfterName(cs: seq<Str>, n: nat)
    requires Cleaned(cs) && cs != [] && cs[0] != UP && n <= |cs|
    ensures forall i :: 0 <= i < n ==> cs[i] != UP
  {
    if n > 1 {
      NoUpAfterName(cs, n - 1);
      assert cs[n - 2] != UP;
    }
  }

  lemma ParentAndName(p: Str)
    ensures LastSep(p) >= 0 ==> p == Parent(p) + [SEP] + Name(p)
    ensures LastSep(p) < 0 ==> p == Name(p)
    ensures SEP !in Name(p)
  {
    LastSepSplits(p);
    Decompose(p, LastSep(p));
  }

  lemma Decompose(p: Str, i: int)
    requires -1 <= i < |p| && (i >= 0 ==> p[i] == SEP)
    requires forall j :: i < j < |p| ==> p[j] != SEP
    ensures i >= 0 ==> p == p[..i] + [SEP] + p[i + 1..]
    ensures i < 0 ==> p == p[i + 1..]
    ensures SEP !in p[i + 1..]
  { }

  lemma SplitPieceConcat(p: Str, d: Str, n: Str)
    requires SEP !in n && p == d + [SEP] + n
    ensures Split(p) == Split(d) + [n]
  {
    SplitConcat(d, n);
    SplitName(n);
  }

  /** p is its parent, a separator and its name. */
  lemma SplitParent(p: Str)
    ensures LastSep(p) >= 0 ==> p == Parent(p) + [SEP] + Name(p) && Split(p) == Split(Parent(p)) + [Name(p)]
    ensures LastSep(p) < 0 ==> p == Name(p) && Split(p) == [p]
    ensures SEP !in Name(p)
  {
    ParentAndName(p);
    if LastSep(p) >= 0 {
      SplitPieceConcat(p, Parent(p), Name(p));
    } else {
      SplitName(p);
    }
  }

  lemma {:induction false} TrimNothing(p: Str)
    requires p == [] || p[|p| - 1] != SEP
    ensures TrimSeps(p) == p
  { }

  lemma LastIsName(cs: seq<Str>, rest: seq<Str>, n: Str)
    requires AllNames(cs) && cs == rest + [n]
    ensures IsName(n) && AllNames(rest)
  {
    assert n == cs[|rest|] && n in cs;
    assert forall c :: c in rest ==> c in cs;
  }

  lemma PiecesNormal(p: Str, d: Str, n: Str)
    requires Normal(p) && Split(p) == Split(d) + [n]
    ensures IsName(n) && Normal(d)
  {
    LastIsName(Split(p), Split(d), n);
  }

  lemma SinglePiece(p: Str, n: Str)
    requires Normal(p) && Split(p) == [n]
    ensures IsName(n)
  {
    LastIsName(Split(p), [], n);
  }

  lemma NormalParts(p: Str)
    requires Normal(p)
    ensures IsName(Name(p))
    ensures LastSep(p) >= 0 ==> Normal(Parent(p))
  {
    SplitParent(p);
    if LastSep(p) >= 0 {
      PiecesNormal(p, Parent(p), Name(p));
    } else {
      SinglePiece(p, Name(p));
    }
  }

  lemma BaseIsName(p: Str)
    requires p != [] && p[|p| - 1] != SEP
    ensures Base(p) == Name(p)
  {
    TrimNothing(p);
  }

  lemma LastByte(p: Str)
    requires Name(p) != []
    ensures p != [] && p[|p| - 1] != SEP
  {
    ParentAndName(p);
    var n := Name(p);
    assert n[|n| - 1] in n;
  }

  lemma NormalBase(p: Str)
    requires Normal(p)
    ensures Base(p) == Name(p)
  {
    NormalParts(p);
    LastByte(p);
    BaseIsName(p);
  }

  lemma NormalJoin(p: Str)
    requires Normal(p)
    ensures Join(Parent(p), Name(p)) == p
  {
    NormalParts(p);
    NormalIsClean(p);
    SplitParent(p);
    if LastSep(p) >= 0 { NormalRelative(Parent(p)); }
  }

  lemma CleanWithTrailingSep(d: Str)
    requires Normal(d)
    ensures Clean(d + [SEP]) == d
  {
    NormalIsClean(d);
    NormalRelative(d);
    assert d + [SEP] == d + [SEP] + [];
    SplitConcat(d, []);
    SplitName([]);
    CleanTrailingSep(Split(d), false, []);
  }

  lemma DirOfPrefix(p: Str, d: Str)
    requires d == p[..LastSep(p) + 1]
    ensures Dir(p) == Clean(d)
  { }

  /** On a normal path Dir is the parent, or "." at the top level. */
  lemma NormalDir(p: Str)
    requires Normal(p)
    ensures Dir(p) == if LastSep(p) < 0 then CURRENT else Parent(p)
  {
    var d := p[..LastSep(p) + 1];
    DirOfPrefix(p, d);
    if LastSep(p) >= 0 {
      NormalParts(p);
      ParentAndName(p);
      assert d == Parent(p) + [SEP];
      CleanWithTrailingSep(Parent(p));
    } else {
      CleanShort(d);
    }
  }

  lemma {:induction false} CleanTrailingSep(cs: seq<Str>, rooted: bool, acc: seq<Str>)
    ensures CleanComps(cs + [[]], rooted, acc) == CleanComps(cs, rooted, acc)
  {
    if cs == [] {
      assert (cs + [[]])[1..] == [];
    } else {
      assert (cs + [[]])[1..] == cs[1..] + [[]];
      CleanTrailingSep(cs[1..], rooted, CleanStep(acc, cs[0], rooted));
    }
  }

  // ---------------------------------------------------------------- walk order

  /** The separator sorts below every other byte. */
  function Rank(b: byte): int { if b == SEP then 0 else b + 1 }

  /** p comes before q in a tree walk, read byte by byte. */
  predicate Before(p: Str, q: Str)
  {
    q != [] && (p == [] || Rank(p[0]) < Rank(q[0]) || (p[0] == q[0] && Before(p[1..], q[1..])))
  }

  /** q lies strictly below the directory p. */
  predicate Under(q: Str, p: Str) { p + [SEP] <= q }

  /** Lexicographic order of component lists. */
  predicate CompsLess(a: seq<Str>, b: seq<Str>)
  {
    b != [] && (a == [] || LexLess(a[0], b[0]) || (a[0] == b[0] && CompsLess(a[1..], b[1..])))
  }

  /** Comparing byte by byte with a low separator is comparing component by component. */
  lemma {:induction false} BeforeIsComponentOrder(p: Str, q: Str)
    ensures Before(p, q) <==> CompsLess(Split(p), Split(q))
  {
    if p != [] && q != [] {
      var r, s := Split(p[1..]), Split(q[1..]);
      if p[0] == q[0] {
        BeforeIsComponentOrder(p[1..], q[1..]);
        if p[0] == SEP {
          assert Split(p)[1..] == r && Split(q)[1..] == s;
        } else {
          assert Split(p)[1..] == r[1..] && Split(q)[1..] == s[1..];
          assert ([p[0]] + r[0])[1..] == r[0] && ([q[0]] + s[0])[1..] == s[0];
        }
      } else if p[0] == SEP {
        assert LexLess([], [q[0]] + s[0]);
      } else if q[0] == SEP {
        assert !LexLess([p[0]] + r[0], []);
      }
    } else if q != [] {
      if q[0] == SEP {
        assert Split(q)[1..] == Split(q[1..]);
      }
    }
  }

  lemma {:induction false} BeforeTotal(p: Str, q: Str)
    ensures Before(p, q) || p == q || Before(q, p)
    ensures !(Before(p, q) && Before(q, p))
    ensures p == q ==> !Before(p, q)
  {
    if p != [] && q != [] && p[0] == q[0] {
      BeforeTotal(p[1..], q[1..]);
      assert p == [p[0]] + p[1..] && q == [q[0]] + q[1..];
    }
  }

  lemma {:induction false} BeforeTransitive(p: Str, q: Str, r: Str)
    requires Before(p, q) && Before(q, r)
    ensures Before(p, r)
  {
    if p != [] && p[0] == q[0] && q[0] == r[0] {
      BeforeTransitive(p[1..], q[1..], r[1..]);
    }
  }

  /** A directory comes before everything below it. */
  lemma {:induction false} PrefixBefore(p: Str, q: Str)
    requires p < q
    ensures Before(p, q)
  {
    if p != [] { PrefixBefore(p[1..], q[1..]); }
  }

  /** The descendants of a directory are one interval right after it. */
  lemma {:induction false} DescendantsContiguous(p: Str, q: Str, r: Str)
    requires Before(p, q) && Before(q, r) && Under(r, p)
    ensures Under(q, p)
  {
    if p != [] {
      DescendantsContiguous(p[1..], q[1..], r[1..]);
    }
  }

  /** Siblings, and everything below them, order as their names do. */
  lemma {:induction false} CommonPrefix(d: Str, a: Str, b: Str)
    ensures Before(d + a, d + b) <==> Before(a, b)
  {
    if d == [] {
      assert d + a == a && d + b == b;
    } else {
      CommonPrefix(d[1..], a, b);
      assert (d + a)[1..] == d[1..] + a && (d + b)[1..] == d[1..] + b;
    }
  }

  lemma {:induction false} NamesOrder(a: Str, b: Str)
    requires SEP !in a && SEP !in b
    ensures Before(a, b) <==> LexLess(a, b)
  {
    if a != [] && b != [] && a[0] == b[0] {
      NamesOrder(a[1..], b[1..]);
    }
  }

  /** Two ancestors of one path are comparable. */
  lemma Comparable(q: Str, a: Str, b: Str)
    requires (q == a || Under(q, a)) && (q == b || Under(q, b))
    ensures a == b || Under(a, b) || Under(b, a)
  {
    if |a| < |b| {
      assert q[..|a| + 1] == a + [SEP];
      assert b == q[..|b|];
      assert b[..|a| + 1] == a + [SEP];
    } else if |b| < |a| {
      assert q[..|b| + 1] == b + [SEP];
      assert a == q[..|a|];
      assert a[..|b| + 1] == b + [SEP];
    } else {
      assert a == q[..|a|] && b == q[..|b|];
    }
  }

  lemma UnderTransitive(r: Str, q: Str, p: Str)
    requires Under(r, q) && Under(q, p)
    ensures Under(r, p)
  { }

  /** ComparePath: the sign of the result is the walk order, on all byte strings. */
  method ComparePath(p1: Str, p2: Str) returns (c: int)
    ensures c < 0 <==> CompsLess(Split(p1), Split(p2))
    ensures c == 0 <==> p1 == p2
    ensures c > 0 <==> CompsLess(Split(p2), Split(p1))
    ensures c < 0 <==> Before(p1, p2)
    ensures c > 0 <==> Before(p2, p1)
  {
    BeforeIsComponentOrder(p1, p2);
    BeforeIsComponentOrder(p2, p1);
    BeforeTotal(p1, p2);
    var n := if |p1| < |p2| then |p1| else |p2|;
    for i := 0 to n
      invariant p1[..i] == p2[..i]
    {
      if p1[i] == p2[i] {
        assert p1[..i + 1] == p2[..i + 1];
      } else {
        var d := p1[..i];
        assert p1 == d + p1[i..] && p2 == d + p2[i..];
        CommonPrefix(d, p1[i..], p2[i..]);
        CommonPrefix(d, p2[i..], p1[i..]);
        if (p2[i] != SEP && p1[i] < p2[i]) || p1[i] == SEP {
          return -1;
        } else {
          return 1;
        }
      }
    }
    var d := p1[..n];
    assert p1 == d + p1[n..] && p2 == d + p2[n..];
    CommonPrefix(d, p1[n..], p2[n..]);
    CommonPrefix(d, p2[n..], p1[n..]);
    return |p1| - |p2|;
  }

  // ---------------------------------------------------------------- places on a disk

  lemma AncestorOfParent(p: Str, a: Str)
    requires Under(p, a)
    ensures a == Parent(p) || Under(Parent(p), a)
  {
    LastSepSplits(p);
    var i := LastSep(p);
    assert p[|a|] == SEP;
    assert |a| <= i;
    assert p[..i][..|a|] == p[..|a|] == a;
    if i > |a| { assert p[..i][|a|] == SEP; }
  }

  /** A path that leads out of the tree. */
  predicate Outside(p: Str) { p == UP || UP + [SEP] <= p }

  /** q lies below p: "." is the root, above everything that does not lead out. */
  predicate Below(q: Str, p: Str) { if p == CURRENT then q != CURRENT && !Outside(q) else Under(q, p) }

  /** The directory that holds a path of the tree. */
  function DirOf(p: Str): Str { if Parent(p) == [] then CURRENT else Parent(p) }

  lemma NothingAboveCurrent(a: Str)
    ensures !Under(CURRENT, a)
  {
    assert (a + [SEP])[|a|] == SEP;
  }

  lemma AcceptableInside(p: Str)
    requires Acceptable(p)
    ensures p != [] && p[0] != SEP && !Outside(p) && !Under(p, []) && !Under(p, CURRENT)
    ensures Normal(p) <==> p != CURRENT
  {
    NotNormal(CURRENT, CURRENT);
    if p != CURRENT {
      NormalRelative(p);
      if Outside(p) { NotNormal(p, UP); }
      if Under(p, CURRENT) { NotNormal(p, CURRENT); }
    } else {
      NothingAboveCurrent([]);
      NothingAboveCurrent(CURRENT);
    }
  }

  /** Every path but the root itself lies below the root. */
  lemma BelowRoot(p: Str)
    requires Acceptable(p)
    ensures Below(p, CURRENT) <==> p != CURRENT
  {
    AcceptableInside(p);
  }

  lemma BelowTransitive(r: Str, q: Str, p: Str)
    requires Acceptable(r) && Below(r, q) && Below(q, p)
    ensures Below(r, p)
  {
    AcceptableInside(r);
    NothingAboveCurrent(p);
    NothingAboveCurrent(q);
    if p != CURRENT && q != CURRENT { UnderTransitive(r, q, p); }
  }

  /** The directory of a proper path is one too, or the root. */
  lemma DirIsAcceptable(p: Str)
    requires Normal(p)
    ensures Acceptable(DirOf(p)) && (Parent(p) != [] ==> Normal(Parent(p)) && Under(p, Parent(p)))
  {
    hide Normal, Split, Name, LastSep;
    NormalParts(p);
    SplitParent(p);
    if LastSep(p) >= 0 {
      NormalRelative(Parent(p));
      assert p == Parent(p) + [SEP] + Name(p);
    }
  }

  /** It lies right above the path. */
  lemma DirOfProper(p: Str)
    requires Normal(p)
    ensures Acceptable(DirOf(p)) && Below(p, DirOf(p))
    ensures forall a :: Below(p, a) ==> a == DirOf(p) || Below(DirOf(p), a)
  {
    hide Normal, Split, Parent, Acceptable;
    DirIsAcceptable(p);
    ProperInside(p);
    if Parent(p) != [] { ParentInside(p); }
    forall a | Below(p, a) ensures a == DirOf(p) || Below(DirOf(p), a) {
      if a != CURRENT {
        AncestorOfParent(p, a);
        assert !Under([], a);
      }
    }
  }

  lemma ProperInside(p: Str)
    requires Normal(p)
    ensures p != CURRENT && !Outside(p) && !Under(p, []) && !Under(p, CURRENT)
  {
    hide Normal, Outside, Under;
    AcceptableInside(p);
  }

  lemma ParentInside(p: Str)
    requires Normal(Parent(p))
    ensures Parent(p) != CURRENT && !Outside(Parent(p))
  {
    hide Normal, Outside;
    AcceptableInside(Parent(p));
  }
}
