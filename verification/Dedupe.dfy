/** Sorting paths and dropping those below another one. */
module Deduping {
  import opened Bytes
  import opened Paths

  // ---------------------------------------------------------------- dedupePaths

  /** Byte-wise increasing, without repetitions: sort.Strings on a set. */
  ghost predicate Ascending(s: seq<Str>) { forall i, j :: 0 <= i < j < |s| ==> LexLess(s[i], s[j]) }

  /** dedupePaths with the last kept path in hand. */
  function Deduped(s: seq<Str>, last: Str): seq<Str>
  {
    if s == [] then []
    else if last + [SEP] <= s[0] then Deduped(s[1..], last)
    else [s[0]] + Deduped(s[1..], s[0])
  }

  /** None: the root is among the paths, so there is no filter. */
  method DedupePaths(s: seq<Str>) returns (out: Option<seq<Str>>)
    ensures out.None? <==> CURRENT in s
    ensures out.Some? ==> out.value == Deduped(s, [])
  {
    var kept: seq<Str> := [];
    var last: Str := [];
    for i := 0 to |s|
      invariant CURRENT !in s[..i]
      invariant kept + Deduped(s[i..], last) == Deduped(s, [])
    {
      assert s[i..][0] == s[i] && s[i..][1..] == s[i + 1..];
      assert s[..i + 1] == s[..i] + [s[i]];
      if s[i] == CURRENT {
        return None;
      }
      if !(last + [SEP] <= s[i]) {
        kept := kept + [s[i]];
        last := s[i];
      }
    }
    assert s[..|s|] == s && s[|s|..] == [];
    return Some(kept);
  }

  /** Nothing is invented, and what is dropped lies below something kept. */
  lemma {:induction false} DedupedCovers(s: seq<Str>, last: Str)
    ensures forall p :: p in Deduped(s, last) ==> p in s
    ensures forall p :: p in s ==>
              p in Deduped(s, last) || Under(p, last) || exists q :: q in Deduped(s, last) && Under(p, q)
  {
    if s != [] {
      if last + [SEP] <= s[0] {
        DedupedCovers(s[1..], last);
      } else {
        DedupedCovers(s[1..], s[0]);
      }
    }
  }

  lemma {:induction false} LexTransitive(a: Str, b: Str, c: Str)
    requires LexLess(a, b) && LexLess(b, c)
    ensures LexLess(a, c)
  {
    if a != [] && a[0] == b[0] && b[0] == c[0] { LexTransitive(a[1..], b[1..], c[1..]); }
  }

  ghost predicate IsLeast(m: Str, r: set<Str>) { m in r && forall x :: x in r ==> x == m || LexLess(m, x) }

  lemma {:induction false} LeastExists(r: set<Str>) returns (m: Str)
    requires r != {}
    ensures IsLeast(m, r)
    decreases |r|
  {
    var x :| x in r;
    m := x;
    var rest := r - {x};
    if rest != {} {
      var y := LeastExists(rest);
      LexTrichotomy(x, y);
      if LexLess(y, x) {
        m := y;
      } else {
        forall z | z in r ensures z == x || LexLess(x, z) {
          if z != x && z != y { LexTransitive(x, y, z); }
        }
      }
    }
  }

  /** sort.Strings on the collected paths. */
  method SortPaths(r: set<Str>) returns (s: seq<Str>)
    ensures Ascending(s) && forall p :: p in s <==> p in r
  {
    s := [];
    var rest := r;
    while rest != {}
      invariant rest <= r && Ascending(s) && forall p :: p in s <==> p in r - rest
      invariant forall p, q :: p in s && q in rest ==> LexLess(p, q)
      decreases |rest|
    {
      ghost var least := LeastExists(rest);
      var m :| m in rest && forall x :: x in rest ==> x == m || LexLess(m, x);
      forall q | q in rest - {m} ensures LexLess(m, q) { }
      s := s + [m];
      rest := rest - {m};
    }
  }

  // ---------------------------------------------------------------- when nothing is kept below another path

  /** What was kept last among the first n. */
  function LastKept(s: seq<Str>, n: nat): Str
    requires n <= |s|
  {
    if n == 0 then [] else if LastKept(s, n - 1) + [SEP] <= s[n - 1] then LastKept(s, n - 1) else s[n - 1]
  }

  predicate Keeps(s: seq<Str>, i: nat)
    requires i < |s|
  {
    !Under(s[i], LastKept(s, i))
  }

  lemma {:induction false} DedupedFrom(s: seq<Str>, i: nat, p: Str)
    requires i <= |s|
    ensures p in Deduped(s[i..], LastKept(s, i)) <==> exists j: nat :: i <= j < |s| && Keeps(s, j) && s[j] == p
    decreases |s| - i
  {
    hide Under;
    if i < |s| {
      var last := LastKept(s, i);
      DedupedFrom(s, i + 1, p);
      assert s[i..][0] == s[i] && s[i..][1..] == s[i + 1..];
      assert Under(s[i], last) == (last + [SEP] <= s[i]) by { UnderMeaning(s[i], last); }
    }
  }

  lemma UnderMeaning(q: Str, p: Str)
    ensures Under(q, p) <==> p + [SEP] <= q
  { }

  lemma DedupedKeeps(s: seq<Str>, p: Str)
    ensures p in Deduped(s, []) <==> exists j: nat :: j < |s| && Keeps(s, j) && s[j] == p
  {
    DedupedFrom(s, 0, p);
    assert s[0..] == s;
  }

  /** No path of s lies above p. */
  ghost predicate Topmost(s: seq<Str>, p: Str) { forall q :: q in s ==> !Under(p, q) }

  /** Paths below the root, each once, those above a path before it. */
  ghost predicate Listing(s: seq<Str>)
  {
    && (forall p :: p in s ==> !Under(p, []))
    && (forall i, j :: 0 <= i < j < |s| ==> s[i] != s[j] && !Under(s[i], s[j]))
  }

  /** Between a topmost path and one below it stands one that is not below it. */
  ghost predicate Parted(s: seq<Str>, i: nat, j: nat, k: nat)
  {
    i < j < k < |s| && Topmost(s, s[i]) && Under(s[k], s[i]) && !Under(s[j], s[i])
  }

  ghost predicate Minimal(s: seq<Str>) { forall p, q :: p in s && q in s ==> !Under(p, q) }

  lemma {:induction false} LastIsKept(s: seq<Str>, n: nat) returns (m: nat)
    requires 0 < n <= |s| && Listing(s)
    ensures m < n && LastKept(s, n) == s[m] && Keeps(s, m)
  {
    hide Under;
    m := n - 1;
    assert s[0] in s;
    UnderMeaning(s[m], LastKept(s, m));
    if Under(s[m], LastKept(s, m)) {
      m := LastIsKept(s, n - 1);
    }
  }

  lemma TopmostIsKept(s: seq<Str>, i: nat)
    requires Listing(s) && i < |s| && Topmost(s, s[i])
    ensures Keeps(s, i)
  {
    hide Under;
    assert s[i] in s;
    if i > 0 {
      var m := LastIsKept(s, i);
      assert s[m] in s;
    }
  }

  /** A kept path stays the last one while only paths below it come. */
  lemma {:induction false} StaysLast(s: seq<Str>, i: nat, n: nat)
    requires i < n <= |s| && Keeps(s, i) && forall j :: i < j < n ==> Under(s[j], s[i])
    ensures LastKept(s, n) == s[i]
  {
    hide Under;
    UnderMeaning(s[n - 1], LastKept(s, n - 1));
    if n > i + 1 { StaysLast(s, i, n - 1); }
  }

  lemma {:induction false} FirstOutside(s: seq<Str>, a: Str, from: nat, j: nat) returns (f: nat)
    requires from <= j < |s| && !Under(s[j], a)
    ensures from <= f <= j && !Under(s[f], a) && forall h :: from <= h < f ==> Under(s[h], a)
    decreases j - from
  {
    if Under(s[from], a) { f := FirstOutside(s, a, from + 1, j); } else { f := from; }
  }

  lemma {:induction false} FirstInside(s: seq<Str>, a: Str, from: nat, k: nat) returns (f: nat)
    requires from <= k < |s| && Under(s[k], a)
    ensures from <= f <= k && Under(s[f], a) && forall h :: from <= h < f ==> !Under(s[h], a)
    decreases k - from
  {
    if Under(s[from], a) { f := from; } else { f := FirstInside(s, a, from + 1, k); }
  }

  /** Once a path has been kept, only it or later ones are the last. */
  lemma {:induction false} LastIsLater(s: seq<Str>, j: nat, n: nat) returns (m: nat)
    requires j < n <= |s| && Keeps(s, j)
    ensures j <= m < n && LastKept(s, n) == s[m]
  {
    hide Under;
    UnderMeaning(s[n - 1], LastKept(s, n - 1));
    m := n - 1;
    if n > j + 1 && Under(s[n - 1], LastKept(s, n - 1)) { m := LastIsLater(s, j, n - 1); }
  }

  lemma PartedIsNotMinimal(s: seq<Str>, i: nat, j: nat, k: nat)
    requires Listing(s) && Parted(s, i, j, k)
    ensures !Minimal(Deduped(s, []))
  {
    hide Under, Topmost, Minimal;
    var a := s[i];
    TopmostIsKept(s, i);
    var b := FirstOutside(s, a, i + 1, j);
    StaysLast(s, i, b);
    assert Keeps(s, b);
    var c := FirstInside(s, a, b + 1, k);
    var m := LastIsLater(s, b, c);
    BelowOnlyOne(s, i, m, c);
    DedupedKeeps(s, s[c]);
    DedupedKeeps(s, a);
    NotMinimal(Deduped(s, []), s[c], a);
  }

  lemma NotMinimal(s: seq<Str>, p: Str, q: Str)
    requires p in s && q in s && Under(p, q)
    ensures !Minimal(s)
  { }

  /** Below a topmost path, and below another that is neither it nor below it: impossible. */
  lemma BelowOnlyOne(s: seq<Str>, i: nat, m: nat, c: nat)
    requires Listing(s) && i < m < c < |s| && Topmost(s, s[i]) && Under(s[c], s[i]) && !Under(s[m], s[i])
    ensures !Under(s[c], s[m])
  {
    hide Under;
    if Under(s[c], s[m]) { Comparable(s[c], s[i], s[m]); }
  }

  lemma {:induction false} TopmostAbove(s: seq<Str>, h: nat) returns (i: nat)
    requires h < |s|
    ensures i < |s| && Topmost(s, s[i]) && (s[i] == s[h] || Under(s[h], s[i]))
    decreases |s[h]|
  {
    if Topmost(s, s[h]) {
      i := h;
    } else {
      var q :| q in s && Under(s[h], q);
      var m :| 0 <= m < |s| && s[m] == q;
      i := TopmostAbove(s, m);
      if s[i] != q { UnderTransitive(s[h], q, s[i]); }
    }
  }

  /** A kept path below a kept path was parted from the topmost one above both. */
  lemma KeptBelowIsParted(s: seq<Str>, h: nat, k: nat) returns (i: nat, j: nat)
    requires Listing(s) && h < |s| && k < |s| && Keeps(s, k) && Under(s[k], s[h])
    ensures Parted(s, i, j, k)
  {
    hide Under, Topmost;
    i := TopmostAbove(s, h);
    if s[i] != s[h] { UnderTransitive(s[k], s[h], s[i]); }
    assert i < k by { NotUnderItself(s[k]); }
    if forall g :: i < g < k ==> Under(s[g], s[i]) {
      TopmostIsKept(s, i);
      StaysLast(s, i, k);
    }
    j :| i < j < k && !Under(s[j], s[i]);
  }

  lemma NotUnderItself(p: Str)
    ensures !Under(p, p)
  { }

  /** In any listing: a kept path lies below another exactly when some topmost path is parted from a path
      below it. */
  lemma MinimalUnlessParted(s: seq<Str>)
    requires Listing(s)
    ensures Minimal(Deduped(s, [])) <==> forall i: nat, j: nat, k: nat :: !Parted(s, i, j, k)
  {
    hide Under, Parted, Listing, Keeps;
    if i: nat, j: nat, k: nat :| Parted(s, i, j, k) { PartedIsNotMinimal(s, i, j, k); }
    if !Minimal(Deduped(s, [])) {
      var p, q :| p in Deduped(s, []) && q in Deduped(s, []) && Under(p, q);
      DedupedKeeps(s, p);
      DedupedKeeps(s, q);
      var k: nat :| k < |s| && Keeps(s, k) && s[k] == p;
      var h: nat :| h < |s| && Keeps(s, h) && s[h] == q;
      var i, j := KeptBelowIsParted(s, h, k);
    }
  }

  // ---------------------------------------------------------------- byte order and walk order

  lemma {:induction false} PrefixLess(p: Str, q: Str)
    requires p < q
    ensures LexLess(p, q)
  {
    if p != [] { PrefixLess(p[1..], q[1..]); }
  }

  lemma AscendingIsListing(s: seq<Str>)
    requires Ascending(s) && forall p :: p in s ==> p != [] && p[0] != SEP
    ensures Listing(s)
  {
    forall i, j | 0 <= i < j < |s| ensures s[i] != s[j] && !Under(s[i], s[j]) {
      LexTrichotomy(s[i], s[j]);
      if Under(s[i], s[j]) { PrefixLess(s[j], s[i]); }
    }
  }

  /** a has nothing above it, c lies below it, and b, which does not, sorts between them. */
  ghost predicate SortsBetween(s: seq<Str>, a: Str, b: Str, c: Str)
  {
    && a in s && b in s && c in s && Topmost(s, a) && Under(c, a) && !Under(b, a)
    && LexLess(a, b) && LexLess(b, c)
  }

  lemma {:induction false} PositionsAscend(s: seq<Str>, i: nat, j: nat)
    requires Ascending(s) && i < |s| && j < |s|
    ensures LexLess(s[i], s[j]) <==> i < j
  {
    LexTrichotomy(s[i], s[j]);
  }

  /** On what FollowLinks hands over, an ascending list of relative paths: a kept path lies below another one
      exactly when a path sorts between a topmost path and something below it without being below it. */
  lemma MinimalExactly(s: seq<Str>)
    requires Ascending(s) && forall p :: p in s ==> p != [] && p[0] != SEP
    ensures Minimal(Deduped(s, [])) <==> forall a, b, c :: !SortsBetween(s, a, b, c)
  {
    hide Under, Topmost, LexLess, Minimal, Listing, Ascending;
    AscendingIsListing(s);
    MinimalUnlessParted(s);
    if i: nat, j: nat, k: nat :| Parted(s, i, j, k) {
      PositionsAscend(s, i, j);
      PositionsAscend(s, j, k);
      assert SortsBetween(s, s[i], s[j], s[k]);
    }
    if a, b, c :| SortsBetween(s, a, b, c) {
      var i :| 0 <= i < |s| && s[i] == a;
      var j :| 0 <= j < |s| && s[j] == b;
      var k :| 0 <= k < |s| && s[k] == c;
      PositionsAscend(s, i, j);
      PositionsAscend(s, j, k);
      assert Parted(s, i, j, k);
    }
  }

  /** In walk order nothing is parted: no kept path lies below another. */
  lemma WalkOrderIsMinimal(s: seq<Str>)
    requires forall i, j :: 0 <= i < j < |s| ==> Before(s[i], s[j])
    requires forall p :: p in s ==> p != [] && p[0] != SEP
    ensures Minimal(Deduped(s, []))
  {
    hide Minimal, Topmost, Before;
    forall i, j | 0 <= i < j < |s| ensures s[i] != s[j] && !Under(s[i], s[j]) {
      BeforeTotal(s[i], s[j]);
      if Under(s[i], s[j]) { PrefixBefore(s[j], s[i]); }
    }
    MinimalUnlessParted(s);
    if i: nat, j: nat, k: nat :| Parted(s, i, j, k) { DescendantsContiguous(s[i], s[j], s[k]); }
  }

  const A: Str := [97]
  const A_DASH_B: Str := [97, 45, 98]
  const A_SLASH_C: Str := [97, 47, 99]

  /** In byte order it is not: "a/c" is kept beside "a", because "a-b" sorts between them. */
  lemma ByteOrderIsNotMinimal()
    ensures Ascending([A, A_DASH_B, A_SLASH_C]) && Under(A_SLASH_C, A)
    ensures Deduped([A, A_DASH_B, A_SLASH_C], []) == [A, A_DASH_B, A_SLASH_C]
  {
    var s := [A, A_DASH_B, A_SLASH_C];
    assert LexLess(A[1..], A_DASH_B[1..]) && LexLess(A[1..], A_SLASH_C[1..]);
    assert LexLess(A_DASH_B[1..], A_SLASH_C[1..]);
    assert s[1..] == [A_DASH_B, A_SLASH_C] && s[1..][1..] == [A_SLASH_C];
    assert A_SLASH_C[..2] == A + [SEP];
    assert Deduped([A_SLASH_C], A_DASH_B) == [A_SLASH_C] + Deduped([], A_SLASH_C);
    assert A_DASH_B[1] != SEP;
    assert Deduped([A_DASH_B, A_SLASH_C], A) == [A_DASH_B] + Deduped([A_SLASH_C], A_DASH_B);
  }
}
