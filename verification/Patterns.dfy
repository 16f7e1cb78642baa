/** Include and exclude patterns: which paths they select, and when a directory need not be walked. */
module Patterns {
  import opened Bytes
  import opened Paths

  /** A pattern of the external matcher: its text without a leading "!", whether that "!" was there, and
      the paths the text itself matches. */
  datatype Pattern = Pattern(text: Str, exclusion: bool, matches: Str -> bool)

  const STAR: byte := 42

  // "/*" and "/**"
  const GLOB: Str := [SEP, STAR]
  const DOUBLE_GLOB: Str := [SEP, STAR, STAR]

  // * [ ] ? ^ \
  predicate IsSpecial(b: byte) { b == STAR || b == 91 || b == 93 || b == 63 || b == 94 || b == 92 }

  predicate HasSpecial(s: Str) { exists i :: 0 <= i < |s| && IsSpecial(s[i]) }

  function TrimSuffix(s: Str, suffix: Str): Str
  {
    if |suffix| <= |s| && s[|s| - |suffix|..] == suffix then s[..|s| - |suffix|] else s
  }

  // patternWithoutTrailingGlob: strips "/**" and then "/*".
  function WithoutTrailingGlob(p: Pattern): Str { TrimSuffix(TrimSuffix(p.text, DOUBLE_GLOB), GLOB) }

  // What the external matcher does with the texts P, P/*, P/** and P/*/** for a P without wildcards.
  ghost predicate Faithful(p: Pattern)
  {
    var b := WithoutTrailingGlob(p);
    !HasSpecial(b) ==>
      && (p.text == b ==> forall q :: p.matches(q) <==> q == b)
      && (p.text == b + GLOB ==> forall q :: p.matches(q) <==> Under(q, b) && SEP !in q[|b| + 1..])
      && (p.text == b + DOUBLE_GLOB ==> forall q :: p.matches(q) <==> Under(q, b))
      && (p.text == b + GLOB + DOUBLE_GLOB ==> forall q :: p.matches(q) <==> Under(q, b) && SEP in q[|b| + 1..])
  }

  // The text of a prefix pattern: P, P/* or P/**.
  predicate IsPrefixPattern(p: Pattern)
  {
    var b := WithoutTrailingGlob(p);
    !HasSpecial(b) && (p.text == b || p.text == b + GLOB || p.text == b + DOUBLE_GLOB)
  }

  // P/*/**, which loses both its globs when trimmed.
  predicate IsStackedGlob(p: Pattern)
  {
    var b := WithoutTrailingGlob(p);
    !HasSpecial(b) && p.text == b + GLOB + DOUBLE_GLOB
  }

  lemma TrimSuffixUndo(s: Str, suffix: Str)
    ensures TrimSuffix(s, suffix) == s || TrimSuffix(s, suffix) + suffix == s
  { }

  /** Without wildcards left after trimming, the text has one of four shapes. */
  lemma Shapes(p: Pattern)
    requires !HasSpecial(WithoutTrailingGlob(p))
    ensures IsPrefixPattern(p) || IsStackedGlob(p)
  {
    TrimSuffixUndo(p.text, DOUBLE_GLOB);
    TrimSuffixUndo(TrimSuffix(p.text, DOUBLE_GLOB), GLOB);
  }

  // ---------------------------------------------------------------- selecting

  /** The pattern matches the path or an ancestor of it. */
  predicate Hits(p: Pattern, path: Str)
  {
    p.matches(path) || exists i :: 0 <= i < |path| && path[i] == SEP && p.matches(path[..i])
  }

  /** The last pattern that hits decides. */
  predicate Selects(ps: seq<Pattern>, path: Str)
  {
    ps != [] &&
    var last := ps[|ps| - 1];
    if Hits(last, path) then !last.exclusion else Selects(ps[..|ps| - 1], path)
  }

  /** Pattern i hits the path and no later one does. */
  predicate LastHit(ps: seq<Pattern>, i: nat, path: Str)
  {
    i < |ps| && Hits(ps[i], path) && forall j :: i < j < |ps| ==> !Hits(ps[j], path)
  }

  /** A path is selected exactly when the last pattern that hits it or a directory above it is no exception. */
  lemma {:induction false} SelectsMeaning(ps: seq<Pattern>, path: Str)
    ensures Selects(ps, path) <==> exists i: nat :: LastHit(ps, i, path) && !ps[i].exclusion
  {
    hide Hits;
    if ps != [] {
      var n := |ps| - 1;
      var rest := ps[..n];
      SelectsMeaning(rest, path);
      if Hits(ps[n], path) {
        assert LastHit(ps, n, path);
      } else {
        forall i: nat ensures LastHit(ps, i, path) <==> LastHit(rest, i, path) { }
        if i: nat :| LastHit(rest, i, path) && !rest[i].exclusion { assert ps[i] == rest[i]; }
        if i: nat :| LastHit(ps, i, path) && !ps[i].exclusion { assert ps[i] == rest[i]; }
      }
    }
  }

  lemma HitsMeaning(p: Pattern, path: Str)
    ensures Hits(p, path) <==> exists a :: (a == path || Under(path, a)) && p.matches(a)
  {
    if Hits(p, path) { var a := HitAt(p, path); }
    if a :| (a == path || Under(path, a)) && p.matches(a) {
      if a != path { HitsAncestor(p, path, a); }
    }
  }

  lemma HitsAncestor(p: Pattern, path: Str, a: Str)
    requires Under(path, a) && p.matches(a)
    ensures Hits(p, path)
  {
    assert path[|a|] == SEP && path[..|a|] == a;
  }

  lemma HitAt(p: Pattern, path: Str) returns (a: Str)
    requires Hits(p, path)
    ensures p.matches(a) && (a == path || Under(path, a))
  {
    if p.matches(path) { a := path; } else {
      var i :| 0 <= i < |path| && path[i] == SEP && p.matches(path[..i]);
      a := path[..i];
      assert path[..i + 1] == a + [SEP];
    }
  }

  /** What hits a directory hits everything below it. */
  lemma HitsBelow(p: Pattern, d: Str, q: Str)
    requires Hits(p, d) && Under(q, d)
    ensures Hits(p, q)
  {
    var a := HitAt(p, d);
    if a != d { UnderTransitive(q, d, a); }
    HitsAncestor(p, q, a);
  }

  // ---------------------------------------------------------------- pruning

  /** The pattern may match something inside the directory. */
  predicate MayReach(p: Pattern, dir: Str) { dir + [SEP] <= WithoutTrailingGlob(p) + [SEP] }

  lemma PrefixOfBase(b: Str, d: Str)
    ensures b == d || Under(b, d) ==> d + [SEP] <= b + [SEP]
  { }

  /** A match lies at the pattern's base or below it. */
  lemma MatchesNearBase(p: Pattern, q: Str)
    requires Faithful(p) && IsPrefixPattern(p) && p.matches(q)
    ensures q == WithoutTrailingGlob(p) || Under(q, WithoutTrailingGlob(p))
  { }

  /** A prefix pattern that may not reach into a directory, but hits something inside, hits the directory. */
  lemma HitsOutside(p: Pattern, d: Str, q: Str)
    requires Faithful(p) && IsPrefixPattern(p) && !MayReach(p, d) && Under(q, d) && Hits(p, q)
    ensures Hits(p, d)
  {
    var b := WithoutTrailingGlob(p);
    var a := HitAt(p, q);
    Comparable(q, a, d);
    if Under(d, a) {
      HitsAncestor(p, d, a);
    } else if Under(a, d) {
      MatchesNearBase(p, a);
      Comparable(a, b, d);
      DeeperMatch(p, d, a);
    }
  }

  // Below a directory that itself lies below the base only P/** matches.
  lemma DeeperMatch(p: Pattern, d: Str, a: Str)
    requires Faithful(p) && IsPrefixPattern(p) && p.matches(a) && Under(a, d)
    requires (var b := WithoutTrailingGlob(p); !MayReach(p, d) && (b == d || Under(b, d) || Under(d, b)))
    ensures p.matches(d)
  {
    var b := WithoutTrailingGlob(p);
    PrefixOfBase(b, d);
    if Under(d, b) {
      assert a[|d|] == SEP && |d| > |b|;
      assert a[|b| + 1..][|d| - |b| - 1] == SEP;
    }
  }

  /** No include pattern can match inside an unselected directory that none may reach. */
  lemma {:induction false} NothingSelectedInside(ps: seq<Pattern>, d: Str, q: Str)
    requires !Selects(ps, d) && Under(q, d)
    requires forall p :: p in ps && !p.exclusion ==> Faithful(p) && IsPrefixPattern(p) && !MayReach(p, d)
    ensures !Selects(ps, q)
  {
    if ps != [] {
      var last, rest := ps[|ps| - 1], ps[..|ps| - 1];
      assert last in ps && forall p :: p in rest ==> p in ps;
      if Hits(last, d) { HitsBelow(last, d, q); }
      if Hits(last, q) {
        if !last.exclusion { HitsOutside(last, d, q); }
      } else {
        NothingSelectedInside(rest, d, q);
      }
    }
  }

  /** No exception can re-admit anything inside a selected directory that none may reach. */
  lemma {:induction false} EverythingSelectedInside(ps: seq<Pattern>, d: Str, q: Str)
    requires Selects(ps, d) && Under(q, d)
    requires forall p :: p in ps && p.exclusion ==> Faithful(p) && IsPrefixPattern(p) && !MayReach(p, d)
    ensures Selects(ps, q)
  {
    var last, rest := ps[|ps| - 1], ps[..|ps| - 1];
    assert last in ps && forall p :: p in rest ==> p in ps;
    if Hits(last, d) { HitsBelow(last, d, q); }
    if Hits(last, q) {
      if last.exclusion { HitsOutside(last, d, q); }
    } else {
      EverythingSelectedInside(rest, d, q);
    }
  }
}
