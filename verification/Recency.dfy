/** Lists kept by recency: what is used moves to the front, and what no longer fits drops off the back. */
module Recency {
  import opened Bytes

  function Without(s: seq<Str>, p: Str): (r: seq<Str>)
    ensures |r| <= |s| && forall q :: q in r <==> q in s && q != p
  {
    if s == [] then [] else (if s[0] == p then [] else [s[0]]) + Without(s[1..], p)
  }

  function Take(s: seq<Str>, n: nat): (r: seq<Str>)
    ensures |r| <= n && r <= s
  {
    if |s| <= n then s else s[..n]
  }

  /** The list after p has been used. */
  function Used(s: seq<Str>, p: Str, size: nat): seq<Str> { Take([p] + Without(s, p), size) }

  function UsedAll(s: seq<Str>, ps: seq<Str>, size: nat): seq<Str>
    decreases |ps|
  {
    if ps == [] then s else UsedAll(Used(s, ps[0], size), ps[1..], size)
  }

  /** Everything used, the last one first, each once. */
  function Recent(ps: seq<Str>): seq<Str>
  {
    if ps == [] then [] else [ps[|ps| - 1]] + Without(Recent(ps[..|ps| - 1]), ps[|ps| - 1])
  }

  predicate Distinct(s: seq<Str>) { forall i, j :: 0 <= i < j < |s| ==> s[i] != s[j] }

  lemma {:induction false} WithoutConcat(a: seq<Str>, b: seq<Str>, p: Str)
    ensures Without(a + b, p) == Without(a, p) + Without(b, p)
  {
    if a == [] {
      assert a + b == b;
    } else {
      assert (a + b)[1..] == a[1..] + b && (a + b)[0] == a[0];
      WithoutConcat(a[1..], b, p);
      var one := if a[0] == p then [] else [a[0]];
      assert one + (Without(a[1..], p) + Without(b, p)) == (one + Without(a[1..], p)) + Without(b, p);
    }
  }

  lemma {:induction false} WithoutNone(s: seq<Str>, p: Str)
    requires p !in s
    ensures Without(s, p) == s
  {
    if s != [] { WithoutNone(s[1..], p); }
  }

  /** Where p stands once, it is cut out. */
  lemma {:induction false} WithoutOne(s: seq<Str>, k: nat)
    requires Distinct(s) && k < |s|
    ensures Without(s, s[k]) == s[..k] + s[k + 1..]
  {
    if k == 0 {
      assert s[0] !in s[1..];
      WithoutNone(s[1..], s[0]);
    } else {
      WithoutOne(s[1..], k - 1);
      assert s[..k] == [s[0]] + s[1..][..k - 1];
    }
  }

  lemma {:induction false} WithoutDistinct(s: seq<Str>, p: Str)
    requires Distinct(s)
    ensures Distinct(Without(s, p))
  {
    if k: nat :| k < |s| && s[k] == p { WithoutOne(s, k); } else { WithoutNone(s, p); }
  }

  lemma InFront(p: Str, s: seq<Str>)
    requires Distinct(s) && p !in s
    ensures Distinct([p] + s)
  { }

  lemma {:induction false} RecentDistinct(ps: seq<Str>)
    ensures Distinct(Recent(ps))
    ensures forall p :: p in Recent(ps) <==> p in ps
  {
    if ps != [] {
      var rest, p := ps[..|ps| - 1], ps[|ps| - 1];
      RecentDistinct(rest);
      WithoutDistinct(Recent(rest), p);
      InFront(p, Without(Recent(rest), p));
      assert ps == rest + [p];
    }
  }

  /** Using what is on the list reorders it. */
  lemma UsedListed(s: seq<Str>, k: nat, size: nat)
    requires Distinct(s) && k < |s| <= size
    ensures Used(s, s[k], size) == [s[k]] + (s[..k] + s[k + 1..])
  {
    hide Without;
    WithoutOne(s, k);
  }

  /** What has dropped off makes no difference. */
  lemma TakeUsed(s: seq<Str>, p: Str, size: nat)
    requires Distinct(s)
    ensures Used(Take(s, size), p, size) == Take([p] + Without(s, p), size)
  {
    hide Without;
    if |s| > size {
      var t := s[..size];
      assert s == t + s[size..];
      WithoutConcat(t, s[size..], p);
      WithoutAtMostOne(t, p);
    }
  }

  lemma WithoutAtMostOne(s: seq<Str>, p: Str)
    requires Distinct(s)
    ensures |Without(s, p)| >= |s| - 1
  {
    hide Without;
    if k: nat :| k < |s| && s[k] == p { WithoutOne(s, k); } else { WithoutNone(s, p); }
  }

  lemma {:induction false} UsedSnoc(s: seq<Str>, ps: seq<Str>, p: Str, size: nat)
    ensures UsedAll(s, ps + [p], size) == Used(UsedAll(s, ps, size), p, size)
    decreases |ps|
  {
    if ps == [] {
      assert ([] + [p])[1..] == [];
    } else {
      assert (ps + [p])[1..] == ps[1..] + [p];
      UsedSnoc(Used(s, ps[0], size), ps[1..], p, size);
    }
  }

  lemma {:induction false} UsedConcat(s: seq<Str>, a: seq<Str>, b: seq<Str>, size: nat)
    ensures UsedAll(s, a + b, size) == UsedAll(UsedAll(s, a, size), b, size)
    decreases |a|
  {
    if a == [] {
      assert a + b == b;
    } else {
      assert (a + b)[1..] == a[1..] + b;
      UsedConcat(Used(s, a[0], size), a[1..], b, size);
    }
  }

  /** The list holds the most recently used, as many as fit, in that order. */
  lemma {:induction false} HoldsMostRecent(ps: seq<Str>, size: nat)
    ensures UsedAll([], ps, size) == Take(Recent(ps), size)
    decreases |ps|
  {
    if ps != [] {
      var rest, p := ps[..|ps| - 1], ps[|ps| - 1];
      HoldsMostRecent(rest, size);
      RecentDistinct(rest);
      TakeUsed(Recent(rest), p, size);
      UsedSnoc([], rest, p, size);
      assert rest + [p] == ps;
    }
  }
}
