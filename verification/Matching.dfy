/** What the text of a pattern matches: "*" within a name, "**" across names, "?" one byte of a name, "[...]" one
    byte of a class, "\\" the byte behind it, and any other byte itself. */
module Matching {
  import opened Bytes
  import opened Paths
  import opened Patterns

  const QUESTION: byte := 63
  const OPEN: byte := 91
  const CLOSE: byte := 93
  const HAT: byte := 94
  const DASH: byte := 45
  const ESCAPE: byte := 92

  /** The body of a class: single bytes, escaped ones and ranges. */
  predicate InClass(body: Str, b: byte)
  {
    body != [] &&
    if body[0] == ESCAPE && |body| > 1 then b == body[1] || InClass(body[2..], b)
    else if |body| > 2 && body[1] == DASH then body[0] <= b <= body[2] || InClass(body[3..], b)
    else b == body[0] || InClass(body[1..], b)
  }

  /** Where the class that begins s ends: at its first bracket that is not escaped. */
  function ClassEnd(s: Str, i: nat): (n: nat)
    requires i <= |s|
    ensures i <= n <= |s|
    decreases |s| - i
  {
    if i == |s| || s[i] == CLOSE then i
    else if s[i] == ESCAPE && i + 1 < |s| then ClassEnd(s, i + 2)
    else ClassEnd(s, i + 1)
  }

  predicate ClassMatches(body: Str, b: byte)
  {
    if body != [] && body[0] == HAT then !InClass(body[1..], b) else InClass(body, b)
  }

  /** Behind "**", the separator is optional. */
  function AfterStars(p: Str): (r: Str)
    ensures |r| <= |p|
  {
    if p != [] && p[0] == SEP then p[1..] else p
  }

  /** The whole of q is matched by p. */
  predicate MatchText(p: Str, q: Str)
    decreases |p|
  {
    if p == [] then q == []
    else if p[0] == STAR then
      if |p| > 1 && p[1] == STAR then
        var r := AfterStars(p[2..]);
        r == [] || MatchText(r, q) || exists i :: 0 <= i < |q| && q[i] == SEP && MatchText(r, q[i + 1..])
      else exists i :: 0 <= i <= |q| && SEP !in q[..i] && MatchText(p[1..], q[i..])
    else if p[0] == QUESTION then q != [] && q[0] != SEP && MatchText(p[1..], q[1..])
    else if p[0] == OPEN then
      var n := ClassEnd(p, 1);
      n < |p| && q != [] && ClassMatches(p[1..n], q[0]) && MatchText(p[n + 1..], q[1..])
    else if p[0] == ESCAPE && |p| > 1 then q != [] && q[0] == p[1] && MatchText(p[2..], q[1..])
    else q != [] && q[0] == p[0] && MatchText(p[1..], q[1..])
  }

  /** Bytes that are not special match themselves. */
  lemma {:induction false} LiteralPrefix(b: Str, s: Str, q: Str)
    requires !HasSpecial(b)
    ensures MatchText(b + s, q) <==> b <= q && MatchText(s, q[|b|..])
    decreases |b|
  {
    if b == [] {
      assert b + s == s && q[0..] == q;
    } else {
      assert !IsSpecial(b[0]);
      assert !HasSpecial(b[1..]) by { assert forall i :: 0 <= i < |b| - 1 ==> b[1..][i] == b[i + 1]; }
      assert (b + s)[1..] == b[1..] + s;
      if q != [] {
        LiteralPrefix(b[1..], s, q[1..]);
        assert b <= q <==> b[0] == q[0] && b[1..] <= q[1..] by {
          if b <= q { assert q[1..][..|b| - 1] == b[1..]; }
        }
        if b <= q { assert q[1..][|b| - 1..] == q[|b|..]; }
      }
    }
  }

  /** A text that is not special matches itself only. */
  lemma PlainTextMatches(b: Str, q: Str)
    requires !HasSpecial(b)
    ensures MatchText(b, q) <==> q == b
  {
    LiteralPrefix(b, [], q);
    assert b + [] == b;
  }

  /** "*" matches what has no separator, "**" anything. */
  lemma StarMatches(q: Str)
    ensures MatchText([STAR], q) <==> SEP !in q
    ensures MatchText([STAR, STAR], q)
  {
    assert [STAR][1..] == [];
    if SEP !in q { assert q[..|q|] == q && q[|q|..] == []; }
    if i :| 0 <= i <= |q| && SEP !in q[..i] && MatchText([], q[i..]) { assert q[..i] == q; }
    assert [STAR, STAR][2..] == [];
  }

  lemma SepBefore(s: Str, q: Str)
    ensures MatchText([SEP] + s, q) <==> q != [] && q[0] == SEP && MatchText(s, q[1..])
  {
    assert ([SEP] + s)[1..] == s;
  }

  /** "*", a separator and "**" match what has a separator. */
  lemma StackedMatches(q: Str)
    ensures MatchText([STAR] + DOUBLE_GLOB, q) <==> SEP in q
  {
    var p := [STAR] + DOUBLE_GLOB;
    assert p[0] == STAR && p[1] == SEP && p[1..] == DOUBLE_GLOB == [SEP] + [STAR, STAR];
    forall r ensures MatchText(DOUBLE_GLOB, r) <==> r != [] && r[0] == SEP {
      SepBefore([STAR, STAR], r);
      if r != [] { StarMatches(r[1..]); }
    }
    if SEP in q {
      var i := FirstSep(q);
      assert q[i..][0] == SEP;
    }
    if i :| 0 <= i <= |q| && SEP !in q[..i] && MatchText(p[1..], q[i..]) {
      assert q[i] == q[i..][0] == SEP;
    }
  }

  lemma FirstSep(q: Str) returns (i: nat)
    requires SEP in q
    ensures i < |q| && q[i] == SEP && SEP !in q[..i]
  {
    if q[0] == SEP {
      i := 0;
    } else {
      i := FirstSep(q[1..]);
      assert q[..i + 1] == [q[0]] + q[1..][..i];
      i := i + 1;
    }
  }

  /** The pattern's matching is that of its text. */
  ghost predicate IsCompiled(p: Pattern) { forall q :: p.matches(q) <==> MatchText(p.text, q) }

  lemma BehindBase(b: Str, s: Str, q: Str)
    requires !HasSpecial(b)
    ensures MatchText(b + ([SEP] + s), q) <==> Under(q, b) && MatchText(s, q[|b| + 1..])
  {
    LiteralPrefix(b, [SEP] + s, q);
    if b <= q {
      SepBefore(s, q[|b|..]);
      if q[|b|..] != [] { assert q[|b|..][1..] == q[|b| + 1..]; }
    }
    assert Under(q, b) <==> b <= q && q[|b|..] != [] && q[|b|..][0] == SEP;
  }

  lemma GlobMatches(b: Str, q: Str)
    requires !HasSpecial(b)
    ensures MatchText(b + GLOB, q) <==> Under(q, b) && SEP !in q[|b| + 1..]
    ensures MatchText(b + DOUBLE_GLOB, q) <==> Under(q, b)
  {
    hide HasSpecial, MatchText;
    assert GLOB == [SEP] + [STAR] && DOUBLE_GLOB == [SEP] + [STAR, STAR];
    BehindBase(b, [STAR], q);
    BehindBase(b, [STAR, STAR], q);
    if Under(q, b) { StarMatches(q[|b| + 1..]); }
  }

  lemma StackedGlobMatchesText(b: Str, q: Str)
    requires !HasSpecial(b)
    ensures MatchText(b + GLOB + DOUBLE_GLOB, q) <==> Under(q, b) && SEP in q[|b| + 1..]
  {
    hide HasSpecial, MatchText;
    assert b + GLOB + DOUBLE_GLOB == b + ([SEP] + ([STAR] + DOUBLE_GLOB));
    BehindBase(b, [STAR] + DOUBLE_GLOB, q);
    if Under(q, b) { StackedMatches(q[|b| + 1..]); }
  }

  lemma ShapeMatches(p: Pattern, b: Str, q: Str)
    requires IsCompiled(p) && !HasSpecial(b)
    ensures p.text == b ==> (p.matches(q) <==> q == b)
    ensures p.text == b + GLOB ==> (p.matches(q) <==> Under(q, b) && SEP !in q[|b| + 1..])
    ensures p.text == b + DOUBLE_GLOB ==> (p.matches(q) <==> Under(q, b))
    ensures p.text == b + GLOB + DOUBLE_GLOB ==> (p.matches(q) <==> Under(q, b) && SEP in q[|b| + 1..])
  {
    hide HasSpecial, MatchText, Under;
    assert p.matches(q) <==> MatchText(p.text, q);
    PlainTextMatches(b, q);
    GlobMatches(b, q);
    StackedGlobMatchesText(b, q);
  }

  /** Which is what the trimming relies on. */
  lemma CompiledIsFaithful(p: Pattern)
    requires IsCompiled(p)
    ensures Faithful(p)
  {
    hide HasSpecial, MatchText, IsCompiled, WithoutTrailingGlob;
    var b := WithoutTrailingGlob(p);
    if !HasSpecial(b) {
      forall q
        ensures p.text == b ==> (p.matches(q) <==> q == b)
        ensures p.text == b + GLOB ==> (p.matches(q) <==> Under(q, b) && SEP !in q[|b| + 1..])
        ensures p.text == b + DOUBLE_GLOB ==> (p.matches(q) <==> Under(q, b))
        ensures p.text == b + GLOB + DOUBLE_GLOB ==> (p.matches(q) <==> Under(q, b) && SEP in q[|b| + 1..])
      {
        ShapeMatches(p, b, q);
      }
    }
  }

  /** A pattern from its text, a leading "!" making it an exception. */
  function Compiled(text: Str): Pattern
  {
    if text != [] && text[0] == 33 then Pattern(text[1..], true, q => MatchText(text[1..], q))
    else Pattern(text, false, q => MatchText(text, q))
  }

  lemma CompiledTexts(text: Str)
    ensures IsCompiled(Compiled(text))
  { }
}
