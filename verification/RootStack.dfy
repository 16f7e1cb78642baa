/** The stack of open ancestor directories that serves paths in walk order. */
module RootStacking {
  import opened Bytes
  import opened Paths
  import opened Roots

  datatype Item = Item(path: Str, root: Handle)

  // ---------------------------------------------------------------- relative paths

  function CommonLength(a: seq<Str>, b: seq<Str>): (n: nat)
    ensures n <= |a| && n <= |b|
  {
    if a == [] || b == [] || a[0] != b[0] then 0 else 1 + CommonLength(a[1..], b[1..])
  }

  function Ups(n: nat): seq<Str> { seq(n, _ => UP) }

  /** filepath.Rel of two cleaned paths, the first not ".". */
  function Rel(base: Str, target: Str): Option<Str>
  {
    var b, t := Split(base), Split(target);
    var n := CommonLength(b, t);
    if base == target then Some(CURRENT)
    else if IsAbs(base) != IsAbs(target) || (n < |b| && b[n] == UP) then None
    else Some(JoinAll(Ups(|b| - n) + t[n..]))
  }

  /** rootStackRel: the target relative to the base when it is below it. */
  function StackRel(base: Str, target: Str): Option<Str>
  {
    if base == CURRENT then if target == CURRENT then None else Some(target)
    else
      var rel := Rel(base, target);
      if rel.None? || rel.value == CURRENT || rel.value == UP || UP + [SEP] <= rel.value then None
      else rel
  }

  lemma {:induction false} CommonPrefixLength(a: seq<Str>, b: seq<Str>)
    ensures a[..CommonLength(a, b)] == b[..CommonLength(a, b)]
    ensures CommonLength(a, b) == |a| <==> a <= b
  {
    if a != [] && b != [] && a[0] == b[0] {
      CommonPrefixLength(a[1..], b[1..]);
      assert a == [a[0]] + a[1..] && b == [b[0]] + b[1..];
    }
  }

  lemma UpsShow(n: nat, rest: seq<Str>)
    requires n >= 1
    ensures (var r := JoinAll(Ups(n) + rest); r == UP || UP + [SEP] <= r)
  {
    var cs := Ups(n) + rest;
    assert cs[0] == UP;
    if |cs| > 1 { assert JoinAll(cs) == UP + [SEP] + JoinAll(cs[1..]); }
  }

  lemma SplitInjective(p: Str, q: Str)
    requires Split(p) == Split(q)
    ensures p == q
  {
    JoinSplit(p);
    JoinSplit(q);
  }

  lemma NamesJoin(cs: seq<Str>)
    requires cs != [] && AllNames(cs)
    ensures Split(JoinAll(cs)) == cs && JoinAll(cs) != CURRENT && JoinAll(cs) != UP && !(UP + [SEP] <= JoinAll(cs))
  {
    assert forall c :: c in cs ==> IsName(c);
    SplitJoin(cs);
    var p := JoinAll(cs);
    assert Normal(p);
    NormalPasses(p);
    SplitName(CURRENT);
    assert cs[0] in cs;
  }

  /** The target continues the base: what is left of it is the relative path. */
  lemma RelBelow(base: Str, target: Str)
    requires Normal(base) && CleanedPath(target) && target != base && Split(base) <= Split(target)
    ensures Normal(target) && StackRel(base, target).Some?
    ensures Split(target) == Split(base) + Split(StackRel(base, target).value)
  {
    hide Split, JoinAll, CommonLength;
    var b, t := Split(base), Split(target);
    CommonPrefixLength(b, t);
    SplitPieces(base);
    assert b[0] in b && b[0] == t[0];
    assert t == b + t[|b|..];
    if target == CURRENT { SplitName(CURRENT); }
    assert Normal(target);
    if t[|b|..] == [] {
      assert t == b;
      SplitInjective(base, target);
    }
    TailNames(t, |b|);
    assert Ups(0) + t[|b|..] == t[|b|..];
    NamesJoin(t[|b|..]);
    NormalRelative(base);
    NormalRelative(target);
    NotNormal(CURRENT, CURRENT);
  }

  lemma TailNames(t: seq<Str>, n: nat)
    requires AllNames(t) && n <= |t|
    ensures AllNames(t[n..])
  { }

  /** Otherwise the relative path would go up first. */
  lemma RelAside(base: Str, target: Str)
    requires Normal(base) && target != base && !(Split(base) <= Split(target))
    ensures StackRel(base, target).None?
  {
    hide Split, JoinAll, CommonLength;
    var b, t := Split(base), Split(target);
    var n := CommonLength(b, t);
    CommonPrefixLength(b, t);
    assert IsName(b[n]) by { assert b[n] in b; }
    UpsShow(|b| - n, t[n..]);
    NotNormal(CURRENT, CURRENT);
  }

  /** A relative path exists exactly for a proper descendant, and then leads from the base to it. */
  lemma StackRelMeaning(base: Str, target: Str)
    requires base == CURRENT || Normal(base)
    requires CleanedPath(target)
    ensures StackRel(base, target).Some? <==>
            target != base && (base == CURRENT || (Split(base) <= Split(target) && Normal(target)))
    ensures StackRel(base, target).Some? && base != CURRENT ==>
              Split(target) == Split(base) + Split(StackRel(base, target).value)
    ensures StackRel(base, target).Some? && base == CURRENT ==> StackRel(base, target).value == target
  {
    hide Split, Normal, CleanedPath;
    if base != CURRENT && target != base {
      hide StackRel;
      if Split(base) <= Split(target) { RelBelow(base, target); } else { RelAside(base, target); }
    }
  }

  // ---------------------------------------------------------------- the stack

  /** Each directory lies below the one before it, and its handle is on what its path denotes. */
  ghost predicate Chained(base: Handle, items: seq<Item>)
  {
    && items != [] && items[0] == Item(CURRENT, base)
    && (forall i :: 0 < i < |items| ==> Normal(items[i].path))
    && (forall i :: 0 <= i < |items| ==>
          items[i].root.dirs == base.dirs && Resolve(base.dirs, base.dir, items[i].path) == Some(items[i].root.dir))
    && (forall i, j :: 0 <= i < j < |items| ==> items[i].root != items[j].root)
    && (forall i, j :: 0 < i < j < |items| ==> Split(items[i].path) < Split(items[j].path))
  }

  /** How much of the stack is the directory itself or leads to it. */
  ghost function Kept(items: seq<Item>, dir: Str): (n: nat)
    ensures n <= |items|
  {
    if items == [] then 0
    else
      var top := items[|items| - 1].path;
      if top == dir || StackRel(top, dir).Some? then |items| else Kept(items[..|items| - 1], dir)
  }

  /** Some handle from position n up reports an error when it is closed. */
  ghost predicate FaultyFrom(items: seq<Item>, n: nat) { exists i :: n <= i < |items| && items[i].root.faulty }

  /** What a lookup leaves on the stack: what was there up to the directory or above it, and then the directory;
      or, when closing fails, what stood below the handle that failed. */
  ghost predicate Sought(before: seq<Item>, after: seq<Item>, dir: Str, root: Handle?)
  {
    var n := Kept(before, dir);
    if FaultyFrom(before, n) then
      && n <= |after| < |before| && after == before[..|after|] && before[|after|].root.faulty
      && forall i :: |after| < i < |before| ==> !before[i].root.faulty
    else if root == null || (n > 0 && before[n - 1].path == dir) then after == before[..n]
    else after == before[..n] + [Item(dir, root)]
  }

  /** The stack has been popped down to some height, by handles that closed without errors, and not too far. */
  ghost predicate Popped(before: seq<Item>, items: seq<Item>, dir: Str)
  {
    && |items| <= |before| && items == before[..|items|] && Kept(items, dir) == Kept(before, dir)
    && forall i :: |items| <= i < |before| ==> !before[i].root.faulty
  }

  lemma NotPopped(items: seq<Item>, dir: Str)
    ensures Popped(items, items, dir)
  { }

  lemma SoughtHere(before: seq<Item>, items: seq<Item>, dir: Str, root: Handle?)
    requires Popped(before, items, dir) && items != []
    requires items[|items| - 1].path == dir || StackRel(items[|items| - 1].path, dir).Some?
    ensures !FaultyFrom(before, Kept(before, dir))
    ensures items[|items| - 1].path == dir || root == null ==> Sought(before, items, dir, root)
    ensures items[|items| - 1].path != dir && root != null ==> Sought(before, items + [Item(dir, root)], dir, root)
  {
    hide StackRel;
    assert Kept(items, dir) == |items|;
  }

  lemma SoughtFurther(before: seq<Item>, items: seq<Item>, dir: Str)
    requires Popped(before, items, dir) && items != []
    requires items[|items| - 1].path != dir && StackRel(items[|items| - 1].path, dir).None?
    ensures !items[|items| - 1].root.faulty ==> Popped(before, items[..|items| - 1], dir)
    ensures items[|items| - 1].root.faulty ==>
              FaultyFrom(before, Kept(before, dir)) && Sought(before, items[..|items| - 1], dir, null)
  {
    hide StackRel;
    var rest := items[..|items| - 1];
    assert Kept(items, dir) == Kept(rest, dir) <= |rest|;
    assert rest == before[..|rest|] && before[|rest|] == items[|rest|];
  }

  ghost predicate OnStack(items: seq<Item>, h: Handle) { exists i :: 0 <= i < |items| && items[i].root == h }

  lemma ChainPush(base: Handle, items: seq<Item>, dir: Str, h: Handle)
    requires Chained(base, items) && h.dirs == base.dirs && !OnStack(items, h) && CleanedPath(dir)
    requires (var top := items[|items| - 1];
              var rel := StackRel(top.path, dir);
              rel.Some? && Walk(base.dirs, top.root.dir, Split(rel.value)) == Some(h.dir))
    ensures Resolve(base.dirs, base.dir, dir) == Some(h.dir)
    ensures Chained(base, items + [Item(dir, h)])
  {
    hide Resolve, Walk, StackRel, Normal, CleanedPath;
    Reached(base, items, dir);
    BelowAll(base, items, dir);
    ResolvedIsNormal(base.dirs, base.dir, dir);
    assert forall i :: 0 <= i < |items| ==> OnStack(items, items[i].root);
  }

  lemma ResolvedIsNormal(dirs: Dirs, root: DirId, dir: Str)
    requires Resolve(dirs, root, dir).Some?
    ensures dir == CURRENT || Normal(dir)
  {
    if dir != CURRENT { WalkNames(dirs, root, Split(dir)); }
  }

  lemma PrefixTransitive<T>(a: seq<T>, b: seq<T>, c: seq<T>)
    requires a <= b < c
    ensures a < c
  { }

  lemma BelowAll(base: Handle, items: seq<Item>, dir: Str)
    requires Chained(base, items) && CleanedPath(dir) && StackRel(items[|items| - 1].path, dir).Some?
    ensures dir != CURRENT
    ensures forall i :: 0 < i < |items| ==> Split(items[i].path) < Split(dir)
  {
    hide Resolve, Walk, Split;
    var top := items[|items| - 1];
    StackRelMeaning(top.path, dir);
    if |items| > 1 {
      CurrentIsNoName();
      if Split(top.path) == Split(dir) { SplitInjective(top.path, dir); }
      forall i | 0 < i < |items| ensures Split(items[i].path) < Split(dir) {
        PrefixTransitive(Split(items[i].path), Split(top.path), Split(dir));
      }
    }
  }

  lemma CurrentIsNoName()
    ensures !Normal(CURRENT)
  {
    SplitName(CURRENT);
    assert CURRENT in [CURRENT];
  }

  lemma ChainPop(base: Handle, items: seq<Item>)
    requires Chained(base, items) && |items| > 1
    ensures Chained(base, items[..|items| - 1])
    ensures forall i, j :: 0 <= i < j < |items| ==> items[i].root != items[j].root
  { }

  /** Opening the rest of the way from the top reaches what the whole path denotes. */
  lemma Reached(base: Handle, items: seq<Item>, dir: Str)
    requires Chained(base, items) && CleanedPath(dir)
    requires StackRel(items[|items| - 1].path, dir).Some?
    ensures (var top := items[|items| - 1];
             Resolve(base.dirs, base.dir, dir) == Walk(base.dirs, top.root.dir, Split(StackRel(top.path, dir).value)))
  {
    var top := items[|items| - 1];
    StackRelMeaning(top.path, dir);
    if top.path != CURRENT {
      WalkConcat(base.dirs, base.dir, Split(top.path), Split(StackRel(top.path, dir).value));
      SplitName(CURRENT);
      assert Split(top.path)[0] in Split(top.path);
    }
  }

  class RootStack {
    const base: Handle
    var items: seq<Item>
    ghost var all: set<Handle>  // every handle ever on the stack

    /** The handles on the stack are open, those taken off it have been closed once. */
    ghost predicate Valid()
      reads this, all
    {
      && Chained(base, items)
      && (forall i :: 0 <= i < |items| ==> items[i].root in all)
      && (forall h :: h in all ==> h.closes == if OnStack(items, h) then 0 else 1)
    }

    constructor (root: Handle)
      requires root.closes == 0
      ensures Valid() && base == root && all == {root} && |items| == 1
    {
      base := root;
      items := [Item(CURRENT, root)];
      all := {root};
    }

    method Pop() returns (err: bool)
      requires Valid() && |items| > 1
      modifies `items, items[|items| - 1].root
      ensures Valid() && items == old(items)[..|old(items)| - 1]
      ensures err == old(items)[|old(items)| - 1].root.faulty
    {
      hide Chained, OnStack;
      TopFacts();
      ChainPop(base, items);
      Unstacked(items, all);
      var item := items[|items| - 1];
      items := items[..|items| - 1];
      err := item.root.Close();
    }

    /** The handle of the path's parent directory, or null with an error: from the stack, or opened
        relative to the nearest ancestor on it once everything else has been popped. */
    method Get(p: Str) returns (root: Handle?, name: Str)
      requires Valid()
      modifies this, all
      ensures Valid() && old(all) <= all && fresh(all - old(all))
      ensures name == Base(CleanRoot(p))
      ensures (root != null ==>
                 && root.closes == 0 && items[|items| - 1] == Item(Dir(CleanRoot(p)), root)
                 && Resolve(base.dirs, base.dir, Dir(CleanRoot(p))) == Some(root.dir))
      ensures (root == null <==>
                 || FaultyFrom(old(items), Kept(old(items), Dir(CleanRoot(p))))
                 || Resolve(base.dirs, base.dir, Dir(CleanRoot(p))).None?)
      ensures Sought(old(items), items, Dir(CleanRoot(p)), root)
    {
      hide CleanRoot, Sought, Kept, FaultyFrom, Dir, Base, CleanedPath, Resolve, Chained, OnStack;
      var cleaned := CleanRoot(p);
      var dir := Dir(cleaned);
      name := Base(cleaned);
      DirIsCleaned(cleaned);
      root := Seek(dir);
    }

    method Seek(dir: Str) returns (root: Handle?)
      requires Valid() && CleanedPath(dir)
      modifies this, all
      ensures Valid() && old(all) <= all && fresh(all - old(all))
      ensures (root != null ==>
                 && root.closes == 0 && items[|items| - 1] == Item(dir, root)
                 && Resolve(base.dirs, base.dir, dir) == Some(root.dir))
      ensures (root == null <==>
                 FaultyFrom(old(items), Kept(old(items), dir)) || Resolve(base.dirs, base.dir, dir).None?)
      ensures Sought(old(items), items, dir, root)
    {
      hide Chained, Resolve, Walk, Normal, StackRel, CleanedPath, Sought, Kept, FaultyFrom, Popped, OnStack;
      ghost var before := items;
      NotPopped(items, dir);
      while true
        invariant Valid() && all == old(all) && Popped(before, items, dir)
        decreases |items|
      {
        TopFacts();
        var top := items[|items| - 1];
        if top.path == dir {
          SoughtHere(before, items, dir, top.root);
          return top.root;
        }
        var rel := StackRel(top.path, dir);
        if rel.Some? {
          Reached(base, items, dir);
          var osroot := top.root.OpenRoot(rel.value);
          SoughtHere(before, items, dir, osroot);
          if osroot == null {
            return null;
          }
          OpenedIsNew(osroot);
          ChainPush(base, items, dir, osroot);
          Stacked(items, all, Item(dir, osroot));
          items := items + [Item(dir, osroot)];
          all := all + {osroot};
          return osroot;
        }
        AboveBase(dir);
        SoughtFurther(before, items, dir);
        var err := Pop();
        if err {
          return null;
        }
      }
    }

    lemma OpenedIsNew(h: Handle)
      requires Valid() && h !in all
      ensures !OnStack(items, h)
    { }

    lemma TopFacts()
      requires Valid()
      ensures items != [] && items[|items| - 1].root in all && items[|items| - 1].root.closes == 0
      ensures items[|items| - 1].root.dirs == base.dirs
      ensures (Resolve(base.dirs, base.dir, items[|items| - 1].path) == Some(items[|items| - 1].root.dir))
      ensures base in all && base.closes == 0
    {
      assert OnStack(items, items[|items| - 1].root) && OnStack(items, items[0].root);
    }

    /** The bottom of the stack serves every path, so the loop never runs out of it. */
    lemma AboveBase(dir: Str)
      requires Valid() && CleanedPath(dir)
      requires items[|items| - 1].path != dir && StackRel(items[|items| - 1].path, dir).None?
      ensures |items| > 1
    { }

    /** Everything but the base is popped, whatever errors the handles report. */
    method Close() returns (err: bool)
      requires Valid()
      modifies this, all
      ensures Valid() && all == old(all) && |items| == 1
      ensures err <==> exists i :: 0 < i < |old(items)| && old(items)[i].root.faulty
      ensures base.closes == 0 && forall h :: h in all && h != base ==> h.closes == 1
    {
      hide Chained, Resolve, CleanedPath;
      TopFacts();
      err := false;
      while |items| > 1
        invariant Valid() && all == old(all) && items <= old(items) && items != []
        invariant err <==> exists i :: |items| <= i < |old(items)| && old(items)[i].root.faulty
        decreases |items|
      {
        var err2 := Pop();
        err := err || err2;
      }
      TopFacts();
    }
  }

  lemma Unstacked(items: seq<Item>, all: set<Handle>)
    requires |items| > 1 && forall i, j :: 0 <= i < j < |items| ==> items[i].root != items[j].root
    ensures !OnStack(items[..|items| - 1], items[|items| - 1].root)
    ensures forall h :: h in all && h != items[|items| - 1].root ==>
              (OnStack(items, h) <==> OnStack(items[..|items| - 1], h))
  {
    var t := items[..|items| - 1];
    forall h | h in all && h != items[|items| - 1].root ensures OnStack(items, h) <==> OnStack(t, h) {
      if OnStack(items, h) {
        var i :| 0 <= i < |items| && items[i].root == h;
        assert t[i].root == h;
      }
      if OnStack(t, h) {
        var i :| 0 <= i < |t| && t[i].root == h;
        assert items[i].root == h;
      }
    }
  }

  lemma Stacked(items: seq<Item>, all: set<Handle>, item: Item)
    ensures OnStack(items + [item], item.root)
    ensures forall h :: h in all && h != item.root ==> (OnStack(items, h) <==> OnStack(items + [item], h))
  {
    var t := items + [item];
    assert t[|items|] == item;
    forall h | h in all && h != item.root ensures OnStack(items, h) <==> OnStack(t, h) {
      if OnStack(items, h) {
        var i :| 0 <= i < |items| && items[i].root == h;
        assert t[i].root == h;
      }
    }
  }
}
