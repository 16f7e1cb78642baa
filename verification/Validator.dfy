/** The order validator: a stack of open directories that recognises, one change at a
    time, exactly the pre-order walks of a directory tree. */
module Validation {
  import opened Bytes
  import opened Paths
  import opened Stats

  datatype OpenDir = OpenDir(dir: Str, last: Str)

  datatype ValidateError = UncleanPath | AbsolutePath | EscapingPath | OutOfOrder

  function Child(dir: Str, base: Str): Str { if dir == [] then base else dir + [SEP] + base }

  // ---------------------------------------------------------------- reference definition

  /** One of the first n changes left a directory at d. */
  predicate Opened(hist: seq<Change>, n: int, d: Str)
    requires n <= |hist|
  {
    exists j :: 0 <= j < n && hist[j].path == d && hist[j].OpensDir()
  }

  /** Entry i is a clean relative path whose parent was opened earlier as a directory. */
  predicate Grounded(hist: seq<Change>, i: int)
    requires 0 <= i < |hist|
  {
    Acceptable(hist[i].path) && (Parent(hist[i].path) != [] ==> Opened(hist, i, Parent(hist[i].path)))
  }

  predicate Increasing(hist: seq<Change>)
  {
    forall i, j :: 0 <= i < j < |hist| ==> Before(hist[i].path, hist[j].path)
  }

  /** What a whole stream must satisfy. */
  predicate ValidStream(hist: seq<Change>)
  {
    Increasing(hist) && forall i :: 0 <= i < |hist| ==> Grounded(hist, i)
  }

  /** c may follow the valid stream hist. */
  predicate MayFollow(hist: seq<Change>, c: Change)
  {
    && (hist != [] ==> Before(hist[|hist| - 1].path, c.path))
    && Acceptable(c.path) && (Parent(c.path) != [] ==> Opened(hist, |hist|, Parent(c.path)))
  }

  lemma OpenedGrows(hist: seq<Change>, c: Change, n: nat, d: Str)
    requires n <= |hist|
    ensures Opened(hist, n, d) <==> Opened(hist + [c], n, d)
    ensures Opened(hist, n, d) ==> Opened(hist + [c], |hist| + 1, d)
  {
    var all := hist + [c];
    assert forall j :: 0 <= j < |hist| ==> all[j] == hist[j];
  }

  lemma GroundedGrows(hist: seq<Change>, c: Change, i: nat)
    requires i < |hist|
    ensures Grounded(hist, i) <==> Grounded(hist + [c], i)
  {
    OpenedGrows(hist, c, i, Parent(hist[i].path));
  }

  lemma {:induction false} IncreasingGrows(hist: seq<Change>, c: Change)
    ensures Increasing(hist + [c]) <==>
              Increasing(hist) && (hist != [] ==> Before(hist[|hist| - 1].path, c.path))
  {
    var all := hist + [c];
    assert all[|hist|] == c && forall i :: 0 <= i < |hist| ==> all[i] == hist[i];
    if Increasing(all) {
      forall i, j | 0 <= i < j < |hist| ensures Before(hist[i].path, hist[j].path) {
        assert Before(all[i].path, all[j].path);
      }
      if hist != [] { assert Before(all[|hist| - 1].path, all[|hist|].path); }
    } else if Increasing(hist) && (hist != [] ==> Before(hist[|hist| - 1].path, c.path)) {
      forall i, j | 0 <= i < j < |all| ensures Before(all[i].path, all[j].path) {
        if j == |hist| && i < |hist| - 1 {
          BeforeTransitive(hist[i].path, hist[|hist| - 1].path, c.path);
        }
      }
    }
  }

  lemma ValidStreamExtends(hist: seq<Change>, c: Change)
    ensures ValidStream(hist + [c]) <==> ValidStream(hist) && MayFollow(hist, c)
  {
    var all := hist + [c];
    IncreasingGrows(hist, c);
    OpenedGrows(hist, c, |hist|, Parent(c.path));
    assert Grounded(all, |hist|) <==>
      Acceptable(c.path) && (Parent(c.path) != [] ==> Opened(hist, |hist|, Parent(c.path)));
    forall i: nat | i < |hist| ensures Grounded(hist, i) <==> Grounded(all, i) {
      GroundedGrows(hist, c, i);
    }
    if ValidStream(all) {
      forall i: nat | i < |hist| ensures Grounded(hist, i) { assert Grounded(all, i); }
    } else if ValidStream(hist) && MayFollow(hist, c) {
      forall i: nat | i < |all| ensures Grounded(all, i) {
        if i < |hist| { assert Grounded(hist, i); }
      }
    }
  }

  // ---------------------------------------------------------------- the stack

  /** The top-most open directory that is not after dir. */
  function FindOpen(stack: seq<OpenDir>, dir: Str): (k: int)
    ensures -1 <= k < |stack|
    ensures forall i :: k < i < |stack| ==> Before(dir, stack[i].dir)
    ensures k >= 0 ==> !Before(dir, stack[k].dir)
  {
    if stack == [] then -1
    else if !Before(dir, stack[|stack| - 1].dir) then |stack| - 1
    else FindOpen(stack[..|stack| - 1], dir)
  }

  /** Keep the first k directories, note base in the next one, and open a new directory. */
  function Noted(stack: seq<OpenDir>, k: nat, base: Str, newDir: Option<Str>): seq<OpenDir>
    requires k < |stack|
  {
    var noted := stack[..k] + [OpenDir(stack[k].dir, base)];
    if newDir.Some? then noted + [OpenDir(newDir.value, [])] else noted
  }

  /** Close directories down to the parent, note the name, and open the path itself when
      it is a directory. */
  function Place(stack: seq<OpenDir>, c: Change): Option<seq<OpenDir>>
  {
    var dir, base := Parent(c.path), Name(c.path);
    var k := FindOpen(stack, dir);
    if k < 0 || stack[k].dir != dir || !LexLess(stack[k].last, base) then None
    else Some(Noted(stack, k, base, if c.OpensDir() then Some(c.path) else None))
  }

  /** One accepted change. */
  function Step(stack: seq<OpenDir>, c: Change): Option<seq<OpenDir>>
  {
    if Acceptable(c.path) then Place(stack, c) else None
  }

  /** Which check refuses the path, if one does. */
  function PathError(p: Str): Option<ValidateError>
  {
    if p != Clean(p) then Some(UncleanPath)
    else if IsAbs(p) then Some(AbsolutePath)
    else if Escapes(p) then Some(EscapingPath)
    else None
  }

  /** The error reported for a change, if there is one. */
  function Refusal(stack: seq<OpenDir>, c: Change): Option<ValidateError>
  {
    if PathError(c.path).Some? then PathError(c.path)
    else if Place(stack, c).None? then Some(OutOfOrder)
    else None
  }

  /** The stack after a change, accepted or not: an order error leaves only the directories that are not after
      the parent of its path. */
  function After(stack: seq<OpenDir>, c: Change): seq<OpenDir>
  {
    if PathError(c.path).Some? then stack
    else
      match Place(stack, c)
      case Some(next) => next
      case None => stack[..FindOpen(stack, Parent(c.path)) + 1]
  }

  lemma PathErrorExact(p: Str)
    ensures PathError(p).None? <==> Acceptable(p)
    ensures PathError(p) == Some(AbsolutePath) <==> p == Clean(p) && p != [] && p[0] == SEP
    ensures PathError(p) == Some(EscapingPath) <==> p == Clean(p) && !IsAbs(p) && Split(p)[0] == UP
    ensures PathError(p) == Some(UncleanPath) <==> p != Clean(p)
    ensures PathError(p).Some? ==> !PathError(p).value.OutOfOrder?
  {
    CleanRelative(p);
    if p == Clean(p) && !IsAbs(p) { EscapesUp(p); }
  }

  /** A clean relative path escapes exactly if it begins with "..". */
  lemma EscapesUp(p: Str)
    requires p == Clean(p) && !IsAbs(p)
    ensures Escapes(p) <==> Split(p)[0] == UP
  {
    hide Clean, Escapes;
    CleanRelative(p);
    if p == CURRENT {
      SplitName(CURRENT);
    } else {
      UpOrNames(p);
      if Normal(p) { assert Split(p)[0] in Split(p); }
    }
  }

  lemma UpOrNames(p: Str)
    requires p == Clean(p) && !IsAbs(p) && p != CURRENT
    ensures Split(p)[0] == UP || Normal(p)
  {
    var cs := CleanComps(Split(p), false, []);
    CleanOutput(p);
    SplitJoin(cs);
    if cs[0] != UP { NoUpAfterName(cs, |cs|); }
  }

  const START := [OpenDir([], [])]

  /** The stack after a whole stream, None once a change is refused. */
  function Run(hist: seq<Change>): Option<seq<OpenDir>>
  {
    if hist == [] then Some(START)
    else
      match Run(hist[..|hist| - 1])
      case None => None
      case Some(stack) => Step(stack, hist[|hist| - 1])
  }

  /** The path the stack stands at: the last accepted path. */
  function Position(stack: seq<OpenDir>): Str
    requires stack != []
  {
    var top := stack[|stack| - 1];
    if top.last == [] then top.dir else Child(top.dir, top.last)
  }

  predicate Linked(stack: seq<OpenDir>, k: nat)
    requires k < |stack| - 1
  {
    stack[k].last != [] && stack[k + 1].dir == Child(stack[k].dir, stack[k].last)
  }

  /** Each open directory is the last child noted in the one below it. */
  predicate Chain(stack: seq<OpenDir>)
  {
    && stack != [] && stack[0].dir == []
    && (forall k :: 0 <= k < |stack| - 1 ==> Linked(stack, k))
    && (forall k :: 0 <= k < |stack| ==> SEP !in stack[k].last)
    && (forall k :: 0 < k < |stack| ==> stack[k].dir != [])
  }

  lemma ChildBefore(d: Str, b: Str)
    requires b != []
    ensures Before(d, Child(d, b))
  {
    if d != [] { PrefixBefore(d, d + [SEP] + b); }
  }

  /** Open directories are increasing, and the position lies at or below all of them. */
  lemma {:induction false} ChainOrder(stack: seq<OpenDir>, k: nat)
    requires Chain(stack) && k < |stack|
    ensures stack[k].last != [] ==>
              Child(stack[k].dir, stack[k].last) == Position(stack)
              || Under(Position(stack), Child(stack[k].dir, stack[k].last))
    ensures forall j :: k < j < |stack| ==> Before(stack[k].dir, stack[j].dir)
    decreases |stack| - k
  {
    if k < |stack| - 1 {
      assert Linked(stack, k);
      ChainOrder(stack, k + 1);
      PositionBelow(stack, k + 1);
      ChildBefore(stack[k].dir, stack[k].last);
      forall j | k < j < |stack| ensures Before(stack[k].dir, stack[j].dir) {
        if j > k + 1 {
          BeforeTransitive(stack[k].dir, stack[k + 1].dir, stack[j].dir);
        }
      }
    }
  }

  lemma PositionBelow(stack: seq<OpenDir>, k: nat)
    requires Chain(stack) && 0 < k < |stack|
    requires stack[k].last != [] ==>
               Child(stack[k].dir, stack[k].last) == Position(stack)
               || Under(Position(stack), Child(stack[k].dir, stack[k].last))
    ensures stack[k].dir == Position(stack) || Under(Position(stack), stack[k].dir)
  {
    assert k < |stack| - 1 ==> Linked(stack, k);
  }

  lemma UnderChild(d: Str, b: Str, a: Str)
    requires Under(Child(d, b), a) && SEP !in b
    ensures d == a || Under(d, a)
  {
    var p := Child(d, b);
    assert p[|a|] == SEP;
    if d != [] {
      assert forall i :: |d| < i < |p| ==> p[i] in b;
      if |a| < |d| {
        assert d[..|a| + 1] == p[..|a| + 1] == a + [SEP];
      } else {
        assert d == p[..|d|] == a;
      }
    }
  }

  /** Every proper ancestor of the position is an open directory. */
  lemma {:induction false} AncestorsOpen(stack: seq<OpenDir>, k: nat, a: Str) returns (i: nat)
    requires Chain(stack) && k < |stack| && a != [] && Under(stack[k].dir, a)
    ensures 0 < i < k && stack[i].dir == a
  {
    assert Linked(stack, k - 1);
    UnderChild(stack[k - 1].dir, stack[k - 1].last, a);
    if stack[k - 1].dir == a {
      i := k - 1;
    } else {
      i := AncestorsOpen(stack, k - 1, a);
    }
  }

  /** The stack reflects an accepted stream. */
  predicate Tracks(stack: seq<OpenDir>, hist: seq<Change>)
  {
    && Chain(stack)
    && (hist == [] ==> stack == START)
    && (hist != [] ==> Position(stack) == hist[|hist| - 1].path)
    && (hist != [] && hist[|hist| - 1].OpensDir() ==> stack[|stack| - 1].last == [])
    && (forall k :: 0 < k < |stack| ==> Opened(hist, |hist|, stack[k].dir))
  }

  lemma FindExact(stack: seq<OpenDir>, k: nat)
    requires Chain(stack) && k < |stack|
    ensures FindOpen(stack, stack[k].dir) == k
  {
    var f := FindOpen(stack, stack[k].dir);
    BeforeTotal(stack[k].dir, stack[k].dir);
    if f > k {
      ChainOrder(stack, k);
    }
  }

  /** An opened directory that is the parent of a later path is still open. */
  lemma ParentStillOpen(stack: seq<OpenDir>, hist: seq<Change>, p: Str) returns (k: nat)
    requires Tracks(stack, hist) && ValidStream(hist) && Acceptable(p)
    requires hist != [] ==> Before(hist[|hist| - 1].path, p)
    requires Parent(p) != [] ==> Opened(hist, |hist|, Parent(p))
    ensures k < |stack| && stack[k].dir == Parent(p)
  {
    hide Acceptable, Before, Name, IsDir, Grounded, Linked, Child;
    var d := Parent(p);
    if d == [] {
      k := 0;
    } else {
      var j :| 0 <= j < |hist| && hist[j].path == d && hist[j].OpensDir();
      var pos := Position(stack);
      ParentAndName(p);
      assert Under(p, d);
      if j == |hist| - 1 {
        k := |stack| - 1;
      } else {
        DescendantsContiguous(d, pos, p);
        k := AncestorOfPosition(stack, d);
      }
    }
  }

  lemma AncestorOfPosition(stack: seq<OpenDir>, d: Str) returns (k: nat)
    requires Chain(stack) && d != [] && Under(Position(stack), d)
    ensures k < |stack| && stack[k].dir == d
  {
    k := |stack| - 1;
    if stack[k].last != [] {
      UnderChild(stack[k].dir, stack[k].last, d);
    }
    if stack[k].dir != d {
      k := AncestorsOpen(stack, k, d);
    }
  }

  lemma AcceptableName(p: Str)
    requires Acceptable(p)
    ensures Name(p) != [] && SEP !in Name(p) && p == Child(Parent(p), Name(p)) && p != []
  {
    SplitParent(p);
    if Normal(p) {
      NormalParts(p);
      if LastSep(p) >= 0 { NormalRelative(Parent(p)); }
      NormalRelative(p);
    } else {
      OneComponent(p);
    }
  }

  /** In the directory d the noted name is below the new one exactly when the position is
      before the new path. */
  lemma LastDecides(stack: seq<OpenDir>, k: nat, base: Str)
    requires Chain(stack) && k < |stack| && base != [] && SEP !in base
    ensures LexLess(stack[k].last, base) <==> Before(Position(stack), Child(stack[k].dir, base))
  {
    var d, last, pos := stack[k].dir, stack[k].last, Position(stack);
    ChainOrder(stack, k);
    if last == [] {
      assert k < |stack| - 1 ==> Linked(stack, k);
      ChildBefore(d, base);
    } else {
      SiblingsDecide(d, last, base, pos);
    }
  }

  lemma SiblingsDecide(d: Str, last: Str, base: Str, pos: Str)
    requires last != [] && SEP !in last && base != [] && SEP !in base
    requires pos == Child(d, last) || Under(pos, Child(d, last))
    ensures LexLess(last, base) <==> Before(pos, Child(d, base))
  {
    var e, p := Child(d, last), Child(d, base);
    NamesOrder(last, base);
    if d != [] {
      CommonPrefix(d + [SEP], last, base);
    }
    assert LexLess(last, base) <==> Before(e, p);
    if pos != e {
      PrefixBefore(e, pos);
      BeforeTotal(pos, p);
      if Before(e, p) && !Before(pos, p) {
        if pos != p { DescendantsContiguous(e, p, pos); }
        UnderChild(d, base, e);
      }
      if Before(pos, p) { BeforeTransitive(e, pos, p); }
    }
  }

  /** One step accepts exactly what may follow, and keeps the stack in step. */
  lemma StepRecognises(stack: seq<OpenDir>, hist: seq<Change>, c: Change)
    requires Tracks(stack, hist) && ValidStream(hist)
    ensures Step(stack, c).Some? <==> MayFollow(hist, c)
    ensures Step(stack, c).Some? ==> Tracks(Step(stack, c).value, hist + [c])
  {
    if Acceptable(c.path) {
      AcceptableName(c.path);
      var dir, base := Parent(c.path), Name(c.path);
      if MayFollow(hist, c) {
        var k := ParentStillOpen(stack, hist, c.path);
        FindExact(stack, k);
        LastDecides(stack, k, base);
      }
      if Step(stack, c).Some? {
        var k := FindOpen(stack, dir);
        LastDecides(stack, k, base);
        NotedTracks(stack, hist, c, k, base);
      }
    }
  }

  lemma NotedChain(stack: seq<OpenDir>, k: nat, base: Str, newDir: Option<Str>)
    requires Chain(stack) && k < |stack| && base != [] && SEP !in base
    requires newDir.Some? ==> newDir.value == Child(stack[k].dir, base)
    ensures Chain(Noted(stack, k, base, newDir))
    ensures Position(Noted(stack, k, base, newDir)) == Child(stack[k].dir, base)
  {
    var next := Noted(stack, k, base, newDir);
    assert forall i :: 0 <= i < k ==> next[i] == stack[i];
    assert next[k] == OpenDir(stack[k].dir, base);
    forall i: nat | i < |next| - 1 ensures Linked(next, i) {
      if i < k { assert Linked(stack, i); }
    }
  }

  lemma NotedTracks(stack: seq<OpenDir>, hist: seq<Change>, c: Change, k: nat, base: Str)
    requires Tracks(stack, hist) && k < |stack|
    requires base != [] && SEP !in base && c.path == Child(stack[k].dir, base)
    ensures Tracks(Noted(stack, k, base, if c.OpensDir() then Some(c.path) else None), hist + [c])
  {
    var newDir := if c.OpensDir() then Some(c.path) else None;
    NotedChain(stack, k, base, newDir);
    var next, all := Noted(stack, k, base, newDir), hist + [c];
    assert all[|hist|] == c;
    forall i | 0 < i < |next| ensures Opened(all, |all|, next[i].dir) {
      if i == k + 1 {
        assert all[|hist|].path == next[i].dir;
      } else {
        OpenedGrows(hist, c, |hist|, stack[i].dir);
      }
    }
  }

  lemma {:induction false} RunRecognises(hist: seq<Change>)
    ensures Run(hist).Some? <==> ValidStream(hist)
    ensures Run(hist).Some? ==> Tracks(Run(hist).value, hist)
  {
    if hist != [] {
      var init, c := hist[..|hist| - 1], hist[|hist| - 1];
      assert hist == init + [c];
      RunRecognises(init);
      ValidStreamExtends(init, c);
      if Run(init).Some? {
        StepRecognises(Run(init).value, init, c);
      }
    }
  }

  // ---------------------------------------------------------------- the class

  class Validator {
    var parentDirs: seq<OpenDir>

    constructor ()
      ensures Stack() == START && Valid()
    {
      parentDirs := [];
    }

    /** The stack, with the lazily created root entry made explicit. */
    function Stack(): seq<OpenDir>
      reads this
    {
      if parentDirs == [] then START else parentDirs
    }

    ghost predicate Valid()
      reads this
    {
      Chain(Stack())
    }

    /** Binary search from the top of the stack for the first open directory not after dir. */
    method FindParent(dir: Str) returns (i: int)
      requires Valid() && parentDirs != []
      ensures i == FindOpen(parentDirs, dir) && 0 <= i < |parentDirs|
    {
      var n := |parentDirs|;
      var lo, hi := 0, n;
      assert !Before(dir, parentDirs[0].dir) by { BeforeTotal(dir, []); }
      while lo < hi
        invariant 0 <= lo <= hi <= n
        invariant forall k :: n - lo <= k < n ==> Before(dir, parentDirs[k].dir)
        invariant hi < n ==> !Before(dir, parentDirs[n - 1 - hi].dir)
      {
        var h := (lo + hi) / 2;
        var c := ComparePath(parentDirs[n - 1 - h].dir, dir);
        if c > 0 {
          forall k | n - 1 - h <= k < n ensures Before(dir, parentDirs[k].dir) {
            ChainOrder(parentDirs, n - 1 - h);
            if k > n - 1 - h {
              BeforeTransitive(dir, parentDirs[n - 1 - h].dir, parentDirs[k].dir);
            }
          }
          lo := h + 1;
        } else {
          BeforeTotal(parentDirs[n - 1 - h].dir, dir);
          hi := h;
        }
      }
      i := n - 1 - lo;
    }

    /** Accepts one change and moves the stack as Step says, or reports why not. The path
        is arbitrary: the textual checks come first. */
    method HandleChange(c: Change) returns (err: Option<ValidateError>)
      requires Valid()
      modifies this
      ensures err.None? <==> Step(old(Stack()), c).Some?
      ensures err.None? ==> Stack() == Step(old(Stack()), c).value
      ensures err == Refusal(old(Stack()), c) && Valid() && Stack() == After(old(Stack()), c)
    {
      hide Place, PathError, FindOpen, Chain, Clean, Split, Base, Dir, Join, Parent, Name, LexLess, Before;
      PathErrorExact(c.path);
      StartIsChain();
      if parentDirs == [] {
        parentDirs := START;
      }
      err := CheckPath(c.path);
      if err.None? {
        PathParts(c.path);
        AcceptableName(c.path);
        var dir := Dir(c.path);
        if dir == CURRENT {
          dir := [];
        }
        err := PlaceIn(c, dir, Base(c.path));
      }
    }

    method PlaceIn(c: Change, dir: Str, base: Str) returns (err: Option<ValidateError>)
      requires Valid() && parentDirs != []
      requires dir == Parent(c.path) && base == Name(c.path) && base != [] && SEP !in base
      requires c.path == Child(dir, base) && Join(dir, base) == c.path
      modifies this
      ensures err == (if Place(old(parentDirs), c).Some? then None else Some(OutOfOrder))
      ensures Valid() && parentDirs != []
      ensures err.None? ==> parentDirs == Place(old(parentDirs), c).value
      ensures err.Some? ==> parentDirs == old(parentDirs)[..FindOpen(old(parentDirs), dir) + 1]
    {
      hide LexLess, Before, Chain, FindOpen, Join, Split, Clean, Parent, Name;
      ParentAtBottom(parentDirs);
      var i := FindParent(dir);
      if i != |parentDirs| - 1 {
        parentDirs := parentDirs[..i + 1];
      }
      assert parentDirs == old(parentDirs)[..i + 1];
      ChainPrefix(old(parentDirs), i + 1);
      if dir != parentDirs[|parentDirs| - 1].dir || !LexLess(parentDirs[i].last, base) {
        return Some(OutOfOrder);
      }
      parentDirs := parentDirs[i := parentDirs[i].(last := base)];
      assert parentDirs == Noted(old(parentDirs), i, base, None);
      if c.OpensDir() {
        parentDirs := parentDirs + [OpenDir(Join(dir, base), [])];
      }
      NotedChain(old(parentDirs), i, base, if c.OpensDir() then Some(c.path) else None);
      return None;
    }
  }

  lemma StartIsChain()
    ensures Chain(START)
  { }

  lemma ParentAtBottom(stack: seq<OpenDir>)
    requires Chain(stack)
    ensures stack != [] && stack[0].dir == []
  { }

  lemma ChainPrefix(stack: seq<OpenDir>, n: nat)
    requires Chain(stack) && 0 < n <= |stack|
    ensures Chain(stack[..n])
  {
    forall k: nat | k < n - 1 ensures Linked(stack[..n], k) { assert Linked(stack, k); }
  }

  /** The textual checks on a path: it must be clean, relative and not escape. */
  method CheckPath(p: Str) returns (err: Option<ValidateError>)
    ensures err == PathError(p) && (err.None? <==> Acceptable(p))
  {
    PathErrorExact(p);
    if p != Clean(p) {
      return Some(UncleanPath);
    }
    if IsAbs(p) {
      return Some(AbsolutePath);
    }
    if Escapes(p) {
      return Some(EscapingPath);
    }
    return None;
  }

  lemma PathParts(p: Str)
    requires Acceptable(p)
    ensures Base(p) == Name(p)
    ensures (if Dir(p) == CURRENT then [] else Dir(p)) == Parent(p)
    ensures Join(Parent(p), Base(p)) == p
  {
    if Normal(p) {
      NormalDir(p);
      NormalParts(p);
      NormalBase(p);
      NormalJoin(p);
      if LastSep(p) >= 0 && Parent(p) == CURRENT {
        NotNormal(CURRENT, CURRENT);
      }
    } else {
      OneComponent(p);
      CleanShort(p);
    }
  }

  /** Feeds a whole stream through a fresh validator. */
  method Feed(changes: seq<Change>) returns (ok: bool)
    ensures ok <==> Run(changes).Some?
  {
    var v := new Validator();
    for i := 0 to |changes|
      invariant v.Valid() && fresh(v)
      invariant Run(changes[..i]) == Some(v.Stack())
    {
      assert changes[..i + 1][..i] == changes[..i];
      var err := v.HandleChange(changes[i]);
      if err.Some? {
        RefusedStays(changes, i + 1);
        return false;
      }
    }
    assert changes[..|changes|] == changes;
    return true;
  }

  lemma {:induction false} RefusedStays(changes: seq<Change>, n: nat)
    requires n <= |changes| && Run(changes[..n]).None?
    ensures Run(changes).None?
    decreases |changes| - n
  {
    if n == |changes| {
      assert changes[..n] == changes;
    } else {
      assert changes[..n + 1][..n] == changes[..n];
      RefusedStays(changes, n + 1);
    }
  }

  /** A stream is accepted exactly when it is the pre-order walk of a tree. */
  method Accepts(changes: seq<Change>) returns (ok: bool)
    ensures ok <==> ValidStream(changes)
  {
    RunRecognises(changes);
    ok := Feed(changes);
  }
}
