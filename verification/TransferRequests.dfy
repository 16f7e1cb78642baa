/** What becomes of a request that the receiver's file map cannot answer. */
module TransferRequests {
  import opened Bytes
  import opened Transfer
  import opened TransferInvariant
  import opened TransferSteps
  import opened TransferProgress
  import opened TransferRuns

  /** Any interleaving, the diff being free to ask for any entry. */
  ghost predicate FreeRun(c: Config, states: seq<State>, acts: seq<Action>)
  {
    && |states| == |acts| + 1 && states[0] == Init()
    && forall i :: 0 <= i < |acts| ==> Possible(c, states[i], acts[i]) && states[i + 1] == Step(c, states[i], acts[i])
  }

  /** Asking for regular entries only, a free run is one of those already considered. */
  lemma {:induction false} FreeIsRun(c: Config, states: seq<State>, acts: seq<Action>, want: set<nat>, n: nat)
    requires ValidConfig(c) && FreeRun(c, states, acts) && Follows(states, acts, want) && AskableOnly(c, want)
    requires n <= |acts|
    ensures Run(c, states[..n + 1], acts[..n])
  {
    hide Inv, Step, ValidConfig, Run, Possible, Enabled;
    if n == 0 {
      RunOfNothing(c, states, acts);
    } else {
      FreeIsRun(c, states, acts, want, n - 1);
      RunKeeps(c, states[..n], acts[..n - 1], n - 1);
      assert Possible(c, states[n - 1], acts[n - 1]);
      WantedIsEnabled(c, states[n - 1], acts[n - 1], want);
      RunOneMore(c, states, acts, n);
    }
  }

  lemma RunOfNothing(c: Config, states: seq<State>, acts: seq<Action>)
    requires states != [] && states[0] == Init()
    ensures Run(c, states[..1], acts[..0])
  { }

  lemma RunOneMore(c: Config, states: seq<State>, acts: seq<Action>, n: nat)
    requires 0 < n <= |acts| && |states| == |acts| + 1 && Run(c, states[..n], acts[..n - 1])
    requires Enabled(c, states[n - 1], acts[n - 1]) && states[n] == Step(c, states[n - 1], acts[n - 1])
    ensures Run(c, states[..n + 1], acts[..n])
  {
    hide Step, Enabled;
  }

  lemma WantedIsEnabled(c: Config, s: State, a: Action, want: set<nat>)
    requires Inv(c, s) && Possible(c, s, a) && AskableOnly(c, want)
    requires a.DiffTake? ==> (a.request <==> |s.lives| in want)
    ensures Enabled(c, s, a)
  {
    hide Inv;
    if a.DiffTake? { TakesWanted(c, s); }
  }

  lemma TakesWanted(c: Config, s: State)
    requires Inv(c, s) && s.c2 != []
    ensures |s.lives| < |c.src| && s.c2[0] == ItemOf(c.src[|s.lives|])
  {
    hide StatsOk, RFilesOk, SFilesOk, TasksOk, PipesOk, RequestsOk, LoopOk, PipelineOk, WorkersOk, DataOk, FinOk,
         ContentOk, CountersOk, AskedOk, QueueOk;
    NextEntry(c, s);
  }

  lemma TakenGrows(c: Config, s: State, a: Action)
    requires ValidConfig(c) && Inv(c, s) && Enabled(c, s, a)
    ensures |Step(c, s, a).lives| == |s.lives| + if a.DiffTake? then 1 else 0
  {
    if !a.DiffTake? {
      TasksStay(c, s, a);
    }
  }

  lemma {:induction false} TakenMonotone(c: Config, states: seq<State>, acts: seq<Action>, i: nat, j: nat)
    requires ValidConfig(c) && Run(c, states, acts) && i <= j < |states|
    ensures |states[i].lives| <= |states[j].lives|
  {
    hide Inv, Step, Enabled, ValidConfig;
    if i < j {
      TakenMonotone(c, states, acts, i, j - 1);
      RunKeeps(c, states, acts, j - 1);
      assert Enabled(c, states[j - 1], acts[j - 1]);
      TakenGrows(c, states[j - 1], acts[j - 1]);
    }
  }

  /** The step at which entry k was taken. */
  lemma {:induction false} WhenTaken(c: Config, states: seq<State>, acts: seq<Action>, k: nat, n: nat) returns (i: nat)
    requires ValidConfig(c) && Run(c, states, acts) && n < |states| && k < |states[n].lives|
    ensures i < n && acts[i].DiffTake? && |states[i].lives| == k
  {
    hide Inv, Step, Enabled, ValidConfig;
    if n > 0 {
      RunKeeps(c, states, acts, n - 1);
      assert Enabled(c, states[n - 1], acts[n - 1]);
      TakenGrows(c, states[n - 1], acts[n - 1]);
      if k < |states[n - 1].lives| { i := WhenTaken(c, states, acts, k, n - 1); } else { i := n - 1; }
    }
  }

  /** Asking for an entry that is not regular ends in the error as soon as its writer starts. */
  lemma AskingFails(c: Config, s: State, k: nat) returns (s1: State, s2: State, p: Str)
    requires ValidConfig(c) && Inv(c, s) && (exists b :: Enabled(c, s, DiffTake(b)))
    requires k == |s.lives| && k < |c.src| && !c.src[k].regular
    ensures Possible(c, s, DiffTake(true)) && s1 == Step(c, s, DiffTake(true))
    ensures Possible(c, s1, TaskRegister(p)) && s2 == Step(c, s1, TaskRegister(p))
    ensures s2.err == Some(InvalidFileRequest)
  {
    hide StatsOk, SFilesOk, TasksOk, PipesOk, RequestsOk, LoopOk, PipelineOk, WorkersOk, DataOk, FinOk,
         ContentOk, CountersOk, AskedOk, QueueOk;
    TakesWanted(c, s);
    p := c.src[k].path;
    s1 := Step(c, s, DiffTake(true));
    s2 := Step(c, s1, TaskRegister(p));
  }

  lemma {:induction false} FirstIrregular(c: Config, want: set<nat>, k: nat) returns (j: nat)
    requires k in want && k < |c.src| && !c.src[k].regular
    ensures j in want && j < |c.src| && !c.src[j].regular
    ensures forall i :: i in want && i < j ==> c.src[i].regular
    decreases k
  {
    if i :| i in want && i < k && !c.src[i].regular {
      j := FirstIrregular(c, want, i);
    } else {
      j := k;
    }
  }

  ghost function Earlier(want: set<nat>, k: nat): set<nat> { set j | j in want && j < k }

  /** Up to the step that takes entry k it makes no difference whether k, or a later entry, is wanted. */
  lemma FollowsBefore(c: Config, states: seq<State>, acts: seq<Action>, want: set<nat>, k: nat, i: nat)
    requires ValidConfig(c) && Run(c, states, acts) && i < |acts| && |states[i].lives| == k
    requires Follows(states, acts, Earlier(want, k))
    ensures Follows(states[..i + 1], acts[..i], want)
  {
    hide Inv, Step, Enabled, ValidConfig;
    forall j | 0 <= j < i && acts[j].DiffTake? ensures acts[j].request <==> |states[j].lives| in want {
      RunKeeps(c, states, acts, j);
      assert Enabled(c, states[j], acts[j]);
      TakenGrows(c, states[j], acts[j]);
      TakenMonotone(c, states, acts, j + 1, i);
    }
  }

  /** A run whose diff asks for the entries in want, and that ends in "invalid file request". */
  ghost predicate Refused(c: Config, states: seq<State>, acts: seq<Action>, want: set<nat>)
  {
    FreeRun(c, states, acts) && Follows(states, acts, want) && states[|acts|].err == Some(InvalidFileRequest)
  }

  /** A run that follows the wishes can end in "invalid file request" if and only if some wanted entry is
      not regular. */
  lemma {:induction false} RefusedExactly(c: Config, want: set<nat>)
    requires ValidConfig(c) && forall k :: k in want ==> k < |c.src|
    ensures (exists states: seq<State>, acts: seq<Action> ::
               Refused(c, states, acts, want))
            <==> exists k :: k in want && !c.src[k].regular
  {
    hide Inv, Step, Enabled, ValidConfig, Terminal;
    if AskableOnly(c, want) {
      forall states: seq<State>, acts: seq<Action> | FreeRun(c, states, acts) && Follows(states, acts, want)
        ensures states[|acts|].err.None?
      {
        FreeIsRun(c, states, acts, want, |acts|);
        assert states[..|acts| + 1] == states && acts[..|acts|] == acts;
        RunKeeps(c, states, acts, |acts|);
      }
    } else {
      var k :| k in want && !c.src[k].regular;
      var states, acts := RefusedRun(c, want, k);
      assert Refused(c, states, acts, want);
    }
  }

  lemma FreePrefix(c: Config, ss: seq<State>, aa: seq<Action>, i: nat)
    requires Run(c, ss, aa) && i <= |aa|
    ensures FreeRun(c, ss[..i + 1], aa[..i])
  {
    hide Step, Enabled;
  }

  lemma OneMore(c: Config, ss: seq<State>, aa: seq<Action>, want: set<nat>, a: Action, s: State)
    requires FreeRun(c, ss, aa) && Follows(ss, aa, want)
    requires Possible(c, ss[|aa|], a) && s == Step(c, ss[|aa|], a)
    requires a.DiffTake? ==> (a.request <==> |ss[|aa|].lives| in want)
    ensures FreeRun(c, ss + [s], aa + [a]) && Follows(ss + [s], aa + [a], want)
  {
    hide Step, Enabled;
  }

  /** A run up to step i, and two free steps after it. */
  lemma TwoMore(c: Config, ss: seq<State>, aa: seq<Action>, want: set<nat>, i: nat, s1: State, s2: State, p: Str)
    requires Run(c, ss, aa) && i < |aa| && Follows(ss[..i + 1], aa[..i], want) && |ss[i].lives| in want
    requires Possible(c, ss[i], DiffTake(true)) && s1 == Step(c, ss[i], DiffTake(true))
    requires Possible(c, s1, TaskRegister(p)) && s2 == Step(c, s1, TaskRegister(p))
    ensures (var states, acts := ss[..i + 1] + [s1, s2], aa[..i] + [DiffTake(true), TaskRegister(p)];
             && FreeRun(c, states, acts) && Follows(states, acts, want) && states[|acts|] == s2)
  {
    hide Step, Enabled;
    FreePrefix(c, ss, aa, i);
    OneMore(c, ss[..i + 1], aa[..i], want, DiffTake(true), s1);
    OneMore(c, ss[..i + 1] + [s1], aa[..i] + [DiffTake(true)], want, TaskRegister(p), s2);
    assert ss[..i + 1] + [s1] + [s2] == ss[..i + 1] + [s1, s2];
    assert aa[..i] + [DiffTake(true)] + [TaskRegister(p)] == aa[..i] + [DiffTake(true), TaskRegister(p)];
  }

  lemma {:induction false} RefusedRun(c: Config, want: set<nat>, k: nat) returns (states: seq<State>, acts: seq<Action>)
    requires ValidConfig(c) && k in want && k < |c.src| && !c.src[k].regular
    ensures FreeRun(c, states, acts) && Follows(states, acts, want)
    ensures states[|acts|].err == Some(InvalidFileRequest)
  {
    hide Inv, Step, Enabled, ValidConfig, Terminal, Follows, Run;
    var j := FirstIrregular(c, want, k);
    var ss, aa := RunAskingFor(c, Earlier(want, j));
    EndOfRun(c, ss, aa, Earlier(want, j));
    RunsEndComplete(c, ss, aa);
    var i := WhenTaken(c, ss, aa, j, |aa|);
    FollowsBefore(c, ss, aa, want, j, i);
    RunKeeps(c, ss, aa, i);
    EnabledAt(c, ss, aa, i);
    var s1, s2, p := AskingFails(c, ss[i], j);
    TwoMore(c, ss, aa, want, i, s1, s2, p);
    states := ss[..i + 1] + [s1, s2];
    acts := aa[..i] + [DiffTake(true), TaskRegister(p)];
  }

  lemma EndOfRun(c: Config, ss: seq<State>, aa: seq<Action>, want: set<nat>)
    requires Run(c, ss, aa) && Follows(ss, aa, want)
    ensures |ss| == |aa| + 1
  { }

  lemma EnabledAt(c: Config, ss: seq<State>, aa: seq<Action>, i: nat)
    requires Run(c, ss, aa) && i < |aa| && aa[i].DiffTake?
    ensures i < |ss| && exists b :: Enabled(c, ss[i], DiffTake(b))
  {
    hide Enabled, Step;
    assert Enabled(c, ss[i], aa[i]) && aa[i] == DiffTake(aa[i].request);
  }
}
