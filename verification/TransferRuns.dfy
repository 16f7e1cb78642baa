/** What every run of the transfer protocol keeps, how long it can last, and where it ends. */
module TransferRuns {
  import opened Bytes
  import opened Transfer
  import opened TransferInvariant
  import opened TransferSteps
  import opened TransferProgress

  /** Any interleaving: states[0] is the start, and each action leads to the next state. */
  ghost predicate Run(c: Config, states: seq<State>, acts: seq<Action>)
  {
    && |states| == |acts| + 1 && states[0] == Init()
    && forall i :: 0 <= i < |acts| ==> Enabled(c, states[i], acts[i]) && states[i + 1] == Step(c, states[i], acts[i])
  }

  lemma {:induction false} RunKeeps(c: Config, states: seq<State>, acts: seq<Action>, i: nat)
    requires ValidConfig(c) && Run(c, states, acts) && i < |states|
    ensures Inv(c, states[i]) && states[i].err.None? && Measure(c, states[i]) + i <= Measure(c, Init())
  {
    hide Inv, Measure, Step, Enabled, ValidConfig;
    if i == 0 {
      InitInv(c);
    } else {
      RunKeeps(c, states, acts, i - 1);
      assert Enabled(c, states[i - 1], acts[i - 1]);
      StepKeeps(c, states[i - 1], acts[i - 1]);
      StepLowers(c, states[i - 1], acts[i - 1]);
    }
    NoError(c, states[i]);
  }

  lemma NoError(c: Config, s: State)
    requires Inv(c, s)
    ensures s.err.None?
  { }

  // ---------------------------------------------------------------- contents

  /** What the receiver has written for entry k. */
  function Copied(c: Config, s: State, k: nat): Str
    requires k < |c.src|
  {
    Written(s.written, c.src[k].path)
  }

  lemma {:induction false} NoDataIn(q: seq<Packet>, k: nat)
    requires forall i :: 0 <= i < |q| ==> !(q[i].DATA? && q[i].id == k)
    ensures DataIn(q, k) == []
  {
    if q != [] { NoDataIn(q[1..], k); }
  }

  lemma CopiedIsPrefix(c: Config, s: State, k: nat)
    requires Inv(c, s) && k < |c.src|
    ensures Copied(c, s, k) <= c.src[k].content
  {
    hide StatsOk, QueueOk, RFilesOk, SFilesOk, TasksOk, PipesOk, RequestsOk, LoopOk, PipelineOk, WorkersOk, DataOk,
         FinOk, AskedOk, CountersOk;
    assert Holds(c, s.written, s.toReceiver, k, SentOf(c, s.lives, k));
    assert Copied(c, s, k) <= c.src[k].content[..SentOf(c, s.lives, k)];
  }

  lemma CopiedInFull(c: Config, s: State, k: nat)
    requires Inv(c, s) && k < |s.lives| && (s.lives[k].Closed? || s.lives[k].Complete?)
    ensures k < |c.src| && Copied(c, s, k) == c.src[k].content
  {
    hide StatsOk, QueueOk, RFilesOk, SFilesOk, TasksOk, PipesOk, RequestsOk, LoopOk, PipelineOk, WorkersOk,
         FinOk, AskedOk;
    NoDataIn(s.toReceiver, k);
    hide DataOk;
    assert Holds(c, s.written, s.toReceiver, k, SentOf(c, s.lives, k));
    assert c.src[k].content[..|c.src[k].content|] == c.src[k].content;
  }

  lemma CopiedNothing(c: Config, s: State, k: nat)
    requires Inv(c, s) && k < |c.src| && k !in s.asked
    ensures Copied(c, s, k) == []
  {
    hide StatsOk, QueueOk, RFilesOk, SFilesOk, TasksOk, PipesOk, RequestsOk, LoopOk, PipelineOk, WorkersOk,
         FinOk, DataOk;
    assert Holds(c, s.written, s.toReceiver, k, SentOf(c, s.lives, k));
  }

  /** In every state of every run the bytes written for entry k are a prefix of its content; nothing
      is written for an entry not asked for; and once the pipe is closed, or the writer done, the
      content is there in full. */
  lemma PrefixSafety(c: Config, states: seq<State>, acts: seq<Action>, i: nat, k: nat)
    requires ValidConfig(c) && Run(c, states, acts) && i < |states| && k < |c.src|
    ensures Copied(c, states[i], k) <= c.src[k].content
    ensures k !in states[i].asked ==> Copied(c, states[i], k) == []
    ensures k in states[i].pipes && states[i].pipes[k].closed ==> Copied(c, states[i], k) == c.src[k].content
    ensures (c.src[k].path in states[i].tasks && states[i].tasks[c.src[k].path].Done?
             ==> k in states[i].asked && Copied(c, states[i], k) == c.src[k].content)
  {
    hide StatsOk, QueueOk, RFilesOk, SFilesOk, TasksOk, PipesOk, RequestsOk, LoopOk, PipelineOk, WorkersOk,
         FinOk, DataOk, ContentOk, CountersOk, Measure, Run;
    var s := states[i];
    RunKeeps(c, states, acts, i);
    CopiedIsPrefix(c, s, k);
    if k !in s.asked { CopiedNothing(c, s, k); }
    if k in s.pipes && s.pipes[k].closed {
      PipeEnds(c, s.pipes, s.lives, k);
      CopiedInFull(c, s, k);
    }
    if c.src[k].path in s.tasks && s.tasks[c.src[k].path].Done? {
      var j := EntryOf(c, s, c.src[k].path);
      assert j == k;
      CopiedInFull(c, s, k);
    }
  }

  // ---------------------------------------------------------------- where nothing is written

  ghost predicate SameWritten(s: State, s': State) { s'.written == s.written }

  lemma LoopRequestWrites(s: State, id: nat)
    requires s.toSender != [] && id in s.sFiles
    ensures SameWritten(s, LoopStep(s, REQ(id)))
  {
    hide SetLife;
  }

  lemma LoopOtherWrites(s: State, p: Packet)
    requires s.toSender != [] && !p.REQ?
    ensures SameWritten(s, LoopStep(s, p))
  { }

  lemma LoopWrites(c: Config, s: State)
    requires Inv(c, s) && Enabled(c, s, LoopReceive)
    ensures SameWritten(s, LoopStep(s, s.toSender[0]))
  {
    hide Inv, LoopStep, SameWritten;
    if s.toSender[0].REQ? {
      RequestIsKnown(c, s);
      LoopRequestWrites(s, s.toSender[0].id);
    } else {
      LoopOtherWrites(s, s.toSender[0]);
    }
  }

  lemma IntakeStatWrites(s: State, item: Option<Item>)
    requires s.toReceiver != []
    ensures SameWritten(s, IntakeStep(s, STAT(item)))
  { }

  lemma IntakeOtherWrites(s: State, p: Packet)
    requires s.toReceiver != [] && !p.STAT? && !p.DATA?
    ensures SameWritten(s, IntakeStep(s, p))
  { }

  lemma WorkerWritesNothing(c: Config, s: State, a: Action)
    requires Enabled(c, s, a) && OfWorker(a)
    ensures SameWritten(s, Step(c, s, a))
  {
    hide SetLife, ContentOf;
  }

  lemma ReceiverWritesNothing(c: Config, s: State, a: Action)
    requires Enabled(c, s, a) && (OfReceiver(a) || a.DiffTake?)
    ensures SameWritten(s, Step(c, s, a))
  { }

  lemma SenderWritesNothing(c: Config, s: State, a: Action)
    requires Enabled(c, s, a) && OfSender(a)
    ensures SameWritten(s, Step(c, s, a))
  {
    hide SetLife;
  }

  lemma TaskWritesNothing(c: Config, s: State, a: Action)
    requires Enabled(c, s, a) && (a.TaskRegister? || a.TaskRequest? || a.TaskFinish?)
    ensures SameWritten(s, Step(c, s, a))
  {
    hide SetLife;
  }

  lemma OthersWriteNothing(c: Config, s: State, a: Action)
    requires Enabled(c, s, a) && !a.IntakeReceive? && !a.LoopReceive?
    ensures SameWritten(s, Step(c, s, a))
  {
    hide Step, Enabled, SameWritten;
    if OfWorker(a) {
      WorkerWritesNothing(c, s, a);
    } else if OfReceiver(a) || a.DiffTake? {
      ReceiverWritesNothing(c, s, a);
    } else if OfSender(a) {
      SenderWritesNothing(c, s, a);
    } else {
      TaskWritesNothing(c, s, a);
    }
  }

  lemma EofWritesNothing(s: State, id: nat)
    requires s.toReceiver != [] && id in s.pipes
    ensures SameWritten(s, IntakeStep(s, DATA(id, [])))
  {
    hide SetLife;
  }

  lemma DataWrites(s: State, id: nat, bytes: Str)
    requires s.toReceiver != [] && id in s.pipes && bytes != [] && !s.pipes[id].closed && !s.intake.Draining?
    ensures (var p := s.pipes[id].path;
             IntakeStep(s, DATA(id, bytes)).written == s.written[p := Written(s.written, p) + bytes])
  { }

  lemma FinGone(c: Config, s: State)
    requires Inv(c, s) && s.toReceiver != [] && s.toReceiver[0].DATA?
    ensures !s.intake.Draining?
  {
    hide StatsOk, QueueOk, RFilesOk, SFilesOk, TasksOk, PipesOk, RequestsOk, LoopOk, PipelineOk, WorkersOk, DataOk,
         ContentOk, AskedOk, CountersOk;
    FinStays(s.toReceiver, s.loop, s.intake);
  }

  /** Only DATA is written, under the path of its entry. */
  lemma StepWrites(c: Config, s: State, a: Action)
    requires Inv(c, s) && Enabled(c, s, a)
    ensures forall p :: p in Step(c, s, a).written && p !in s.written ==>
              exists k :: 0 <= k < |c.src| && c.src[k].path == p
  {
    hide Inv, LoopStep, IntakeStep;
    if a.LoopReceive? {
      LoopWrites(c, s);
    } else if !a.IntakeReceive? {
      OthersWriteNothing(c, s, a);
    } else if s.toReceiver[0].DATA? {
      var p := s.toReceiver[0];
      DataInFront(c, s);
      FinGone(c, s);
      if p.bytes == [] { EofWritesNothing(s, p.id); } else { DataWrites(s, p.id, p.bytes); }
      assert c.src[p.id].path == s.pipes[p.id].path;
    } else if s.toReceiver[0].STAT? {
      IntakeStatWrites(s, s.toReceiver[0].item);
    } else {
      IntakeOtherWrites(s, s.toReceiver[0]);
    }
  }

  /** In no state of any run is anything written under a path that the source does not have. */
  lemma {:induction false} WrittenOnlyAtSource(c: Config, states: seq<State>, acts: seq<Action>, i: nat, p: Str)
    requires ValidConfig(c) && Run(c, states, acts) && i < |states|
    requires forall k :: 0 <= k < |c.src| ==> c.src[k].path != p
    ensures p !in states[i].written
  {
    hide Inv, Step, Enabled, ValidConfig;
    if i > 0 {
      WrittenOnlyAtSource(c, states, acts, i - 1, p);
      RunKeeps(c, states, acts, i - 1);
      assert Enabled(c, states[i - 1], acts[i - 1]);
      StepWrites(c, states[i - 1], acts[i - 1]);
    }
  }

  // ---------------------------------------------------------------- ids

  /** In every state of every run: neither side has met an id it does not know; no id is asked for
      twice; a REQ in flight names a regular entry that the sender still holds under the path of the
      receiver's open pipe; both file maps call an entry by its index; and the empty DATA of an entry
      is its last. */
  lemma IdSafety(c: Config, states: seq<State>, acts: seq<Action>, i: nat)
    requires ValidConfig(c) && Run(c, states, acts) && i < |states|
    ensures states[i].err.None?
    ensures (var s := states[i];
             forall a, b :: 0 <= a < b < |s.asked| ==> s.asked[a] != s.asked[b])
    ensures (var s := states[i];
             forall a :: 0 <= a < |s.toSender| && s.toSender[a].REQ? ==> RequestMatches(c, s, s.toSender[a].id))
    ensures (var s := states[i];
             forall k: nat :: k in s.sFiles ==> k < |c.src| && c.src[k].regular && s.sFiles[k] == c.src[k].path)
    ensures (var s := states[i];
             forall k: nat :: k < |c.src| && c.src[k].path in s.rFiles ==> s.rFiles[c.src[k].path] == k)
    ensures (var s := states[i];
             forall a, b ::
               (0 <= a < b < |s.toReceiver| && s.toReceiver[a].DATA? && s.toReceiver[b].DATA?
                && s.toReceiver[a].bytes == [])
               ==> s.toReceiver[a].id != s.toReceiver[b].id)
  {
    hide StatsOk, QueueOk, TasksOk, PipesOk, RequestsOk, LoopOk, PipelineOk, WorkersOk,
         FinOk, ContentOk, CountersOk, Measure, Run;
    var s := states[i];
    RunKeeps(c, states, acts, i);
    forall a | 0 <= a < |s.toSender| && s.toSender[a].REQ? ensures RequestMatches(c, s, s.toSender[a].id) {
      RequestInFlight(c, s, a);
    }
  }

  /** Both sides agree on what id k stands for. */
  ghost predicate RequestMatches(c: Config, s: State, k: nat)
  {
    && k < |c.src| && c.src[k].regular
    && k in s.sFiles && s.sFiles[k] == c.src[k].path
    && k in s.pipes && s.pipes[k] == Pipe(c.src[k].path, false)
    && k in s.asked
  }

  lemma RequestInFlight(c: Config, s: State, a: nat)
    requires Inv(c, s) && a < |s.toSender| && s.toSender[a].REQ?
    ensures RequestMatches(c, s, s.toSender[a].id)
  {
    hide StatsOk, QueueOk, RFilesOk, LoopOk, PipelineOk, WorkersOk, FinOk, ContentOk, DataOk;
    var k := s.toSender[a].id;
    assert s.lives[k].ReqSent?;
    hide RequestsOk;
    assert c.src[k].regular;
  }

  /** Only regular entries are ever asked for. */
  lemma AskedIsRegular(c: Config, states: seq<State>, acts: seq<Action>, i: nat, k: nat)
    requires ValidConfig(c) && Run(c, states, acts) && i < |states| && k in states[i].asked
    ensures k < |c.src| && c.src[k].regular
  {
    hide StatsOk, QueueOk, RFilesOk, SFilesOk, PipesOk, RequestsOk, LoopOk, PipelineOk, WorkersOk,
         FinOk, ContentOk, CountersOk, Measure, Run, DataOk;
    RunKeeps(c, states, acts, i);
  }

  /** Channels drop and reorder nothing: what stands between the receive loop and the diff is the
      source from the entries taken to the entries received. */
  lemma EntriesInOrder(c: Config, states: seq<State>, acts: seq<Action>, i: nat)
    requires ValidConfig(c) && Run(c, states, acts) && i < |states|
    ensures (var s := states[i];
             && |s.lives| <= s.received <= |c.src|
             && s.c2 + Hold(s.held) + s.walkChan + Upd(s.intake)
                == seq(s.received - |s.lives|, j requires 0 <= j < s.received - |s.lives| => ItemOf(c.src[|s.lives| + j])))
  {
    hide StatsOk, TasksOk, PipesOk, RequestsOk, LoopOk, PipelineOk, WorkersOk,
         FinOk, ContentOk, CountersOk, Measure, Run, RFilesOk, SFilesOk, AskedOk, DataOk;
    RunKeeps(c, states, acts, i);
  }

  /** In every state of every run the queues are within their capacities and there are four workers. */
  lemma RunsAreBounded(c: Config, states: seq<State>, acts: seq<Action>, i: nat)
    requires ValidConfig(c) && Run(c, states, acts) && i < |states|
    ensures (var s := states[i];
             && |s.walkChan| <= 128 && |s.c2| <= 128 && |s.pipeline| <= 128 && |s.workers| == 4
             && |s.toReceiver| <= c.dataCap && |s.toSender| <= c.requestCap)
  {
    hide StatsOk, QueueOk, TasksOk, PipesOk, RequestsOk, LoopOk, PipelineOk, WorkersOk, FinOk, ContentOk, Measure, Run,
         RFilesOk, SFilesOk, AskedOk, DataOk;
    RunKeeps(c, states, acts, i);
  }

  // ---------------------------------------------------------------- the end

  /** The bytes of the source from entry i on. */
  function BytesFrom(src: seq<File>, i: nat): nat
    requires i <= |src|
    decreases |src| - i
  {
    if i == |src| then 0 else |src[i].content| + BytesFrom(src, i + 1)
  }

  lemma {:induction false} TotalAtStart(c: Config, i: nat)
    requires i <= |c.src|
    ensures Total(c, [], i) == 2 * BytesFrom(c.src, i)
    decreases |c.src| - i
  {
    if i < |c.src| { TotalAtStart(c, i + 1); }
  }

  /** No run goes on for ever, whatever the interleaving and whatever the diff asks for. */
  lemma RunsAreFinite(c: Config, states: seq<State>, acts: seq<Action>)
    requires ValidConfig(c) && Run(c, states, acts)
    ensures |acts| <= 20 * |c.src| + 2 * BytesFrom(c.src, 0) + 18
  {
    hide Inv, Run, Step, Enabled;
    LengthOf(c, states, acts);
    RunKeeps(c, states, acts, |acts|);
    MeasureNatural(c, states[|acts|]);
    TotalAtStart(c, 0);
    RunningAtStart();
  }

  lemma LengthOf(c: Config, states: seq<State>, acts: seq<Action>)
    requires Run(c, states, acts)
    ensures |states| == |acts| + 1
  { }

  lemma RunningAtStart()
    ensures Running([Idle, Idle, Idle, Idle]) == 4
  {
    assert [Idle, Idle, Idle, Idle][1..] == [Idle, Idle, Idle];
    assert [Idle, Idle, Idle][1..] == [Idle, Idle];
    assert [Idle, Idle][1..] == [Idle];
    assert [Idle][1..] == [];
  }

  /** A run stops only at the end of the transfer: both FINs exchanged, every queue empty, every
      goroutine returned, every entry taken, every requested content complete. */
  lemma RunsEndComplete(c: Config, states: seq<State>, acts: seq<Action>)
    requires ValidConfig(c) && Run(c, states, acts)
    ensures (var s := states[|acts|]; (forall a :: !Enabled(c, s, a)) <==> Terminal(s))
    ensures (var s := states[|acts|]; Terminal(s) ==>
               && |s.lives| == |c.src|
               && forall k: nat :: k < |c.src| ==>
                    Copied(c, s, k) == (if k in s.asked then c.src[k].content else []))
  {
    hide StatsOk, QueueOk, RFilesOk, SFilesOk, TasksOk, PipesOk, RequestsOk, LoopOk, PipelineOk, WorkersOk,
         FinOk, DataOk, ContentOk, Measure, Run, Enabled;
    LengthOf(c, states, acts);
    RunKeeps(c, states, acts, |acts|);
    var s := states[|acts|];
    if forall a :: !Enabled(c, s, a) { StuckIsTerminal(c, s); }
    if Terminal(s) {
      TerminalIsStuck(c, s);
      WalkerEmpties(c, s);
      forall k: nat | k < |c.src|
        ensures Copied(c, s, k) == (if k in s.asked then c.src[k].content else [])
      {
        if k in s.asked {
          AllSettled(c, s.tasks, s.lives);
          CopiedInFull(c, s, k);
        } else {
          CopiedNothing(c, s, k);
        }
      }
    }
  }

  lemma {:induction false} Continued(c: Config, states: seq<State>, acts: seq<Action>)
    returns (states': seq<State>, acts': seq<Action>)
    requires ValidConfig(c) && Run(c, states, acts)
    ensures Run(c, states', acts') && acts <= acts' && states <= states'
    ensures Terminal(states'[|acts'|])
    decreases 20 * |c.src| + 2 * BytesFrom(c.src, 0) + 18 - |acts|
  {
    hide Inv, Step, Enabled, ValidConfig, BytesFrom;
    RunKeeps(c, states, acts, |acts|);
    var s := states[|acts|];
    if a :| Enabled(c, s, a) {
      var next := states + [Step(c, s, a)];
      assert Run(c, next, acts + [a]);
      RunsAreFinite(c, next, acts + [a]);
      states', acts' := Continued(c, next, acts + [a]);
    } else {
      StuckIsTerminal(c, s);
      states', acts' := states, acts;
    }
  }

  /** From every state of every run the transfer can be brought to its end. */
  lemma RunsCanComplete(c: Config, states: seq<State>, acts: seq<Action>)
    requires ValidConfig(c) && Run(c, states, acts)
    ensures exists more: seq<State>, rest: seq<Action> ::
              Run(c, more, rest) && states <= more && acts <= rest && Terminal(more[|rest|])
  {
    hide Step, Enabled, ValidConfig;
    var more, rest := Continued(c, states, acts);
  }

  // ---------------------------------------------------------------- a given choice of contents

  /** Of the entries taken so far the diff asked for those in want. */
  ghost predicate Chosen(c: Config, s: State, want: set<nat>)
  {
    forall k :: 0 <= k < |s.lives| && k < |c.src| ==> (c.src[k].path in s.tasks <==> k in want)
  }

  /** The diff asks for the entries in want and for no others. */
  ghost predicate Follows(states: seq<State>, acts: seq<Action>, want: set<nat>)
  {
    |states| == |acts| + 1 &&
    forall i :: 0 <= i < |acts| && acts[i].DiffTake? ==> (acts[i].request <==> |states[i].lives| in want)
  }

  ghost predicate AskableOnly(c: Config, want: set<nat>)
  {
    forall k :: k in want ==> k < |c.src| && c.src[k].regular
  }

  lemma SetLifeLength(lives: seq<Life>, k: nat, life: Life)
    ensures |SetLife(lives, k, life)| == |lives|
  { }

  ghost predicate SameTasks(s: State, s': State) { s'.tasks == s.tasks && |s'.lives| == |s.lives| }

  lemma LoopRequestTasks(s: State, id: nat)
    requires s.toSender != [] && id in s.sFiles
    ensures SameTasks(s, LoopStep(s, REQ(id)))
  {
    hide SetLife;
    SetLifeLength(s.lives, id, InLoop);
  }

  lemma LoopOtherTasks(s: State, p: Packet)
    requires s.toSender != [] && !p.REQ?
    ensures SameTasks(s, LoopStep(s, p))
  { }

  lemma IntakeStatTasks(s: State, item: Option<Item>)
    requires s.toReceiver != []
    ensures SameTasks(s, IntakeStep(s, STAT(item)))
  { }

  lemma IntakeOtherTasks(s: State, p: Packet)
    requires s.toReceiver != [] && !p.STAT? && !p.DATA?
    ensures SameTasks(s, IntakeStep(s, p))
  { }

  lemma IntakeDataTasks(c: Config, s: State)
    requires ValidConfig(c) && Inv(c, s) && Enabled(c, s, IntakeReceive) && s.toReceiver[0].DATA?
    ensures SameTasks(s, Step(c, s, IntakeReceive))
  {
    hide StatsOk, QueueOk, RFilesOk, SFilesOk, TasksOk, PipesOk, RequestsOk, LoopOk, PipelineOk, WorkersOk, DataOk,
         FinOk, ContentOk, AskedOk, Step;
    DataInFront(c, s);
    FinStays(s.toReceiver, s.loop, s.intake);
    if s.toReceiver[0].bytes == [] { EofStep(c, s); } else { DataStep(c, s); }
  }

  lemma LoopTasks(c: Config, s: State)
    requires Inv(c, s) && Enabled(c, s, LoopReceive)
    ensures SameTasks(s, Step(c, s, LoopReceive))
  {
    hide StatsOk, QueueOk, RFilesOk, SFilesOk, TasksOk, PipesOk, RequestsOk, LoopOk, PipelineOk, WorkersOk, DataOk,
         FinOk, ContentOk, AskedOk, LoopStep, SameTasks;
    if s.toSender[0].REQ? {
      RequestIsKnown(c, s);
      LoopRequestTasks(s, s.toSender[0].id);
    } else {
      LoopOtherTasks(s, s.toSender[0]);
    }
  }

  lemma IntakeTasks(c: Config, s: State)
    requires ValidConfig(c) && Inv(c, s) && Enabled(c, s, IntakeReceive)
    ensures SameTasks(s, Step(c, s, IntakeReceive))
  {
    hide Inv, ValidConfig, IntakeStep, SameTasks;
    var p := s.toReceiver[0];
    match p
    case DATA(id, bytes) => IntakeDataTasks(c, s);
    case STAT(item) => IntakeStatTasks(s, item);
    case FIN => IntakeOtherTasks(s, p);
    case REQ(id) => IntakeOtherTasks(s, p);
  }

  lemma TaskRegisterTasks(c: Config, s: State, p: Str)
    requires Enabled(c, s, TaskRegister(p))
    ensures Step(c, s, TaskRegister(p)).tasks.Keys == s.tasks.Keys && |Step(c, s, TaskRegister(p)).lives| == |s.lives|
  {
    hide SetLife;
    if p in s.rFiles { SetLifeLength(s.lives, s.rFiles[p], Piped); }
  }

  lemma TaskStepTasks(c: Config, s: State, a: Action)
    requires Enabled(c, s, a) && (a.TaskRequest? || a.TaskFinish?)
    ensures Step(c, s, a).tasks.Keys == s.tasks.Keys && |Step(c, s, a).lives| == |s.lives|
  {
    hide SetLife;
    SetLifeLength(s.lives, s.tasks[a.p].id, if a.TaskRequest? then ReqSent else Complete);
  }

  ghost predicate OfWorker(a: Action) { a.WorkerTake? || a.WorkerChunk? || a.WorkerEof? || a.WorkerExit? }

  lemma WorkerTasks(c: Config, s: State, a: Action)
    requires Enabled(c, s, a) && OfWorker(a)
    ensures SameTasks(s, Step(c, s, a))
  {
    hide SetLife, ContentOf;
    forall k, l ensures |SetLife(s.lives, k, l)| == |s.lives| { SetLifeLength(s.lives, k, l); }
  }

  ghost predicate OfReceiver(a: Action)
  {
    a.IntakePush? || a.FillTake? || a.FillPut? || a.FillClose? || a.DiffEnd? || a.DiffFin?
  }

  lemma ReceiverTasks(c: Config, s: State, a: Action)
    requires Enabled(c, s, a) && OfReceiver(a)
    ensures SameTasks(s, Step(c, s, a))
  { }

  ghost predicate OfSender(a: Action)
  {
    a.WalkRegister? || a.WalkSend? || a.WalkEnd? || a.LoopQueue? || a.LoopReply?
  }

  lemma SenderTasks(c: Config, s: State, a: Action)
    requires Enabled(c, s, a) && OfSender(a)
    ensures SameTasks(s, Step(c, s, a))
  {
    hide SetLife;
    if a.LoopQueue? { SetLifeLength(s.lives, s.loop.id, InPipeline); }
  }

  /** Only the diff decides which entries are asked for. */
  lemma TasksStay(c: Config, s: State, a: Action)
    requires ValidConfig(c) && Inv(c, s) && Enabled(c, s, a) && !a.DiffTake?
    ensures Step(c, s, a).tasks.Keys == s.tasks.Keys && |Step(c, s, a).lives| == |s.lives|
  {
    hide Step, Enabled, Inv, ValidConfig;
    if OfSender(a) {
      SenderTasks(c, s, a);
    } else if OfWorker(a) {
      WorkerTasks(c, s, a);
    } else if OfReceiver(a) {
      ReceiverTasks(c, s, a);
    } else if a.LoopReceive? {
      LoopTasks(c, s);
    } else if a.IntakeReceive? {
      IntakeTasks(c, s);
    } else if a.TaskRegister? {
      TaskRegisterTasks(c, s, a.p);
    } else {
      TaskStepTasks(c, s, a);
    }
  }

  lemma StepChosen(c: Config, s: State, a: Action, want: set<nat>)
    requires ValidConfig(c) && Inv(c, s) && Enabled(c, s, a) && Chosen(c, s, want)
    requires a.DiffTake? ==> (a.request <==> |s.lives| in want)
    ensures Chosen(c, Step(c, s, a), want)
  {
    hide StatsOk, RFilesOk, SFilesOk, PipesOk, RequestsOk, LoopOk, PipelineOk, WorkersOk, DataOk, FinOk, ContentOk,
         CountersOk, AskedOk, QueueOk;
    if a.DiffTake? {
      NextEntry(c, s);
    } else {
      TasksStay(c, s, a);
      hide Step, Enabled, TasksOk;
    }
  }

  /** Wherever a run can go on, it can go on by a step that asks as wanted. */
  lemma WantedStep(c: Config, s: State, want: set<nat>) returns (a: Action)
    requires ValidConfig(c) && Inv(c, s) && AskableOnly(c, want) && exists b :: Enabled(c, s, b)
    ensures Enabled(c, s, a) && (a.DiffTake? ==> (a.request <==> |s.lives| in want))
  {
    hide StatsOk, RFilesOk, SFilesOk, TasksOk, PipesOk, RequestsOk, LoopOk, PipelineOk, WorkersOk, DataOk, FinOk,
         ContentOk, CountersOk, AskedOk, QueueOk;
    a :| Enabled(c, s, a);
    if a.DiffTake? {
      NextEntry(c, s);
      a := DiffTake(|s.lives| in want);
    }
  }

  lemma {:induction false} ContinuedAsking(c: Config, want: set<nat>, states: seq<State>, acts: seq<Action>)
    returns (states': seq<State>, acts': seq<Action>)
    requires ValidConfig(c) && Run(c, states, acts) && AskableOnly(c, want)
    requires Follows(states, acts, want) && Chosen(c, states[|acts|], want)
    ensures Run(c, states', acts') && Follows(states', acts', want)
    ensures Terminal(states'[|acts'|]) && Chosen(c, states'[|acts'|], want)
    decreases 20 * |c.src| + 2 * BytesFrom(c.src, 0) + 18 - |acts|
  {
    hide Inv, Step, Enabled, ValidConfig, BytesFrom, Chosen, AskableOnly;
    RunKeeps(c, states, acts, |acts|);
    var s := states[|acts|];
    if exists b :: Enabled(c, s, b) {
      var a := WantedStep(c, s, want);
      StepChosen(c, s, a, want);
      var next := states + [Step(c, s, a)];
      assert Run(c, next, acts + [a]);
      RunsAreFinite(c, next, acts + [a]);
      states', acts' := ContinuedAsking(c, want, next, acts + [a]);
    } else {
      StuckIsTerminal(c, s);
      states', acts' := states, acts;
    }
  }

  lemma StartsChosen(c: Config, want: set<nat>)
    ensures Run(c, [Init()], []) && Chosen(c, Init(), want)
  { }

  lemma AskedAtEnd(c: Config, s: State, want: set<nat>)
    requires Inv(c, s) && Terminal(s) && |s.lives| == |c.src| && Chosen(c, s, want) && AskableOnly(c, want)
    ensures forall k: nat :: k in s.asked <==> k in want
  {
    hide StatsOk, RFilesOk, SFilesOk, PipesOk, RequestsOk, LoopOk, PipelineOk, WorkersOk, DataOk, FinOk, ContentOk,
         CountersOk, QueueOk;
    AllSettled(c, s.tasks, s.lives);
  }

  /** Whatever set of regular entries is wanted, some run ends having asked for exactly those. */
  lemma RunAskingFor(c: Config, want: set<nat>) returns (states: seq<State>, acts: seq<Action>)
    requires ValidConfig(c) && AskableOnly(c, want)
    ensures Run(c, states, acts) && Follows(states, acts, want) && Terminal(states[|acts|])
    ensures forall k: nat :: k in states[|acts|].asked <==> k in want
  {
    hide Inv, Step, Enabled, ValidConfig, Chosen, AskableOnly, Terminal;
    StartsChosen(c, want);
    states, acts := ContinuedAsking(c, want, [Init()], []);
    RunKeeps(c, states, acts, |acts|);
    RunsEndComplete(c, states, acts);
    AskedAtEnd(c, states[|acts|], want);
  }
}
