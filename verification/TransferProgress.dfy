/** Every step of the transfer protocol lowers a measure, and a state that admits no step is the
    one where both FINs are exchanged. */
module TransferProgress {
  import opened Bytes
  import opened Transfer
  import opened TransferInvariant
  import opened TransferSteps

  // ---------------------------------------------------------------- the measure

  /** Packets, hand-overs and bytes an entry can still cause. */
  function LifeCost(l: Life, size: nat): nat
  {
    match l
    case Skipped => 0
    case Spawned => 11 + 2 * size
    case Piped => 10 + 2 * size
    case ReqSent => 8 + 2 * size
    case InLoop => 7 + 2 * size
    case InPipeline => 6 + 2 * size
    case Copying(_, offset) => if offset <= size then 5 + 2 * (size - offset) else 5
    case EofSent => 3
    case Closed => 2
    case Complete => 0
  }

  function Cost(c: Config, lives: seq<Life>, k: nat): nat
    requires k < |c.src|
  {
    if k < |lives| then LifeCost(lives[k], |c.src[k].content|) else 2 * |c.src[k].content|
  }

  /** The cost of the entries from i on. */
  function Total(c: Config, lives: seq<Life>, i: nat): nat
    requires i <= |c.src|
    decreases |c.src| - i
  {
    if i == |c.src| then 0 else Cost(c, lives, i) + Total(c, lives, i + 1)
  }

  function Flag(b: bool, n: nat): nat { if b then n else 0 }

  function Running(workers: seq<Worker>): nat
  {
    if workers == [] then 0 else Flag(!workers[0].Exited?, 1) + Running(workers[1..])
  }

  /** Entries the walk has still to register, send, and hand over. */
  function WalkLeft(n: nat, walked: nat, sent: nat, received: nat): int
  {
    20 * (n - walked) + 19 * (walked - sent) + 17 * (sent - received)
  }

  /** Entries between the receive loop and the diff. */
  function Handing(updating: bool, walkChan: seq<Item>, held: Option<Item>, c2: seq<Item>): nat
  {
    Flag(updating, 15) + 14 * |walkChan| + Flag(held.Some?, 13) + 12 * |c2|
  }

  function EndsLeft(walkDone: bool, walkClosed: bool, c2Closed: bool): nat
  {
    Flag(!walkDone, 3) + Flag(!walkClosed, 1) + Flag(!c2Closed, 1)
  }

  function LoopsLeft(diff: Diff, loop: Loop, draining: bool): nat
  {
    Flag(diff.Merging?, 1) + Flag(!diff.Finished?, 3) + Flag(loop.Reading? || loop.Queueing?, 1)
    + Flag(!loop.Returned?, 3) + Flag(!draining, 1)
  }

  /** Everything but the entries. */
  function Flow(c: Config, s: State): int
  {
    |s.toReceiver| + |s.toSender| + WalkLeft(|c.src|, s.walked, s.sent, s.received)
    + Handing(s.intake.Updating?, s.walkChan, s.held, s.c2) + EndsLeft(s.walkDone, s.walkClosed, s.c2Closed)
    + LoopsLeft(s.diff, s.loop, s.intake.Draining?) + Running(s.workers)
  }

  /** Walk items left, entries and bytes left, packets and hand-overs in flight, goroutines still running. */
  function Measure(c: Config, s: State): int { Flow(c, s) + Total(c, s.lives, 0) }

  lemma MeasureNatural(c: Config, s: State)
    requires Inv(c, s)
    ensures Measure(c, s) >= 0
  {
    hide StatsOk, QueueOk, RFilesOk, SFilesOk, TasksOk, PipesOk, RequestsOk, LoopOk, PipelineOk, WorkersOk, DataOk,
         FinOk, ContentOk, AskedOk;
  }

  /** Only entry k differs. */
  lemma {:induction false} TotalChange(c: Config, a: seq<Life>, b: seq<Life>, k: nat, i: nat)
    requires k < |c.src| && i <= |c.src|
    requires forall j: nat :: j < |c.src| && j != k ==> Cost(c, a, j) == Cost(c, b, j)
    ensures Total(c, b, i) - Total(c, a, i) == (if i <= k then Cost(c, b, k) - Cost(c, a, k) else 0)
    decreases |c.src| - i
  {
    hide Cost;
    if i < |c.src| { TotalChange(c, a, b, k, i + 1); }
  }

  lemma Moves(c: Config, lives: seq<Life>, k: nat, l: Life)
    requires k < |lives| <= |c.src|
    ensures (Total(c, lives[k := l], 0) - Total(c, lives, 0)
             == LifeCost(l, |c.src[k].content|) - LifeCost(lives[k], |c.src[k].content|))
  {
    TotalChange(c, lives, lives[k := l], k, 0);
  }

  lemma Taken(c: Config, lives: seq<Life>, l: Life)
    requires |lives| < |c.src|
    ensures (Total(c, lives + [l], 0) - Total(c, lives, 0)
             == LifeCost(l, |c.src[|lives|].content|) - 2 * |c.src[|lives|].content|)
  {
    TotalChange(c, lives, lives + [l], |lives|, 0);
  }

  lemma {:induction false} RunningChange(workers: seq<Worker>, w: nat, x: Worker)
    requires w < |workers|
    ensures Running(workers[w := x]) == Running(workers) - Flag(!workers[w].Exited?, 1) + Flag(!x.Exited?, 1)
  {
    var t := workers[w := x];
    if w == 0 {
      assert t[1..] == workers[1..];
    } else {
      RunningChange(workers[1..], w - 1, x);
      assert t[1..] == workers[1..][w - 1 := x];
    }
  }

  // ---------------------------------------------------------------- every step lowers it

  lemma WalkLowers(c: Config, s: State, a: Action)
    requires Inv(c, s) && Enabled(c, s, a) && (a.WalkRegister? || a.WalkSend? || a.WalkEnd?)
    ensures Measure(c, Step(c, s, a)) < Measure(c, s)
  {
    hide StatsOk, QueueOk, RFilesOk, SFilesOk, TasksOk, PipesOk, RequestsOk, LoopOk, PipelineOk, WorkersOk, DataOk,
         FinOk, ContentOk, AskedOk, Total, Running, Handing, LoopsLeft;
  }

  lemma RequestStep(c: Config, s: State)
    requires s.err.None? && s.loop.Reading? && s.toSender != [] && s.toSender[0].REQ?
    requires s.toSender[0].id in s.sFiles && s.toSender[0].id < |s.lives|
    ensures (var k := s.toSender[0].id;
             Step(c, s, LoopReceive)
             == s.(toSender := s.toSender[1..], sFiles := s.sFiles - {k}, loop := Queueing(k, s.sFiles[k]),
                   lives := s.lives[k := InLoop]))
  { }

  lemma LoopReceiveLowers(c: Config, s: State)
    requires Inv(c, s) && Enabled(c, s, LoopReceive)
    ensures Measure(c, Step(c, s, LoopReceive)) < Measure(c, s)
  {
    hide StatsOk, QueueOk, RFilesOk, SFilesOk, TasksOk, PipesOk, RequestsOk, LoopOk, PipelineOk, WorkersOk, DataOk,
         FinOk, ContentOk, AskedOk, Total, Running, WalkLeft, Handing, EndsLeft, Step;
    if s.toSender[0].REQ? {
      RequestIsKnown(c, s);
      RequestStep(c, s);
      Moves(c, s.lives, s.toSender[0].id, InLoop);
    } else {
      FinInFront(c, s);
      FinRead(c, s);
    }
  }

  lemma FinRead(c: Config, s: State)
    requires s.err.None? && s.loop.Reading? && s.toSender != [] && s.toSender[0].FIN?
    ensures Step(c, s, LoopReceive) == s.(toSender := s.toSender[1..], loop := Replying)
  { }

  lemma LoopQueueLowers(c: Config, s: State)
    requires Inv(c, s) && Enabled(c, s, LoopQueue)
    ensures Measure(c, Step(c, s, LoopQueue)) < Measure(c, s)
  {
    hide StatsOk, QueueOk, RFilesOk, SFilesOk, TasksOk, PipesOk, RequestsOk, PipelineOk, WorkersOk, DataOk,
         FinOk, ContentOk, AskedOk, Total, Running, WalkLeft, Handing, EndsLeft;
    Moves(c, s.lives, s.loop.id, InPipeline);
  }

  lemma LoopReplyLowers(c: Config, s: State)
    requires Inv(c, s) && Enabled(c, s, LoopReply)
    ensures Measure(c, Step(c, s, LoopReply)) < Measure(c, s)
  {
    hide StatsOk, QueueOk, RFilesOk, SFilesOk, TasksOk, PipesOk, RequestsOk, LoopOk, PipelineOk, WorkersOk, DataOk,
         FinOk, ContentOk, AskedOk, Total, Running, WalkLeft, Handing, EndsLeft;
  }

  lemma FinInFront(c: Config, s: State)
    requires Inv(c, s) && s.toSender != [] && !s.toSender[0].REQ?
    ensures s.toSender[0].FIN?
  {
    hide StatsOk, QueueOk, RFilesOk, SFilesOk, TasksOk, PipesOk, LoopOk, PipelineOk, WorkersOk, DataOk,
         FinOk, ContentOk, AskedOk;
  }

  lemma WorkerTakeLowers(c: Config, s: State, w: nat)
    requires Inv(c, s) && Enabled(c, s, WorkerTake(w))
    ensures Measure(c, Step(c, s, WorkerTake(w))) < Measure(c, s)
  {
    hide StatsOk, QueueOk, RFilesOk, SFilesOk, TasksOk, PipesOk, RequestsOk, LoopOk, DataOk,
         FinOk, ContentOk, AskedOk, Total, Running, WalkLeft, Handing, EndsLeft, LoopsLeft, ContentOf;
    var k := s.pipeline[0].0;
    RunningChange(s.workers, w, Sending(k, s.pipeline[0].1, 0));
    Moves(c, s.lives, k, Copying(w, 0));
  }

  lemma WorkerChunkLowers(c: Config, s: State, w: nat, n: nat)
    requires ValidConfig(c) && Inv(c, s) && Enabled(c, s, WorkerChunk(w, n))
    ensures Measure(c, Step(c, s, WorkerChunk(w, n))) < Measure(c, s)
  {
    hide StatsOk, QueueOk, RFilesOk, SFilesOk, TasksOk, PipesOk, RequestsOk, LoopOk, DataOk,
         FinOk, ContentOk, AskedOk, Total, Running, WalkLeft, Handing, EndsLeft, LoopsLeft, ContentOf;
    var o := s.workers[w];
    RunningChange(s.workers, w, o.(offset := o.offset + n));
    ContentAt(c.src, o.id);
    Moves(c, s.lives, o.id, Copying(w, o.offset + n));
  }

  lemma WorkerEofLowers(c: Config, s: State, w: nat)
    requires ValidConfig(c) && Inv(c, s) && Enabled(c, s, WorkerEof(w))
    ensures Measure(c, Step(c, s, WorkerEof(w))) < Measure(c, s)
  {
    hide StatsOk, QueueOk, RFilesOk, SFilesOk, TasksOk, PipesOk, RequestsOk, LoopOk, DataOk,
         FinOk, ContentOk, AskedOk, Total, Running, WalkLeft, Handing, EndsLeft, LoopsLeft, ContentOf;
    var o := s.workers[w];
    RunningChange(s.workers, w, Idle);
    ContentAt(c.src, o.id);
    Moves(c, s.lives, o.id, EofSent);
  }

  lemma WorkerExitLowers(c: Config, s: State, w: nat)
    requires Inv(c, s) && Enabled(c, s, WorkerExit(w))
    ensures Measure(c, Step(c, s, WorkerExit(w))) < Measure(c, s)
  {
    hide StatsOk, QueueOk, RFilesOk, SFilesOk, TasksOk, PipesOk, RequestsOk, LoopOk, PipelineOk, WorkersOk, DataOk,
         FinOk, ContentOk, AskedOk, Total, Running, WalkLeft, Handing, EndsLeft, LoopsLeft;
    RunningChange(s.workers, w, Exited);
  }

  lemma IntakeStatLowers(c: Config, s: State)
    requires ValidConfig(c) && Inv(c, s) && Enabled(c, s, IntakeReceive) && s.toReceiver[0].STAT?
    ensures Measure(c, Step(c, s, IntakeReceive)) < Measure(c, s)
  {
    hide StatsOk, QueueOk, RFilesOk, SFilesOk, TasksOk, PipesOk, RequestsOk, LoopOk, PipelineOk, WorkersOk, DataOk,
         FinOk, ContentOk, AskedOk, Total, Running, LoopsLeft;
    StatInFront(c, s);
    FinStays(s.toReceiver, s.loop, s.intake);
  }

  lemma IntakeDataLowers(c: Config, s: State)
    requires ValidConfig(c) && Inv(c, s) && Enabled(c, s, IntakeReceive) && s.toReceiver[0].DATA?
    ensures Measure(c, Step(c, s, IntakeReceive)) < Measure(c, s)
  {
    hide StatsOk, QueueOk, RFilesOk, SFilesOk, TasksOk, PipesOk, RequestsOk, LoopOk, PipelineOk, WorkersOk, DataOk,
         FinOk, ContentOk, AskedOk, Total, Running, WalkLeft, Handing, EndsLeft, LoopsLeft, Step;
    DataInFront(c, s);
    FinStays(s.toReceiver, s.loop, s.intake);
    if s.toReceiver[0].bytes == [] {
      EofStep(c, s);
      Moves(c, s.lives, s.toReceiver[0].id, Closed);
    } else {
      DataStep(c, s);
    }
  }

  lemma FinReceived(c: Config, s: State)
    requires Inv(c, s) && Enabled(c, s, IntakeReceive) && s.toReceiver[0].FIN?
    ensures Step(c, s, IntakeReceive) == s.(toReceiver := s.toReceiver[1..], intake := Draining)
    ensures s.intake.Receiving?
  {
    hide StatsOk, QueueOk, RFilesOk, SFilesOk, TasksOk, PipesOk, RequestsOk, LoopOk, PipelineOk, WorkersOk, DataOk,
         ContentOk, AskedOk;
    assert s.toReceiver[0] in s.toReceiver;
  }

  lemma IntakeFinLowers(c: Config, s: State)
    requires Inv(c, s) && Enabled(c, s, IntakeReceive) && s.toReceiver[0].FIN?
    ensures Measure(c, Step(c, s, IntakeReceive)) < Measure(c, s)
  {
    hide StatsOk, QueueOk, RFilesOk, SFilesOk, TasksOk, PipesOk, RequestsOk, LoopOk, PipelineOk, WorkersOk, DataOk,
         FinOk, ContentOk, AskedOk, Total, Running, WalkLeft, Handing, EndsLeft, Step;
    FinReceived(c, s);
  }

  lemma IntakeLowers(c: Config, s: State, a: Action)
    requires ValidConfig(c) && Inv(c, s) && Enabled(c, s, a) && (a.IntakeReceive? || a.IntakePush?)
    ensures Measure(c, Step(c, s, a)) < Measure(c, s)
  {
    hide StatsOk, QueueOk, RFilesOk, SFilesOk, TasksOk, PipesOk, RequestsOk, LoopOk, PipelineOk, WorkersOk, DataOk,
         FinOk, ContentOk, AskedOk, Total, Running, WalkLeft, EndsLeft, LoopsLeft;
    if a.IntakeReceive? {
      hide Inv, Step, Measure;
      if s.toReceiver[0].STAT? {
        IntakeStatLowers(c, s);
      } else if s.toReceiver[0].DATA? {
        IntakeDataLowers(c, s);
      } else {
        NoRequestIn(c, s);
        IntakeFinLowers(c, s);
      }
    } else {
    }
  }

  lemma FillLowers(c: Config, s: State, a: Action)
    requires Inv(c, s) && Enabled(c, s, a) && (a.FillTake? || a.FillPut? || a.FillClose?)
    ensures Measure(c, Step(c, s, a)) < Measure(c, s)
  {
    hide StatsOk, QueueOk, RFilesOk, SFilesOk, TasksOk, PipesOk, RequestsOk, LoopOk, PipelineOk, WorkersOk, DataOk,
         FinOk, ContentOk, AskedOk, Total, Running, WalkLeft, LoopsLeft;
  }

  lemma TakeStep(c: Config, s: State, request: bool)
    requires s.err.None? && Enabled(c, s, DiffTake(request))
    ensures (Step(c, s, DiffTake(request))
             == s.(c2 := s.c2[1..], tasks := if request then s.tasks[s.c2[0].path := Started] else s.tasks,
                   lives := s.lives + [if request then Spawned else Skipped]))
  { }

  lemma DiffTakeLowers(c: Config, s: State, request: bool)
    requires Inv(c, s) && Enabled(c, s, DiffTake(request))
    ensures Measure(c, Step(c, s, DiffTake(request))) < Measure(c, s)
  {
    hide StatsOk, QueueOk, RFilesOk, SFilesOk, TasksOk, PipesOk, RequestsOk, LoopOk, PipelineOk, WorkersOk, DataOk,
         FinOk, ContentOk, AskedOk, Total, Running, WalkLeft, EndsLeft, LoopsLeft, Step;
    NextEntry(c, s);
    TakeStep(c, s, request);
    Taken(c, s.lives, if request then Spawned else Skipped);
  }

  lemma DiffLowers(c: Config, s: State, a: Action)
    requires Inv(c, s) && Enabled(c, s, a) && (a.DiffEnd? || a.DiffFin?)
    ensures Measure(c, Step(c, s, a)) < Measure(c, s)
  {
    hide StatsOk, QueueOk, RFilesOk, SFilesOk, TasksOk, PipesOk, RequestsOk, LoopOk, PipelineOk, WorkersOk, DataOk,
         FinOk, ContentOk, AskedOk, Total, Running, WalkLeft, Handing, EndsLeft;
  }

  lemma TaskRegisterLowers(c: Config, s: State, p: Str)
    requires ValidConfig(c) && Inv(c, s) && Enabled(c, s, TaskRegister(p))
    ensures Measure(c, Step(c, s, TaskRegister(p))) < Measure(c, s)
  {
    hide StatsOk, QueueOk, RFilesOk, SFilesOk, TasksOk, PipesOk, RequestsOk, LoopOk, PipelineOk, WorkersOk, DataOk,
         FinOk, ContentOk, AskedOk, Total, Running, WalkLeft, Handing, EndsLeft, LoopsLeft, ValidConfig;
    var k := EntryOf(c, s, p);
    FileTaken(c, s.rFiles, s.lives, s.received, k);
    Moves(c, s.lives, k, Piped);
  }

  lemma TaskRequestLowers(c: Config, s: State, p: Str)
    requires ValidConfig(c) && Inv(c, s) && Enabled(c, s, TaskRequest(p))
    ensures Measure(c, Step(c, s, TaskRequest(p))) < Measure(c, s)
  {
    hide StatsOk, QueueOk, RFilesOk, SFilesOk, TasksOk, PipesOk, RequestsOk, LoopOk, PipelineOk, WorkersOk, DataOk,
         FinOk, ContentOk, AskedOk, Total, Running, WalkLeft, Handing, EndsLeft, LoopsLeft, ValidConfig;
    var k := EntryOf(c, s, p);
    Moves(c, s.lives, k, ReqSent);
  }

  lemma TaskFinishLowers(c: Config, s: State, p: Str)
    requires ValidConfig(c) && Inv(c, s) && Enabled(c, s, TaskFinish(p))
    ensures Measure(c, Step(c, s, TaskFinish(p))) < Measure(c, s)
  {
    hide StatsOk, QueueOk, RFilesOk, SFilesOk, TasksOk, PipesOk, RequestsOk, LoopOk, PipelineOk, WorkersOk, DataOk,
         FinOk, ContentOk, AskedOk, Total, Running, WalkLeft, Handing, EndsLeft, LoopsLeft, ValidConfig;
    var k := EntryOf(c, s, p);
    PipeEnds(c, s.pipes, s.lives, k);
    Moves(c, s.lives, k, Complete);
  }

  lemma StepLowers(c: Config, s: State, a: Action)
    requires ValidConfig(c) && Inv(c, s) && Enabled(c, s, a)
    ensures Measure(c, Step(c, s, a)) < Measure(c, s)
  {
    hide Inv, Step, ValidConfig, Measure, Enabled;
    if a.WalkRegister? || a.WalkSend? || a.WalkEnd? {
      WalkLowers(c, s, a);
    } else if a.LoopReceive? || a.LoopQueue? || a.LoopReply? {
      match a {
        case LoopReceive => LoopReceiveLowers(c, s);
        case LoopQueue => LoopQueueLowers(c, s);
        case LoopReply => LoopReplyLowers(c, s);
      }
    } else if a.WorkerTake? || a.WorkerChunk? || a.WorkerEof? || a.WorkerExit? {
      match a {
        case WorkerTake(w) => WorkerTakeLowers(c, s, w);
        case WorkerChunk(w, n) => WorkerChunkLowers(c, s, w, n);
        case WorkerEof(w) => WorkerEofLowers(c, s, w);
        case WorkerExit(w) => WorkerExitLowers(c, s, w);
      }
    } else if a.IntakeReceive? || a.IntakePush? {
      IntakeLowers(c, s, a);
    } else if a.TaskRegister? || a.TaskRequest? || a.TaskFinish? {
      match a {
        case TaskRegister(p) => TaskRegisterLowers(c, s, p);
        case TaskRequest(p) => TaskRequestLowers(c, s, p);
        case TaskFinish(p) => TaskFinishLowers(c, s, p);
      }
    } else if a.FillTake? || a.FillPut? || a.FillClose? {
      FillLowers(c, s, a);
    } else if a.DiffTake? {
      DiffTakeLowers(c, s, a.request);
    } else {
      DiffLowers(c, s, a);
    }
  }

  // ---------------------------------------------------------------- no deadlock

  ghost predicate Stuck(c: Config, s: State) { forall a :: !Enabled(c, s, a) }

  /** A receive loop that hands an entry on is never blocked for good, so the stream drains. */
  lemma StreamDrains(c: Config, s: State)
    requires Inv(c, s) && Stuck(c, s)
    ensures s.toReceiver == [] && !s.intake.Updating?
    ensures s.c2 != [] ==> !s.diff.Merging?
    ensures s.held.None?
  {
    hide StatsOk, QueueOk, RFilesOk, SFilesOk, TasksOk, PipesOk, RequestsOk, LoopOk, PipelineOk, WorkersOk, DataOk,
         FinOk, ContentOk, AskedOk;
    assert !Enabled(c, s, DiffTake(false));
    assert !Enabled(c, s, FillPut);
    assert !Enabled(c, s, FillTake);
    assert !Enabled(c, s, IntakePush);
    assert !Enabled(c, s, IntakeReceive);
  }

  lemma WalkEnds(c: Config, s: State)
    requires ValidConfig(c) && Inv(c, s) && Stuck(c, s)
    ensures s.walkDone && s.walkClosed && s.received == |c.src|
  {
    StreamDrains(c, s);
    hide QueueOk, RFilesOk, SFilesOk, TasksOk, PipesOk, RequestsOk, LoopOk, PipelineOk, WorkersOk, DataOk,
         FinOk, ContentOk, AskedOk;
    assert !Enabled(c, s, WalkRegister);
    assert !Enabled(c, s, WalkSend);
    assert !Enabled(c, s, WalkEnd);
    assert StatsIn(s.toReceiver) == [];
    assert |Somes(Items(c, s.received, s.sent))| == s.sent - s.received;
  }

  lemma WalkerEmpties(c: Config, s: State)
    requires ValidConfig(c) && Inv(c, s) && Stuck(c, s)
    ensures s.walkChan == [] && s.held.None? && s.c2 == [] && s.c2Closed && !s.diff.Merging? && |s.lives| == |c.src|
  {
    hide StatsOk, RFilesOk, SFilesOk, TasksOk, PipesOk, RequestsOk, LoopOk, PipelineOk, WorkersOk, DataOk,
         FinOk, ContentOk, AskedOk, ValidConfig;
    StreamDrains(c, s);
    WalkEnds(c, s);
    assert !Enabled(c, s, DiffTake(false));
    assert !Enabled(c, s, FillTake);
    assert !Enabled(c, s, FillClose);
    assert !Enabled(c, s, DiffEnd);
    assert |Items(c, |s.lives|, s.received)| == 0;
  }

  /** No worker copies, and the pipeline is empty. */
  lemma WorkersRest(c: Config, s: State)
    requires ValidConfig(c) && Inv(c, s) && Stuck(c, s)
    ensures forall w :: 0 <= w < |s.workers| ==> !s.workers[w].Sending?
    ensures s.pipeline == []
  {
    hide StatsOk, QueueOk, RFilesOk, SFilesOk, TasksOk, PipesOk, LoopOk, DataOk,
         FinOk, ContentOk, AskedOk, ContentOf;
    StreamDrains(c, s);
    forall w | 0 <= w < |s.workers| ensures !s.workers[w].Sending? {
      assert !Enabled(c, s, WorkerChunk(w, 1));
      assert !Enabled(c, s, WorkerEof(w));
      if s.workers[w].Sending? { ContentAt(c.src, s.workers[w].id); }
    }
    assert !Enabled(c, s, WorkerTake(0));
    if s.pipeline != [] { PipelineRuns(c, s); }
  }

  lemma PipelineRuns(c: Config, s: State)
    requires Inv(c, s) && s.pipeline != []
    ensures !s.loop.Returned?
  {
    hide StatsOk, QueueOk, RFilesOk, SFilesOk, TasksOk, PipesOk, RequestsOk, LoopOk, WorkersOk, DataOk,
         FinOk, ContentOk, AskedOk;
    assert !Settled(s.lives[s.pipeline[0].0]);
    NotReturned(c, s);
  }

  lemma LoopRests(c: Config, s: State)
    requires ValidConfig(c) && Inv(c, s) && Stuck(c, s)
    ensures s.toSender == [] && (s.loop.Reading? || s.loop.Returned?)
  {
    hide StatsOk, QueueOk, RFilesOk, SFilesOk, TasksOk, PipesOk, LoopOk, PipelineOk, WorkersOk, DataOk,
         FinOk, ContentOk, AskedOk;
    StreamDrains(c, s);
    WorkersRest(c, s);
    assert !Enabled(c, s, LoopQueue);
    assert !Enabled(c, s, LoopReply);
    assert !Enabled(c, s, LoopReceive);
  }

  /** With every queue empty an entry can only be settled. */
  lemma NoneUnderWay(c: Config, s: State, k: nat)
    requires ValidConfig(c) && Inv(c, s) && Stuck(c, s) && k < |s.lives|
    ensures !s.lives[k].ReqSent? && !s.lives[k].InLoop? && !s.lives[k].InPipeline? && !s.lives[k].Copying?
    ensures !s.lives[k].EofSent?
  {
    hide StatsOk, QueueOk, RFilesOk, SFilesOk, TasksOk, PipesOk, FinOk, ContentOk, AskedOk, ValidConfig, Stuck;
    StreamDrains(c, s);
    WorkersRest(c, s);
    LoopRests(c, s);
  }

  lemma TasksEnd(c: Config, s: State, p: Str)
    requires ValidConfig(c) && Inv(c, s) && Stuck(c, s) && p in s.tasks
    ensures s.tasks[p].Done?
  {
    hide StatsOk, QueueOk, RFilesOk, SFilesOk, TasksOk, PipesOk, RequestsOk, LoopOk, PipelineOk, WorkersOk, DataOk,
         FinOk, ContentOk, AskedOk;
    var k := EntryOf(c, s, p);
    NoneUnderWay(c, s, k);
    LoopRests(c, s);
    if s.lives[k].Closed? { ClosedPipe(c, s.pipes, s.lives, k); }
    assert !Enabled(c, s, TaskRegister(p));
    assert !Enabled(c, s, TaskRequest(p));
    assert !Enabled(c, s, TaskFinish(p));
  }

  lemma ClosedPipe(c: Config, pipes: map<nat, Pipe>, lives: seq<Life>, k: nat)
    requires PipesOk(c, pipes, lives) && k < |lives| && lives[k].Closed?
    ensures k in pipes && pipes[k].closed
  { }

  /** A state without a next step is the end of the transfer. */
  lemma StuckIsTerminal(c: Config, s: State)
    requires ValidConfig(c) && Inv(c, s) && Stuck(c, s)
    ensures Terminal(s)
  {
    hide StatsOk, QueueOk, RFilesOk, SFilesOk, TasksOk, PipesOk, LoopOk, PipelineOk, WorkersOk, DataOk,
         ContentOk, AskedOk, FinOk, RequestsOk;
    StreamDrains(c, s);
    WalkEnds(c, s);
    WalkerEmpties(c, s);
    WorkersRest(c, s);
    LoopRests(c, s);
    forall p | p in s.tasks ensures s.tasks[p].Done? { TasksEnd(c, s, p); }
    assert !Enabled(c, s, DiffFin);
    LoopReturned(c, s);
    forall w | 0 <= w < |s.workers| ensures s.workers[w].Exited? {
      assert !Enabled(c, s, WorkerExit(w));
    }
  }

  lemma LoopReturned(c: Config, s: State)
    requires Inv(c, s) && s.toReceiver == [] && s.toSender == [] && s.diff.Finished? && !s.loop.Replying?
    ensures s.loop.Returned? && s.intake.Draining?
  {
    hide StatsOk, QueueOk, RFilesOk, SFilesOk, TasksOk, PipesOk, LoopOk, PipelineOk, WorkersOk, DataOk,
         ContentOk, AskedOk;
  }

  lemma TerminalIsStuck(c: Config, s: State)
    requires Inv(c, s) && Terminal(s)
    ensures Stuck(c, s)
  {
    hide StatsOk, QueueOk, RFilesOk, SFilesOk, TasksOk, PipesOk, LoopOk, PipelineOk, WorkersOk, DataOk,
         FinOk, ContentOk, AskedOk, RequestsOk;
    forall a ensures !Enabled(c, s, a) { }
  }
}
