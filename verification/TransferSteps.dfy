/** Every step of the transfer protocol keeps the invariant. */
module TransferSteps {
  import opened Bytes
  import opened Transfer
  import opened TransferInvariant

  // ---------------------------------------------------------------- the sender's walk

  lemma WalkRegisterKeeps(c: Config, s: State)
    requires ValidConfig(c) && Inv(c, s) && Enabled(c, s, WalkRegister)
    ensures Inv(c, Step(c, s, WalkRegister))
  {
    hide StatsOk, QueueOk, RFilesOk, TasksOk, PipesOk, RequestsOk, LoopOk, PipelineOk, WorkersOk, DataOk, FinOk,
         ContentOk, AskedOk;
  }

  lemma WalkSendKeeps(c: Config, s: State)
    requires ValidConfig(c) && Inv(c, s) && Enabled(c, s, WalkSend)
    ensures Inv(c, Step(c, s, WalkSend))
  {
    hide QueueOk, RFilesOk, SFilesOk, TasksOk, PipesOk, RequestsOk, LoopOk, PipelineOk, WorkersOk, DataOk,
         ContentOk, AskedOk;
    var p := STAT(Some(ItemOf(c.src[s.sent])));
    StatsInAppend(s.toReceiver, p);
    ItemsAppend(c, s.received, s.sent);
    QuietAppend(c, s.toReceiver, p, s.lives, s.written);
    assert StatsOk(c, s.toReceiver + [p], s.received, s.sent + 1, s.walkDone, s.walkClosed);
    NotReturned(c, s);
  }

  lemma WalkEndKeeps(c: Config, s: State)
    requires ValidConfig(c) && Inv(c, s) && Enabled(c, s, WalkEnd)
    ensures Inv(c, Step(c, s, WalkEnd))
  {
    hide QueueOk, RFilesOk, SFilesOk, TasksOk, PipesOk, LoopOk, PipelineOk, WorkersOk, DataOk,
         ContentOk, AskedOk, RequestsOk;
    NotReturned(c, s);
    StatsInAppend(s.toReceiver, STAT(None));
    QuietAppend(c, s.toReceiver, STAT(None), s.lives, s.written);
    assert StatsOk(c, s.toReceiver + [STAT(None)], s.received, s.sent, true, s.walkClosed);
  }

  // ---------------------------------------------------------------- the sender's receive loop

  /** The request in front is for an id the sender holds. */
  lemma RequestIsKnown(c: Config, s: State)
    requires Inv(c, s) && s.toSender != [] && s.toSender[0].REQ?
    ensures s.toSender[0].id < |s.lives| && s.lives[s.toSender[0].id].ReqSent? && s.toSender[0].id < |c.src|
    ensures s.toSender[0].id in s.sFiles && s.sFiles[s.toSender[0].id] == c.src[s.toSender[0].id].path
  {
    hide StatsOk, QueueOk, RFilesOk, PipesOk, LoopOk, PipelineOk, WorkersOk, DataOk, FinOk, ContentOk, AskedOk;
  }

  lemma LoopReceiveRequestKeeps(c: Config, s: State)
    requires ValidConfig(c) && Inv(c, s) && Enabled(c, s, LoopReceive) && s.toSender[0].REQ?
    ensures Inv(c, Step(c, s, LoopReceive))
  {
    hide StatsOk, QueueOk, RFilesOk, TasksOk, PipesOk, PipelineOk, DataOk, ContentOk, AskedOk;
    RequestIsKnown(c, s);
    var k := s.toSender[0].id;
    MoveKeepsMaps(c, s, k, InLoop);
    MoveKeepsTasks(c, s.tasks, s.lives, k, InLoop);
    MoveKeepsContent(c, s.written, s.toReceiver, s.lives, k, InLoop);
    MoveKeepsQueues(c, s, k, InLoop);
    var t := s.lives[k := InLoop];
    assert SFilesOk(c, s.sFiles - {k}, t, s.walked);
    RequestTaken(s.toSender, s.lives, s.diff, s.loop, Queueing(k, c.src[k].path));
    hide RequestsOk, SFilesOk;
    assert LoopOk(c, Queueing(k, c.src[k].path), t);
    assert WorkersOk(c, s.workers, t, Queueing(k, c.src[k].path));
    assert FinOk(s.toReceiver, Queueing(k, c.src[k].path), s.intake);
    hide LoopOk, WorkersOk, FinOk;
  }

  lemma RequestTaken(q: seq<Packet>, lives: seq<Life>, diff: Diff, loop: Loop, next: Loop)
    requires RequestsOk(q, lives, diff, loop) && q != [] && q[0].REQ? && loop.Reading? && next.Queueing?
    ensures q[0].id < |lives| && RequestsOk(q[1..], lives[q[0].id := InLoop], diff, next)
  {
    var k := q[0].id;
    var t := lives[k := InLoop];
    forall j | 0 <= j < |t| && t[j].ReqSent? ensures REQ(j) in q[1..] {
      assert REQ(j) in q && REQ(j) != q[0];
    }
    assert FIN !in q;
  }

  lemma LoopReceiveFinKeeps(c: Config, s: State)
    requires ValidConfig(c) && Inv(c, s) && Enabled(c, s, LoopReceive) && !s.toSender[0].REQ?
    ensures Inv(c, Step(c, s, LoopReceive)) && s.toSender == [FIN]
  {
    hide StatsOk, QueueOk, RFilesOk, SFilesOk, TasksOk, PipesOk, PipelineOk, DataOk, ContentOk, AskedOk;
    assert s.toSender[0].FIN?;
    assert RequestsOk(s.toSender[1..], s.lives, s.diff, Replying);
  }

  lemma LoopQueueKeeps(c: Config, s: State)
    requires ValidConfig(c) && Inv(c, s) && Enabled(c, s, LoopQueue)
    ensures Inv(c, Step(c, s, LoopQueue))
  {
    hide StatsOk, QueueOk, RFilesOk, SFilesOk, TasksOk, PipesOk, RequestsOk, DataOk, ContentOk, AskedOk;
    var k := s.loop.id;
    MoveKeepsMaps(c, s, k, InPipeline);
    MoveKeepsTasks(c, s.tasks, s.lives, k, InPipeline);
    MoveKeepsContent(c, s.written, s.toReceiver, s.lives, k, InPipeline);
    MoveKeepsQueues(c, s, k, InPipeline);
    MoveKeepsRequests(s.toSender, s.lives, s.diff, s.loop, k, InPipeline);
    var t := s.lives[k := InPipeline];
    assert RequestsOk(s.toSender, t, s.diff, Reading) by { BackToReading(s, t); }
    assert PipelineOk(c, s.pipeline + [(k, s.loop.path)], t);
    hide PipelineOk;
    assert LoopOk(c, Reading, t);
    assert WorkersOk(c, s.workers, t, Reading);
    assert FinOk(s.toReceiver, Reading, s.intake);
    hide LoopOk, WorkersOk, FinOk;
  }

  lemma BackToReading(s: State, t: seq<Life>)
    requires s.loop.Queueing? && RequestsOk(s.toSender, t, s.diff, s.loop)
    ensures RequestsOk(s.toSender, t, s.diff, Reading)
  { }

  lemma LoopReplyKeeps(c: Config, s: State)
    requires ValidConfig(c) && Inv(c, s) && Enabled(c, s, LoopReply)
    ensures Inv(c, Step(c, s, LoopReply))
  {
    hide StatsOk, QueueOk, RFilesOk, SFilesOk, TasksOk, PipesOk, RequestsOk, LoopOk, PipelineOk, WorkersOk, DataOk,
         FinOk, ContentOk, AskedOk;
    NothingLeftToSend(c, s);
    QuietAppend(c, s.toReceiver, FIN, s.lives, s.written);
    FinAppend(c, s);
    LoopReturns(c, s);
  }

  lemma FinAppend(c: Config, s: State)
    requires StatsOk(c, s.toReceiver, s.received, s.sent, s.walkDone, s.walkClosed)
    requires s.toReceiver == [] && s.loop.Replying? && FinOk([], s.loop, s.intake)
    ensures StatsOk(c, s.toReceiver + [FIN], s.received, s.sent, s.walkDone, s.walkClosed)
    ensures FinOk(s.toReceiver + [FIN], Returned, s.intake)
  {
    assert StatsIn([FIN]) == StatsIn([FIN][1..]);
    assert [] + [FIN] == [FIN];
  }

  lemma LoopReturns(c: Config, s: State)
    requires s.loop.Replying?
    ensures RequestsOk(s.toSender, s.lives, s.diff, s.loop) ==> RequestsOk(s.toSender, s.lives, s.diff, Returned)
    ensures LoopOk(c, s.loop, s.lives) ==> LoopOk(c, Returned, s.lives)
    ensures WorkersOk(c, s.workers, s.lives, s.loop) ==> WorkersOk(c, s.workers, s.lives, Returned)
  { }

  /** When the sender answers FIN, its stream has been read to the end. */
  lemma NothingLeftToSend(c: Config, s: State)
    requires Inv(c, s) && s.loop.Replying?
    ensures s.toReceiver == []
  {
    hide RFilesOk, SFilesOk, TasksOk, PipesOk, PipelineOk, LoopOk, WorkersOk, ContentOk, AskedOk, QueueOk;
    StreamIsRead(s.toReceiver, s.lives);
  }

  lemma NoDataLeft(q: seq<Packet>, lives: seq<Life>)
    requires DataOk(q, lives) && forall k :: 0 <= k < |lives| ==> Settled(lives[k])
    ensures forall i :: 0 <= i < |q| ==> !q[i].DATA?
  { }

  lemma StatShows(q: seq<Packet>)
    requires q != [] && q[0].STAT?
    ensures StatsIn(q) != []
  {
    assert StatsIn(q)[0] == q[0].item;
  }

  lemma NoFinIn(q: seq<Packet>)
    requires FIN !in q
    ensures forall i :: 0 <= i < |q| ==> !q[i].FIN?
  {
    assert forall i :: 0 <= i < |q| ==> q[i] in q;
  }

  lemma StreamIsRead(q: seq<Packet>, lives: seq<Life>)
    requires StatsIn(q) == [] && DataOk(q, lives) && FIN !in q && forall i :: 0 <= i < |q| ==> !q[i].REQ?
    requires forall k :: 0 <= k < |lives| ==> Settled(lives[k])
    ensures q == []
  {
    hide DataOk, Settled, StatsIn;
    NoDataLeft(q, lives);
    NoFinIn(q);
    if q != [] && q[0].STAT? { StatShows(q); }
  }

  // ---------------------------------------------------------------- the sender's workers

  lemma WorkerTakeKeeps(c: Config, s: State, w: nat)
    requires ValidConfig(c) && Inv(c, s) && Enabled(c, s, WorkerTake(w))
    ensures Inv(c, Step(c, s, WorkerTake(w)))
  {
    hide StatsOk, QueueOk, RFilesOk, SFilesOk, TasksOk, PipesOk, RequestsOk, DataOk, FinOk, ContentOk, AskedOk;
    var k := s.pipeline[0].0;
    var l := Copying(w, 0);
    assert s.lives[k].InPipeline?;
    MoveKeepsMaps(c, s, k, l);
    MoveKeepsTasks(c, s.tasks, s.lives, k, l);
    MoveKeepsContent(c, s.written, s.toReceiver, s.lives, k, l);
    MoveKeepsQueues(c, s, k, l);
    MoveKeepsRequests(s.toSender, s.lives, s.diff, s.loop, k, l);
    DataSpreads(s.toReceiver, s.lives, k, l);
    var t := s.lives[k := l];
    assert PipelineOk(c, s.pipeline[1..], t) by {
      forall j | 0 <= j < |t| && t[j].InPipeline? ensures (j, c.src[j].path) in s.pipeline[1..] {
        assert (j, c.src[j].path) in s.pipeline;
      }
    }
    assert WorkersOk(c, s.workers[w := Sending(k, s.pipeline[0].1, 0)], t, s.loop);
    hide PipelineOk, WorkersOk, LoopOk;
  }

  /** A stage that allows contents in flight admits a queue without any. */
  lemma DataSpreads(q: seq<Packet>, lives: seq<Life>, k: nat, l: Life)
    requires k < |lives| && DataOk(q, lives) && !lives[k].EofSent? && l.Copying?
    ensures DataOk(q, lives[k := l])
  { }

  lemma WorkerChunkKeeps(c: Config, s: State, w: nat, n: nat)
    requires ValidConfig(c) && Inv(c, s) && Enabled(c, s, WorkerChunk(w, n))
    ensures Inv(c, Step(c, s, WorkerChunk(w, n)))
  {
    hide StatsOk, QueueOk, RFilesOk, SFilesOk, TasksOk, PipesOk, RequestsOk, DataOk, ContentOk, AskedOk, LoopOk,
         PipelineOk, StatsIn, ContentOf;
    var o := s.workers[w];
    var k := o.id;
    ContentAt(c.src, k);
    var p := DATA(k, c.src[k].content[o.offset..o.offset + n]);
    var l := Copying(w, o.offset + n);
    MoveKeepsMaps(c, s, k, l);
    MoveKeepsTasks(c, s.tasks, s.lives, k, l);
    MoveKeepsQueues(c, s, k, l);
    MoveKeepsRequests(s.toSender, s.lives, s.diff, s.loop, k, l);
    StatsInAppend(s.toReceiver, p);
    StatsCarry(c, s, p);
    DataSpreads(s.toReceiver, s.lives, k, l);
    var t := s.lives[k := l];
    DataAppend(s.toReceiver, t, p);
    ContentAppend(c, s.written, s.toReceiver, s.lives, k, l, p);
    assert WorkersOk(c, s.workers[w := o.(offset := o.offset + n)], t, s.loop);
    hide WorkersOk;
    assert FinOk(s.toReceiver + [p], s.loop, s.intake);
    hide FinOk;
  }

  lemma StatsCarry(c: Config, s: State, p: Packet)
    requires p.DATA? && StatsIn(s.toReceiver + [p]) == StatsIn(s.toReceiver)
    requires StatsOk(c, s.toReceiver, s.received, s.sent, s.walkDone, s.walkClosed)
    ensures StatsOk(c, s.toReceiver + [p], s.received, s.sent, s.walkDone, s.walkClosed)
  { }

  lemma DataAppend(q: seq<Packet>, lives: seq<Life>, p: Packet)
    requires p.DATA? && p.id < |lives| && lives[p.id].Copying? && p.bytes != [] && DataOk(q, lives)
    ensures DataOk(q + [p], lives)
  {
    forall j | 0 <= j < |lives| && lives[j].EofSent? ensures DATA(j, []) in q + [p] {
      assert DATA(j, []) in q;
    }
  }

  /** The next stretch of an entry's content joins the stream. */
  lemma ContentAppend(c: Config, written: map<Str, Str>, q: seq<Packet>, lives: seq<Life>, k: nat, l: Life, p: Packet)
    requires ContentOk(c, written, q, lives) && k < |lives| && p.DATA? && p.id == k
    requires Offset(lives[k], |c.src[k].content|) <= Offset(l, |c.src[k].content|) <= |c.src[k].content|
    requires p.bytes == c.src[k].content[Offset(lives[k], |c.src[k].content|)..Offset(l, |c.src[k].content|)]
    ensures ContentOk(c, written, q + [p], lives[k := l])
  {
    hide DataIn;
    var t := lives[k := l];
    forall j: nat | j < |c.src|
      ensures Holds(c, written, q + [p], j, SentOf(c, t, j))
    {
      assert Holds(c, written, q, j, SentOf(c, lives, j));
      DataInAppend(q, p, j);
      if j == k {
        Stretch(Written(written, c.src[k].path), DataIn(q, k), c.src[k].content, Offset(lives[k], |c.src[k].content|),
                Offset(l, |c.src[k].content|));
      }
    }
  }

  lemma Stretch(w: Str, d: Str, content: Str, a: nat, b: nat)
    requires a <= b <= |content| && w + d == content[..a]
    ensures w + (d + content[a..b]) == content[..b]
  {
    assert w + (d + content[a..b]) == (w + d) + content[a..b];
  }

  lemma WorkerEofKeeps(c: Config, s: State, w: nat)
    requires ValidConfig(c) && Inv(c, s) && Enabled(c, s, WorkerEof(w))
    ensures Inv(c, Step(c, s, WorkerEof(w)))
  {
    hide StatsOk, QueueOk, RFilesOk, SFilesOk, TasksOk, PipesOk, RequestsOk, DataOk, ContentOk, AskedOk, LoopOk,
         PipelineOk, StatsIn, ContentOf;
    var o := s.workers[w];
    var k := o.id;
    ContentAt(c.src, k);
    var p := DATA(k, []);
    MoveKeepsMaps(c, s, k, EofSent);
    MoveKeepsTasks(c, s.tasks, s.lives, k, EofSent);
    MoveKeepsQueues(c, s, k, EofSent);
    MoveKeepsRequests(s.toSender, s.lives, s.diff, s.loop, k, EofSent);
    StatsInAppend(s.toReceiver, p);
    StatsCarry(c, s, p);
    var t := s.lives[k := EofSent];
    EofAppend(s.toReceiver, s.lives, k);
    ContentAppend(c, s.written, s.toReceiver, s.lives, k, EofSent, p);
    assert WorkersOk(c, s.workers[w := Idle], t, s.loop);
    hide WorkersOk;
    assert FinOk(s.toReceiver + [p], s.loop, s.intake);
    hide FinOk;
  }

  lemma EofAppend(q: seq<Packet>, lives: seq<Life>, k: nat)
    requires k < |lives| && lives[k].Copying? && DataOk(q, lives)
    ensures DataOk(q + [DATA(k, [])], lives[k := EofSent])
  {
    var t := lives[k := EofSent];
    var r := q + [DATA(k, [])];
    forall j | 0 <= j < |t| && t[j].EofSent? ensures DATA(j, []) in r {
      assert j == k || DATA(j, []) in q;
      assert r[|q|] == DATA(k, []);
    }
  }

  lemma WorkerExitKeeps(c: Config, s: State, w: nat)
    requires ValidConfig(c) && Inv(c, s) && Enabled(c, s, WorkerExit(w))
    ensures Inv(c, Step(c, s, WorkerExit(w)))
  {
    hide StatsOk, QueueOk, RFilesOk, SFilesOk, TasksOk, PipesOk, RequestsOk, DataOk, ContentOk, AskedOk, LoopOk,
         PipelineOk, FinOk;
  }

  // ---------------------------------------------------------------- the receiver's receive loop

  lemma DataLeavesStats(c: Config, s: State)
    requires s.toReceiver != [] && s.toReceiver[0].DATA?
    requires StatsOk(c, s.toReceiver, s.received, s.sent, s.walkDone, s.walkClosed)
    ensures StatsOk(c, s.toReceiver[1..], s.received, s.sent, s.walkDone, s.walkClosed)
  {
    assert StatsIn(s.toReceiver) == StatsIn(s.toReceiver[1..]);
  }

  /** Taking a packet that is not FIN. */
  lemma FinStays(q: seq<Packet>, loop: Loop, intake: Intake)
    requires q != [] && !q[0].FIN? && FinOk(q, loop, intake)
    ensures FinOk(q[1..], loop, intake) && !intake.Draining?
  { }

  /** A STAT in front is the entry the receiver counts next, or the end of the walk. */
  lemma StatInFront(c: Config, s: State)
    requires ValidConfig(c) && Inv(c, s) && s.toReceiver != [] && s.toReceiver[0].STAT?
    ensures s.toReceiver[0].item.Some? ==> s.received < s.sent
    ensures s.toReceiver[0].item.Some? ==> s.toReceiver[0].item.value == ItemOf(c.src[s.received])
    ensures (s.toReceiver[0].item.Some? ==>
               StatsOk(c, s.toReceiver[1..], s.received + 1, s.sent, s.walkDone, s.walkClosed))
    ensures s.toReceiver[0].item.None? ==> s.received == |c.src| && s.walkDone && !s.walkClosed
    ensures s.toReceiver[0].item.None? ==> StatsOk(c, s.toReceiver[1..], s.received, s.sent, s.walkDone, true)
  {
    hide QueueOk, RFilesOk, SFilesOk, TasksOk, PipesOk, RequestsOk, LoopOk, PipelineOk, WorkersOk, DataOk, FinOk,
         ContentOk, AskedOk;
    var q := s.toReceiver;
    assert StatsIn(q) == [q[0].item] + StatsIn(q[1..]);
    assert StatsIn(q[1..]) == StatsIn(q)[1..];
    if s.received < s.sent {
      ItemsHead(c, s.received, s.sent);
      var rest := Somes(Items(c, s.received + 1, s.sent)) + (if s.walkDone && !s.walkClosed then [None] else []);
      assert StatsIn(q) == [Some(ItemOf(c.src[s.received]))] + rest;
      assert rest == StatsIn(q)[1..];
    } else {
      assert Items(c, s.received, s.sent) == [];
      var rest := if s.walkDone && !s.walkClosed then [None] else [];
      assert StatsIn(q) == rest;
      assert StatsIn(q)[0] == q[0].item;
      assert StatsIn(q)[1..] == [];
    }
  }

  lemma IntakeItemKeeps(c: Config, s: State)
    requires ValidConfig(c) && Inv(c, s) && Enabled(c, s, IntakeReceive)
    requires s.toReceiver[0].STAT? && s.toReceiver[0].item.Some?
    ensures Inv(c, Step(c, s, IntakeReceive))
  {
    hide StatsOk, QueueOk, RFilesOk, SFilesOk, TasksOk, PipesOk, RequestsOk, LoopOk, PipelineOk, WorkersOk, DataOk,
         FinOk, ContentOk, AskedOk, ValidConfig;
    StatInFront(c, s);
    QuietHead(c, s.toReceiver, s.lives, s.written);
    FinStays(s.toReceiver, s.loop, s.intake);
    ItemQueued(c, s);
    FileReceived(c, s.rFiles, s.lives, s.received);
    FinIgnores(s.toReceiver[1..], s.loop, s.intake, Updating(s.toReceiver[0].item.value));
  }

  lemma ItemQueued(c: Config, s: State)
    requires s.intake.Receiving? && s.received < |c.src|
    requires QueueOk(c, s.c2, s.held, s.walkChan, s.intake, |s.lives|, s.received)
    ensures QueueOk(c, s.c2, s.held, s.walkChan, Updating(ItemOf(c.src[s.received])), |s.lives|, s.received + 1)
  {
    ItemsAppend(c, |s.lives|, s.received);
  }

  lemma FinIgnores(q: seq<Packet>, loop: Loop, intake: Intake, next: Intake)
    requires FinOk(q, loop, intake) && !intake.Draining? && !next.Draining?
    ensures FinOk(q, loop, next)
  { }

  lemma FileReceived(c: Config, rFiles: map<Str, nat>, lives: seq<Life>, k: nat)
    requires ValidConfig(c) && RFilesOk(c, rFiles, lives, k) && k < |c.src|
    ensures RFilesOk(c, if c.src[k].regular then rFiles[c.src[k].path := k] else rFiles, lives, k + 1)
  { }

  lemma IntakeEndKeeps(c: Config, s: State)
    requires ValidConfig(c) && Inv(c, s) && Enabled(c, s, IntakeReceive)
    requires s.toReceiver[0].STAT? && s.toReceiver[0].item.None?
    ensures Inv(c, Step(c, s, IntakeReceive))
  {
    hide StatsOk, QueueOk, RFilesOk, SFilesOk, TasksOk, PipesOk, RequestsOk, LoopOk, PipelineOk, WorkersOk, DataOk,
         FinOk, ContentOk, AskedOk;
    StatInFront(c, s);
    QuietHead(c, s.toReceiver, s.lives, s.written);
    FinStays(s.toReceiver, s.loop, s.intake);
  }

  lemma IntakeFinKeeps(c: Config, s: State)
    requires ValidConfig(c) && Inv(c, s) && Enabled(c, s, IntakeReceive) && s.toReceiver[0].FIN?
    ensures Inv(c, Step(c, s, IntakeReceive)) && s.toReceiver == [FIN]
  {
    hide RFilesOk, SFilesOk, TasksOk, PipesOk, RequestsOk, LoopOk, PipelineOk, WorkersOk, DataOk,
         ContentOk, AskedOk;
    QuietHead(c, s.toReceiver, s.lives, s.written);
    assert FIN in s.toReceiver;
    assert StatsIn(s.toReceiver) == StatsIn(s.toReceiver[1..]);
  }

  /** Contents in front go to an open pipe: their entry's. */
  lemma DataInFront(c: Config, s: State)
    requires Inv(c, s) && s.toReceiver != [] && s.toReceiver[0].DATA?
    ensures s.toReceiver[0].id < |s.lives| <= |c.src|
    ensures (var l := s.lives[s.toReceiver[0].id]; l.EofSent? || (l.Copying? && s.toReceiver[0].bytes != []))
    ensures (s.toReceiver[0].id in s.pipes
             && s.pipes[s.toReceiver[0].id] == Pipe(c.src[s.toReceiver[0].id].path, false))
  {
    hide StatsOk, QueueOk, RFilesOk, SFilesOk, TasksOk, RequestsOk, LoopOk, PipelineOk, WorkersOk, FinOk,
         ContentOk, AskedOk;
  }

  lemma DataStep(c: Config, s: State)
    requires s.err.None? && s.intake.Receiving? && s.toReceiver != [] && s.toReceiver[0].DATA?
    requires s.toReceiver[0].bytes != [] && s.toReceiver[0].id in s.pipes && !s.pipes[s.toReceiver[0].id].closed
    ensures (var p := s.pipes[s.toReceiver[0].id].path;
             Step(c, s, IntakeReceive)
             == s.(toReceiver := s.toReceiver[1..],
                   written := s.written[p := Written(s.written, p) + s.toReceiver[0].bytes]))
  { }

  lemma IntakeDataKeeps(c: Config, s: State)
    requires ValidConfig(c) && Inv(c, s) && Enabled(c, s, IntakeReceive)
    requires s.toReceiver[0].DATA? && s.toReceiver[0].bytes != []
    ensures Inv(c, Step(c, s, IntakeReceive))
  {
    hide QueueOk, RFilesOk, SFilesOk, TasksOk, PipesOk, RequestsOk, LoopOk, PipelineOk, WorkersOk,
         ContentOk, AskedOk, StatsOk, DataOk, FinOk, ValidConfig, Step;
    DataInFront(c, s);
    FinStays(s.toReceiver, s.loop, s.intake);
    DataStep(c, s);
    DataLeavesStats(c, s);
    DataTaken(s.toReceiver, s.lives);
    WrittenGrows(c, s.written, s.toReceiver, s.lives);
  }

  lemma DataTaken(q: seq<Packet>, lives: seq<Life>)
    requires q != [] && q[0].DATA? && q[0].bytes != [] && DataOk(q, lives)
    ensures DataOk(q[1..], lives)
  {
    forall j | 0 <= j < |lives| && lives[j].EofSent? ensures DATA(j, []) in q[1..] {
      assert DATA(j, []) in q && DATA(j, []) != q[0];
    }
  }

  lemma WrittenGrows(c: Config, written: map<Str, Str>, q: seq<Packet>, lives: seq<Life>)
    requires ValidConfig(c) && q != [] && q[0].DATA? && q[0].id < |c.src| && ContentOk(c, written, q, lives)
    ensures (var p := c.src[q[0].id].path;
             ContentOk(c, written[p := Written(written, p) + q[0].bytes], q[1..], lives))
  {
    hide SentOf;
    var p := c.src[q[0].id].path;
    var w := written[p := Written(written, p) + q[0].bytes];
    forall k: nat | k < |c.src| ensures Holds(c, w, q[1..], k, SentOf(c, lives, k)) {
      assert Holds(c, written, q, k, SentOf(c, lives, k));
      if k == q[0].id {
        assert Written(written, p) + (q[0].bytes + DataIn(q[1..], k))
            == (Written(written, p) + q[0].bytes) + DataIn(q[1..], k);
      } else {
        assert c.src[k].path != p;
        assert DataIn(q, k) == DataIn(q[1..], k);
      }
    }
  }

  lemma EofStep(c: Config, s: State)
    requires s.err.None? && s.intake.Receiving? && s.toReceiver != [] && s.toReceiver[0].DATA?
    requires s.toReceiver[0].bytes == [] && s.toReceiver[0].id in s.pipes && s.toReceiver[0].id < |s.lives|
    ensures (var k := s.toReceiver[0].id;
             Step(c, s, IntakeReceive)
             == s.(toReceiver := s.toReceiver[1..], pipes := s.pipes[k := s.pipes[k].(closed := true)],
                   lives := s.lives[k := Closed]))
  { }

  lemma IntakeEofKeeps(c: Config, s: State)
    requires ValidConfig(c) && Inv(c, s) && Enabled(c, s, IntakeReceive)
    requires s.toReceiver[0].DATA? && s.toReceiver[0].bytes == []
    ensures Inv(c, Step(c, s, IntakeReceive))
  {
    hide QueueOk, RFilesOk, SFilesOk, TasksOk, RequestsOk, LoopOk, PipelineOk, WorkersOk, ContentOk, AskedOk,
         PipesOk, StatsOk, DataOk, FinOk, Step;
    DataInFront(c, s);
    FinStays(s.toReceiver, s.loop, s.intake);
    EofStep(c, s);
    var q, k := s.toReceiver, s.toReceiver[0].id;
    DataLeavesStats(c, s);
    EofTaken(q, s.lives);
    MoveKeepsMaps(c, s, k, Closed);
    MoveKeepsTasks(c, s.tasks, s.lives, k, Closed);
    MoveKeepsQueues(c, s, k, Closed);
    MoveKeepsRequests(s.toSender, s.lives, s.diff, s.loop, k, Closed);
    MoveKeepsContent(c, s.written, q, s.lives, k, Closed);
    NoBytesTaken(c, s.written, q, s.lives[k := Closed]);
    PipeCloses(c, s.pipes, s.lives, k);
  }

  lemma PipeCloses(c: Config, pipes: map<nat, Pipe>, lives: seq<Life>, k: nat)
    requires PipesOk(c, pipes, lives) && k < |lives| && HasPipe(lives[k])
    ensures k in pipes && PipesOk(c, pipes[k := pipes[k].(closed := true)], lives[k := Closed])
  { }

  lemma EofTaken(q: seq<Packet>, lives: seq<Life>)
    requires q != [] && q[0].DATA? && q[0].bytes == [] && DataOk(q, lives)
    ensures q[0].id < |lives| && DataOk(q[1..], lives[q[0].id := Closed])
  {
    var k := q[0].id;
    var t := lives[k := Closed];
    forall j | 0 <= j < |t| && t[j].EofSent? ensures DATA(j, []) in q[1..] {
      assert DATA(j, []) in q && DATA(j, []) != q[0];
    }
  }

  lemma NoBytesTaken(c: Config, written: map<Str, Str>, q: seq<Packet>, lives: seq<Life>)
    requires q != [] && q[0].DATA? && q[0].bytes == [] && ContentOk(c, written, q, lives)
    ensures ContentOk(c, written, q[1..], lives)
  {
    forall k: nat | k < |c.src| ensures Holds(c, written, q[1..], k, SentOf(c, lives, k)) {
      assert Holds(c, written, q, k, SentOf(c, lives, k));
      assert DataIn(q, k) == DataIn(q[1..], k);
    }
  }

  // ---------------------------------------------------------------- from the walker to the diff

  lemma IntakePushKeeps(c: Config, s: State)
    requires ValidConfig(c) && Inv(c, s) && Enabled(c, s, IntakePush)
    ensures Inv(c, Step(c, s, IntakePush))
  {
    hide StatsOk, QueueOk, RFilesOk, SFilesOk, TasksOk, PipesOk, RequestsOk, LoopOk, PipelineOk, WorkersOk, DataOk,
         FinOk, ContentOk, AskedOk;
    ItemMoves(c, s);
    FinIgnores(s.toReceiver, s.loop, s.intake, Receiving);
  }

  /** The queue of entries reads the same at every hand-over. */
  lemma ItemMoves(c: Config, s: State)
    requires QueueOk(c, s.c2, s.held, s.walkChan, s.intake, |s.lives|, s.received)
    ensures (s.intake.Updating? ==>
               QueueOk(c, s.c2, s.held, s.walkChan + [s.intake.item], Receiving, |s.lives|, s.received))
    ensures (s.held.None? && s.walkChan != [] ==>
               QueueOk(c, s.c2, Some(s.walkChan[0]), s.walkChan[1..], s.intake, |s.lives|, s.received))
    ensures (s.held.Some? ==>
               QueueOk(c, s.c2 + [s.held.value], None, s.walkChan, s.intake, |s.lives|, s.received))
  {
    if s.intake.Updating? {
      assert s.c2 + Hold(s.held) + (s.walkChan + [s.intake.item]) + []
          == s.c2 + Hold(s.held) + s.walkChan + [s.intake.item];
    }
    if s.held.None? && s.walkChan != [] {
      assert s.c2 + [s.walkChan[0]] + s.walkChan[1..] == s.c2 + [] + s.walkChan;
    }
    if s.held.Some? {
      assert (s.c2 + [s.held.value]) + [] + s.walkChan == s.c2 + [s.held.value] + s.walkChan;
    }
  }

  lemma FillKeeps(c: Config, s: State, a: Action)
    requires ValidConfig(c) && Inv(c, s) && Enabled(c, s, a) && (a.FillTake? || a.FillPut? || a.FillClose?)
    ensures Inv(c, Step(c, s, a))
  {
    hide StatsOk, QueueOk, RFilesOk, SFilesOk, TasksOk, PipesOk, RequestsOk, LoopOk, PipelineOk, WorkersOk, DataOk,
         FinOk, ContentOk, AskedOk;
    ItemMoves(c, s);
  }

  // ---------------------------------------------------------------- the diff

  /** The diff takes the entries in the order of the source. */
  lemma NextEntry(c: Config, s: State)
    requires QueueOk(c, s.c2, s.held, s.walkChan, s.intake, |s.lives|, s.received) && s.c2 != []
    ensures |s.lives| < s.received <= |c.src| && s.c2[0] == ItemOf(c.src[|s.lives|])
    ensures QueueOk(c, s.c2[1..], s.held, s.walkChan, s.intake, |s.lives| + 1, s.received)
  {
    var rest := s.c2[1..] + Hold(s.held) + s.walkChan + Upd(s.intake);
    var all := Items(c, |s.lives|, s.received);
    assert all == [s.c2[0]] + rest;
    assert |all| >= 1;
    ItemsHead(c, |s.lives|, s.received);
    assert rest == all[1..];
  }

  lemma DiffTakeKeeps(c: Config, s: State, request: bool)
    requires ValidConfig(c) && Inv(c, s) && Enabled(c, s, DiffTake(request))
    ensures Inv(c, Step(c, s, DiffTake(request)))
  {
    hide StatsOk, QueueOk, RFilesOk, SFilesOk, TasksOk, PipesOk, RequestsOk, LoopOk, PipelineOk, WorkersOk, DataOk,
         FinOk, ContentOk, AskedOk, ValidConfig;
    NextEntry(c, s);
    var l := if request then Spawned else Skipped;
    AppendKeeps(c, s, l);
    AppendKeepsQueues(c, s, l);
    AppendKeepsContent(c, s.written, s.toReceiver, s.lives, l);
    TaskStarts(c, s.tasks, s.lives, request);
  }

  lemma AppendKeepsQueues(c: Config, s: State, l: Life)
    requires Unpiped(l) && s.diff.Merging? && |s.lives| < |c.src|
    ensures LoopOk(c, s.loop, s.lives) ==> LoopOk(c, s.loop, s.lives + [l])
    ensures PipelineOk(c, s.pipeline, s.lives) ==> PipelineOk(c, s.pipeline, s.lives + [l])
    ensures WorkersOk(c, s.workers, s.lives, s.loop) ==> WorkersOk(c, s.workers, s.lives + [l], s.loop)
    ensures DataOk(s.toReceiver, s.lives) ==> DataOk(s.toReceiver, s.lives + [l])
    ensures (RequestsOk(s.toSender, s.lives, s.diff, s.loop)
             ==> RequestsOk(s.toSender, s.lives + [l], s.diff, s.loop))
  { }

  lemma AppendKeepsContent(c: Config, written: map<Str, Str>, q: seq<Packet>, lives: seq<Life>, l: Life)
    requires ContentOk(c, written, q, lives) && Unpiped(l) && |lives| < |c.src|
    ensures ContentOk(c, written, q, lives + [l])
  {
    forall k: nat | k < |c.src| ensures Holds(c, written, q, k, SentOf(c, lives + [l], k)) {
      assert Holds(c, written, q, k, SentOf(c, lives, k));
    }
  }

  lemma TaskStarts(c: Config, tasks: map<Str, Task>, lives: seq<Life>, request: bool)
    requires ValidConfig(c) && TasksOk(c, tasks, lives) && |lives| < |c.src| && (request ==> c.src[|lives|].regular)
    ensures TasksOk(c, if request then tasks[c.src[|lives|].path := Started] else tasks,
                    lives + [if request then Spawned else Skipped])
  {
    var t := if request then tasks[c.src[|lives|].path := Started] else tasks;
    forall p | p in t ensures exists k :: 0 <= k < |lives| + 1 && c.src[k].path == p {
      assert p in tasks || p == c.src[|lives|].path;
    }
  }

  lemma DiffEndKeeps(c: Config, s: State)
    requires ValidConfig(c) && Inv(c, s) && Enabled(c, s, DiffEnd)
    ensures Inv(c, Step(c, s, DiffEnd))
  {
    hide StatsOk, QueueOk, RFilesOk, SFilesOk, TasksOk, PipesOk, RequestsOk, LoopOk, PipelineOk, WorkersOk, DataOk,
         FinOk, ContentOk, AskedOk;
    DiffWaits(s.toSender, s.lives, s.loop);
  }

  lemma DiffWaits(q: seq<Packet>, lives: seq<Life>, loop: Loop)
    ensures RequestsOk(q, lives, Merging, loop) ==> RequestsOk(q, lives, Waiting, loop)
  { }

  lemma DiffFinKeeps(c: Config, s: State)
    requires ValidConfig(c) && Inv(c, s) && Enabled(c, s, DiffFin)
    ensures Inv(c, Step(c, s, DiffFin)) && s.toSender == []
  {
    hide StatsOk, QueueOk, RFilesOk, SFilesOk, TasksOk, PipesOk, RequestsOk, LoopOk, PipelineOk, WorkersOk, DataOk,
         FinOk, ContentOk, AskedOk;
    AllSettled(c, s.tasks, s.lives);
    RequestsAnswered(s.toSender, s.lives, s.loop);
  }

  lemma AllSettled(c: Config, tasks: map<Str, Task>, lives: seq<Life>)
    requires TasksOk(c, tasks, lives) && forall p :: p in tasks ==> tasks[p].Done?
    ensures forall k :: 0 <= k < |lives| ==> Settled(lives[k])
  {
    forall k | 0 <= k < |lives| ensures Settled(lives[k]) {
      if !lives[k].Skipped? { assert tasks[c.src[k].path] == TaskOf(k, lives[k]); }
    }
  }

  lemma RequestInFront(q: seq<Packet>, lives: seq<Life>, loop: Loop)
    requires q != [] && RequestsOk(q, lives, Waiting, loop)
    ensures q[0].REQ? && q[0].id < |lives| && !Settled(lives[q[0].id])
  { }

  lemma RequestsAnswered(q: seq<Packet>, lives: seq<Life>, loop: Loop)
    requires RequestsOk(q, lives, Waiting, loop) && forall k :: 0 <= k < |lives| ==> Settled(lives[k])
    ensures q == [] && RequestsOk(q + [FIN], lives, Finished, loop)
  {
    if q != [] {
      RequestInFront(q, lives, loop);
      assert false;
    }
    assert (q + [FIN])[0] == FIN;
  }

  // ---------------------------------------------------------------- the asynchronous writers

  /** The entry behind a writer. */
  lemma EntryOf(c: Config, s: State, p: Str) returns (k: nat)
    requires TasksOk(c, s.tasks, s.lives) && p in s.tasks
    ensures k < |s.lives| <= |c.src| && c.src[k].path == p && !s.lives[k].Skipped? && c.src[k].regular
    ensures s.tasks[p] == TaskOf(k, s.lives[k])
  {
    k :| k < |s.lives| && c.src[k].path == p;
  }

  lemma TaskMoves(c: Config, tasks: map<Str, Task>, lives: seq<Life>, k: nat, l: Life)
    requires ValidConfig(c) && TasksOk(c, tasks, lives) && k < |lives| && !lives[k].Skipped? && !l.Skipped?
    ensures TasksOk(c, tasks[c.src[k].path := TaskOf(k, l)], lives[k := l])
  {
    assert c.src[k].path in tasks;
  }

  lemma TaskRegisterKeeps(c: Config, s: State, p: Str)
    requires ValidConfig(c) && Inv(c, s) && Enabled(c, s, TaskRegister(p))
    ensures Inv(c, Step(c, s, TaskRegister(p)))
  {
    hide StatsOk, QueueOk, RFilesOk, SFilesOk, TasksOk, PipesOk, RequestsOk, LoopOk, PipelineOk, WorkersOk, DataOk,
         FinOk, ContentOk, AskedOk, ValidConfig;
    var k := EntryOf(c, s, p);
    FileTaken(c, s.rFiles, s.lives, s.received, k);
    MoveKeepsMaps(c, s, k, Piped);
    TaskMoves(c, s.tasks, s.lives, k, Piped);
    MoveKeepsQueues(c, s, k, Piped);
    MoveKeepsRequests(s.toSender, s.lives, s.diff, s.loop, k, Piped);
    MoveKeepsContent(c, s.written, s.toReceiver, s.lives, k, Piped);
    PipeOpens(c, s.pipes, s.lives, k);
  }

  lemma FileTaken(c: Config, rFiles: map<Str, nat>, lives: seq<Life>, received: nat, k: nat)
    requires ValidConfig(c) && RFilesOk(c, rFiles, lives, received) && k < |lives| && lives[k].Spawned? && c.src[k].regular
    ensures c.src[k].path in rFiles && rFiles[c.src[k].path] == k
    ensures RFilesOk(c, rFiles - {c.src[k].path}, lives[k := Piped], received)
  { }

  lemma PipeOpens(c: Config, pipes: map<nat, Pipe>, lives: seq<Life>, k: nat)
    requires PipesOk(c, pipes, lives) && k < |lives|
    ensures PipesOk(c, pipes[k := Pipe(c.src[k].path, false)], lives[k := Piped])
  { }

  lemma TaskRequestKeeps(c: Config, s: State, p: Str)
    requires ValidConfig(c) && Inv(c, s) && Enabled(c, s, TaskRequest(p))
    ensures Inv(c, Step(c, s, TaskRequest(p)))
  {
    hide StatsOk, QueueOk, RFilesOk, SFilesOk, TasksOk, PipesOk, RequestsOk, LoopOk, PipelineOk, WorkersOk, DataOk,
         FinOk, ContentOk, AskedOk, ValidConfig;
    var k := EntryOf(c, s, p);
    MoveKeepsMaps(c, s, k, ReqSent);
    TaskMoves(c, s.tasks, s.lives, k, ReqSent);
    MoveKeepsQueues(c, s, k, ReqSent);
    MoveKeepsContent(c, s.written, s.toReceiver, s.lives, k, ReqSent);
    RequestSent(s.toSender, s.lives, s.diff, s.loop, k);
    AskedOnce(s.asked, s.lives, k);
  }

  lemma RequestSent(q: seq<Packet>, lives: seq<Life>, diff: Diff, loop: Loop, k: nat)
    requires RequestsOk(q, lives, diff, loop) && k < |lives| && lives[k].Piped?
    ensures RequestsOk(q + [REQ(k)], lives[k := ReqSent], diff, loop)
  {
    var r, t := q + [REQ(k)], lives[k := ReqSent];
    assert !diff.Finished? && FIN !in q;
    assert r[|q|] == REQ(k);
    forall j | 0 <= j < |t| && t[j].ReqSent? ensures REQ(j) in r {
      assert j == k || REQ(j) in q;
    }
  }

  lemma AskedOnce(asked: seq<nat>, lives: seq<Life>, k: nat)
    requires AskedOk(asked, lives) && k < |lives| && lives[k].Piped?
    ensures AskedOk(asked + [k], lives[k := ReqSent])
  {
    assert k !in asked;
  }

  lemma TaskFinishKeeps(c: Config, s: State, p: Str)
    requires ValidConfig(c) && Inv(c, s) && Enabled(c, s, TaskFinish(p))
    ensures Inv(c, Step(c, s, TaskFinish(p)))
  {
    hide StatsOk, QueueOk, RFilesOk, SFilesOk, TasksOk, PipesOk, RequestsOk, LoopOk, PipelineOk, WorkersOk, DataOk,
         FinOk, ContentOk, AskedOk, ValidConfig;
    var k := EntryOf(c, s, p);
    PipeEnds(c, s.pipes, s.lives, k);
    MoveKeepsMaps(c, s, k, Complete);
    TaskMoves(c, s.tasks, s.lives, k, Complete);
    MoveKeepsQueues(c, s, k, Complete);
    MoveKeepsRequests(s.toSender, s.lives, s.diff, s.loop, k, Complete);
    MoveKeepsContent(c, s.written, s.toReceiver, s.lives, k, Complete);
  }

  lemma PipeEnds(c: Config, pipes: map<nat, Pipe>, lives: seq<Life>, k: nat)
    requires PipesOk(c, pipes, lives) && k in pipes && pipes[k].closed
    ensures k < |lives| && lives[k].Closed? && PipesOk(c, pipes - {k}, lives[k := Complete])
  { }

  // ---------------------------------------------------------------- every step

  /** Whatever a goroutine does next, the invariant holds again; so no run meets a protocol error. */
  lemma StepKeeps(c: Config, s: State, a: Action)
    requires ValidConfig(c) && Inv(c, s) && Enabled(c, s, a)
    ensures Inv(c, Step(c, s, a))
  {
    hide Inv, Step, ValidConfig;
    match a
    case WalkRegister => WalkRegisterKeeps(c, s);
    case WalkSend => WalkSendKeeps(c, s);
    case WalkEnd => WalkEndKeeps(c, s);
    case LoopReceive =>
      if s.toSender[0].REQ? { LoopReceiveRequestKeeps(c, s); } else { LoopReceiveFinKeeps(c, s); }
    case LoopQueue => LoopQueueKeeps(c, s);
    case LoopReply => LoopReplyKeeps(c, s);
    case WorkerTake(w) => WorkerTakeKeeps(c, s, w);
    case WorkerChunk(w, n) => WorkerChunkKeeps(c, s, w, n);
    case WorkerEof(w) => WorkerEofKeeps(c, s, w);
    case WorkerExit(w) => WorkerExitKeeps(c, s, w);
    case IntakeReceive => IntakeReceiveKeeps(c, s);
    case IntakePush => IntakePushKeeps(c, s);
    case FillTake => FillKeeps(c, s, a);
    case FillPut => FillKeeps(c, s, a);
    case FillClose => FillKeeps(c, s, a);
    case DiffTake(request) => DiffTakeKeeps(c, s, request);
    case DiffEnd => DiffEndKeeps(c, s);
    case DiffFin => DiffFinKeeps(c, s);
    case TaskRegister(p) => TaskRegisterKeeps(c, s, p);
    case TaskRequest(p) => TaskRequestKeeps(c, s, p);
    case TaskFinish(p) => TaskFinishKeeps(c, s, p);
  }

  lemma IntakeReceiveKeeps(c: Config, s: State)
    requires ValidConfig(c) && Inv(c, s) && Enabled(c, s, IntakeReceive)
    ensures Inv(c, Step(c, s, IntakeReceive))
  {
    hide Step, ValidConfig, Inv;
    var p := s.toReceiver[0];
    if p.STAT? && p.item.Some? {
      IntakeItemKeeps(c, s);
    } else if p.STAT? {
      IntakeEndKeeps(c, s);
    } else if p.DATA? && p.bytes == [] {
      IntakeEofKeeps(c, s);
    } else if p.DATA? {
      IntakeDataKeeps(c, s);
    } else {
      NoRequestIn(c, s);
      IntakeFinKeeps(c, s);
    }
  }

  lemma NoRequestIn(c: Config, s: State)
    requires Inv(c, s) && s.toReceiver != []
    ensures !s.toReceiver[0].REQ?
  {
    hide StatsOk, QueueOk, RFilesOk, SFilesOk, TasksOk, PipesOk, RequestsOk, LoopOk, PipelineOk, WorkersOk, DataOk,
         ContentOk, AskedOk;
  }
}
