/** The inductive invariant of the transfer protocol: one stage of life per entry, and what
    every map, queue, worker and packet in flight says about it. */
module TransferInvariant {
  import opened Bytes
  import opened Transfer

  // ---------------------------------------------------------------- stages

  /** The entry's request has not been named to a pipe yet. */
  predicate Unpiped(l: Life) { l.Skipped? || l.Spawned? }

  /** The sender still holds the id. */
  predicate Unclaimed(l: Life) { l.Skipped? || l.Spawned? || l.Piped? || l.ReqSent? }

  predicate HasPipe(l: Life)
  {
    l.Piped? || l.ReqSent? || l.InLoop? || l.InPipeline? || l.Copying? || l.EofSent? || l.Closed?
  }

  predicate WasAsked(l: Life) { !Unpiped(l) && !l.Piped? }

  predicate Settled(l: Life) { l.Skipped? || l.Complete? }

  /** How many content bytes have left the sender. */
  function Offset(l: Life, size: nat): nat
  {
    if l.Copying? then l.offset else if l.EofSent? || l.Closed? || l.Complete? then size else 0
  }

  function TaskOf(k: nat, l: Life): Task
  {
    if l.Spawned? then Started
    else if l.Piped? then Registered(k)
    else if l.Complete? then Done
    else Requested(k)
  }

  // ---------------------------------------------------------------- streams

  function StatsIn(q: seq<Packet>): seq<Option<Item>>
  {
    if q == [] then [] else (if q[0].STAT? then [q[0].item] else []) + StatsIn(q[1..])
  }

  /** What a packet carries for entry k. */
  function Piece(p: Packet, k: nat): Str { if p.DATA? && p.id == k then p.bytes else [] }

  /** The bytes for entry k in flight. */
  function DataIn(q: seq<Packet>, k: nat): Str
  {
    if q == [] then [] else Piece(q[0], k) + DataIn(q[1..], k)
  }

  lemma {:induction false} StatsInAppend(q: seq<Packet>, p: Packet)
    ensures StatsIn(q + [p]) == StatsIn(q) + (if p.STAT? then [p.item] else [])
  {
    if q == [] {
      assert q + [p] == [p];
    } else {
      StatsInAppend(q[1..], p);
      assert (q + [p])[1..] == q[1..] + [p];
    }
  }

  lemma {:induction false} DataInAppend(q: seq<Packet>, p: Packet, k: nat)
    ensures DataIn(q + [p], k) == DataIn(q, k) + Piece(p, k)
  {
    hide Piece;
    if q == [] {
      assert q + [p] == [p];
      assert DataIn([p], k) == Piece(p, k) + DataIn([p][1..], k);
    } else {
      DataInAppend(q[1..], p, k);
      assert (q + [p])[1..] == q[1..] + [p];
      assert Piece(q[0], k) + (DataIn(q[1..], k) + Piece(p, k)) == Piece(q[0], k) + DataIn(q[1..], k) + Piece(p, k);
    }
  }

  /** Entries lo, ..., hi - 1 of the source, as the receiver sees them. */
  function Items(c: Config, lo: nat, hi: nat): seq<Item>
    requires lo <= hi <= |c.src|
  {
    seq(hi - lo, i requires 0 <= i < hi - lo => ItemOf(c.src[lo + i]))
  }

  function Somes(items: seq<Item>): seq<Option<Item>> { seq(|items|, i requires 0 <= i < |items| => Some(items[i])) }

  // ---------------------------------------------------------------- invariant

  ghost predicate CountersOk(c: Config, s: State)
  {
    && |s.lives| <= s.received <= s.sent <= s.walked <= |c.src| && s.walked <= s.sent + 1
    && (s.walkDone ==> s.sent == |c.src|)
    && (s.walkClosed ==> s.walkDone && s.received == |c.src| && !s.intake.Updating?)
    && (s.c2Closed ==> s.walkClosed && s.walkChan == [] && s.held.None?)
    && (!s.diff.Merging? ==> s.c2Closed && s.c2 == [])
    && |s.walkChan| <= WALK_CAP && |s.c2| <= WALK_CAP && |s.pipeline| <= PIPELINE_CAP && |s.workers| == WORKERS
    && |s.toReceiver| <= c.dataCap && |s.toSender| <= c.requestCap
  }

  /** The STATs in flight are the source entries between the two counters, then the end mark. */
  ghost predicate StatsOk(c: Config, q: seq<Packet>, received: nat, sent: nat, walkDone: bool, walkClosed: bool)
  {
    received <= sent <= |c.src| &&
    StatsIn(q) == Somes(Items(c, received, sent)) + (if walkDone && !walkClosed then [None] else [])
  }

  function Upd(intake: Intake): seq<Item> { if intake.Updating? then [intake.item] else [] }

  function Hold(held: Option<Item>): seq<Item> { if held.Some? then [held.value] else [] }

  /** Between the receive loop and the diff the entries stand in order, none lost or repeated. */
  ghost predicate QueueOk(c: Config, c2: seq<Item>, held: Option<Item>, walkChan: seq<Item>, intake: Intake,
                          taken: nat, received: nat)
  {
    taken <= received <= |c.src| &&
    c2 + Hold(held) + walkChan + Upd(intake) == Items(c, taken, received)
  }

  /** The receiver's file map: exactly the received, regular entries not yet given to a pipe. */
  ghost predicate RFilesOk(c: Config, rFiles: map<Str, nat>, lives: seq<Life>, received: nat)
  {
    && |lives| <= received <= |c.src|
    && (forall k :: 0 <= k < |c.src| ==>
          (c.src[k].path in rFiles <==>
             k < received && c.src[k].regular && (k >= |lives| || Unpiped(lives[k]))))
    && (forall k :: 0 <= k < |c.src| && c.src[k].path in rFiles ==> rFiles[c.src[k].path] == k)
  }

  /** The sender's file map: exactly the walked, regular entries not yet asked for. */
  ghost predicate SFilesOk(c: Config, sFiles: map<nat, Str>, lives: seq<Life>, walked: nat)
  {
    && |lives| <= walked <= |c.src|
    && (forall k: nat :: k in sFiles <==> k < walked && c.src[k].regular && (k >= |lives| || Unclaimed(lives[k])))
    && (forall k: nat :: k in sFiles ==> sFiles[k] == c.src[k].path)
  }

  ghost predicate TasksOk(c: Config, tasks: map<Str, Task>, lives: seq<Life>)
  {
    && |lives| <= |c.src|
    && (forall k :: 0 <= k < |c.src| ==>
          (c.src[k].path in tasks <==> k < |lives| && !lives[k].Skipped?))
    && (forall k :: 0 <= k < |lives| && !lives[k].Skipped? ==>
          c.src[k].regular && tasks[c.src[k].path] == TaskOf(k, lives[k]))
    && (forall p :: p in tasks ==> exists k :: 0 <= k < |lives| && c.src[k].path == p)
  }

  ghost predicate PipesOk(c: Config, pipes: map<nat, Pipe>, lives: seq<Life>)
  {
    && |lives| <= |c.src|
    && (forall k: nat :: k in pipes <==> k < |lives| && HasPipe(lives[k]))
    && (forall k: nat :: k in pipes ==> pipes[k] == Pipe(c.src[k].path, lives[k].Closed?))
  }

  /** Requests in flight are distinct, for entries in that stage; FIN comes after all of them. */
  ghost predicate RequestsOk(q: seq<Packet>, lives: seq<Life>, diff: Diff, loop: Loop)
  {
    && (forall i :: 0 <= i < |q| ==>
          (q[i].REQ? && q[i].id < |lives| && lives[q[i].id].ReqSent?) || (q[i].FIN? && i == |q| - 1 && diff.Finished?))
    && (forall i, j :: 0 <= i < j < |q| ==> q[i] != q[j])
    && (forall k :: 0 <= k < |lives| && lives[k].ReqSent? ==> REQ(k) in q)
    && (diff.Finished? <==> FIN in q || loop.Replying? || loop.Returned?)
    && (loop.Replying? || loop.Returned? ==> q == [])
    && (diff.Finished? ==> forall k :: 0 <= k < |lives| ==> Settled(lives[k]))
  }

  ghost predicate LoopOk(c: Config, loop: Loop, lives: seq<Life>)
  {
    && |lives| <= |c.src|
    && (loop.Queueing? ==> loop.id < |lives| && lives[loop.id].InLoop? && loop.path == c.src[loop.id].path)
    && (forall k :: 0 <= k < |lives| && lives[k].InLoop? ==> loop == Queueing(k, c.src[k].path))
  }

  ghost predicate PipelineOk(c: Config, pipeline: seq<(nat, Str)>, lives: seq<Life>)
  {
    && |lives| <= |c.src|
    && (forall i :: 0 <= i < |pipeline| ==>
          pipeline[i].0 < |lives| && lives[pipeline[i].0].InPipeline? && pipeline[i].1 == c.src[pipeline[i].0].path)
    && (forall i, j :: 0 <= i < j < |pipeline| ==> pipeline[i].0 != pipeline[j].0)
    && (forall k :: 0 <= k < |lives| && lives[k].InPipeline? ==> (k, c.src[k].path) in pipeline)
  }

  ghost predicate WorkersOk(c: Config, workers: seq<Worker>, lives: seq<Life>, loop: Loop)
  {
    && |lives| <= |c.src|
    && (forall w :: 0 <= w < |workers| && workers[w].Sending? ==>
          var o := workers[w];
          o.id < |lives| && lives[o.id] == Copying(w, o.offset) && o.path == c.src[o.id].path
          && o.offset <= |c.src[o.id].content|)
    && (forall k :: 0 <= k < |lives| && lives[k].Copying? ==>
          lives[k].worker < |workers| && workers[lives[k].worker] == Sending(k, c.src[k].path, lives[k].offset))
    && (forall w :: 0 <= w < |workers| && workers[w].Exited? ==> loop.Returned?)
  }

  /** Contents in flight belong to open pipes; the empty DATA of an entry is its last. */
  ghost predicate DataOk(q: seq<Packet>, lives: seq<Life>)
  {
    && (forall i :: 0 <= i < |q| && q[i].DATA? ==>
          q[i].id < |lives| && (lives[q[i].id].EofSent? || (lives[q[i].id].Copying? && q[i].bytes != [])))
    && (forall i, j :: 0 <= i < j < |q| && q[i].DATA? && q[i].bytes == [] && q[j].DATA? ==> q[i].id != q[j].id)
    && (forall k :: 0 <= k < |lives| && lives[k].EofSent? ==> DATA(k, []) in q)
  }

  /** FIN comes last, and nothing but FIN is in flight once the sender has returned. */
  ghost predicate FinOk(q: seq<Packet>, loop: Loop, intake: Intake)
  {
    && (forall i :: 0 <= i < |q| ==> !q[i].REQ?)
    && (FIN in q ==> loop.Returned? && q == [FIN] && !intake.Draining?)
    && (intake.Draining? ==> q == [] && loop.Returned?)
    && (loop.Returned? ==> intake.Draining? || q == [FIN])
  }

  ghost predicate ContentOk(c: Config, written: map<Str, Str>, q: seq<Packet>, lives: seq<Life>)
  {
    && |lives| <= |c.src|
    && (forall k :: 0 <= k < |c.src| ==>
          Holds(c, written, q, k, SentOf(c, lives, k)))
  }

  /** How many content bytes of entry k have left the sender. */
  function SentOf(c: Config, lives: seq<Life>, k: nat): nat
    requires k < |c.src|
  {
    if k < |lives| then Offset(lives[k], |c.src[k].content|) else 0
  }

  /** What has been written for entry k, and what is in flight, make up the first n bytes. */
  ghost predicate Holds(c: Config, written: map<Str, Str>, q: seq<Packet>, k: nat, n: nat)
    requires k < |c.src|
  {
    n <= |c.src[k].content| && Written(written, c.src[k].path) + DataIn(q, k) == c.src[k].content[..n]
  }

  ghost predicate AskedOk(asked: seq<nat>, lives: seq<Life>)
  {
    && (forall i, j :: 0 <= i < j < |asked| ==> asked[i] != asked[j])
    && (forall k: nat :: k in asked <==> k < |lives| && WasAsked(lives[k]))
  }

  ghost predicate Inv(c: Config, s: State)
  {
    && s.err.None? && CountersOk(c, s)
    && StatsOk(c, s.toReceiver, s.received, s.sent, s.walkDone, s.walkClosed)
    && QueueOk(c, s.c2, s.held, s.walkChan, s.intake, |s.lives|, s.received)
    && RFilesOk(c, s.rFiles, s.lives, s.received) && SFilesOk(c, s.sFiles, s.lives, s.walked)
    && TasksOk(c, s.tasks, s.lives) && PipesOk(c, s.pipes, s.lives)
    && RequestsOk(s.toSender, s.lives, s.diff, s.loop)
    && LoopOk(c, s.loop, s.lives) && PipelineOk(c, s.pipeline, s.lives) && WorkersOk(c, s.workers, s.lives, s.loop)
    && DataOk(s.toReceiver, s.lives) && FinOk(s.toReceiver, s.loop, s.intake)
    && ContentOk(c, s.written, s.toReceiver, s.lives) && AskedOk(s.asked, s.lives)
  }

  lemma InitMaps(c: Config)
    ensures RFilesOk(c, map[], [], 0) && SFilesOk(c, map[], [], 0)
    ensures TasksOk(c, map[], []) && PipesOk(c, map[], []) && AskedOk([], [])
  { }

  lemma InitContent(c: Config)
    ensures ContentOk(c, map[], [], [])
  {
    forall k: nat | k < |c.src| ensures Holds(c, map[], [], k, 0) { }
  }

  lemma InitQueues(c: Config)
    ensures StatsOk(c, [], 0, 0, false, false) && QueueOk(c, [], None, [], Receiving, 0, 0)
    ensures RequestsOk([], [], Merging, Reading) && DataOk([], []) && FinOk([], Reading, Receiving)
  { }

  lemma InitInv(c: Config)
    requires ValidConfig(c)
    ensures Inv(c, Init())
  {
    hide RFilesOk, SFilesOk, TasksOk, PipesOk, AskedOk, ContentOk, StatsOk, QueueOk, DataOk, FinOk, RequestsOk;
    InitMaps(c);
    InitContent(c);
    InitQueues(c);
  }

  // ---------------------------------------------------------------- an entry moves to its next stage

  /** Moving entry k from one stage to another keeps whatever does not tell the two stages apart. */
  lemma MoveKeepsMaps(c: Config, s: State, k: nat, l: Life)
    requires k < |s.lives|
    ensures (Unpiped(s.lives[k]) == Unpiped(l) && RFilesOk(c, s.rFiles, s.lives, s.received)
             ==> RFilesOk(c, s.rFiles, s.lives[k := l], s.received))
    ensures (Unclaimed(s.lives[k]) == Unclaimed(l) && SFilesOk(c, s.sFiles, s.lives, s.walked)
             ==> SFilesOk(c, s.sFiles, s.lives[k := l], s.walked))
    ensures (HasPipe(s.lives[k]) == HasPipe(l) && s.lives[k].Closed? == l.Closed? && PipesOk(c, s.pipes, s.lives)
             ==> PipesOk(c, s.pipes, s.lives[k := l]))
    ensures (WasAsked(s.lives[k]) == WasAsked(l) && AskedOk(s.asked, s.lives)
             ==> AskedOk(s.asked, s.lives[k := l]))
  { }

  lemma MoveKeepsTasks(c: Config, tasks: map<Str, Task>, lives: seq<Life>, k: nat, l: Life)
    requires k < |lives| && TasksOk(c, tasks, lives)
    requires lives[k].Skipped? == l.Skipped? && TaskOf(k, lives[k]) == TaskOf(k, l)
    ensures TasksOk(c, tasks, lives[k := l])
  { }

  lemma MoveKeepsContent(c: Config, written: map<Str, Str>, q: seq<Packet>, lives: seq<Life>, k: nat, l: Life)
    requires k < |lives| && ContentOk(c, written, q, lives)
    requires forall size: nat :: Offset(lives[k], size) == Offset(l, size)
    ensures ContentOk(c, written, q, lives[k := l])
  {
    var t := lives[k := l];
    forall j: nat | j < |c.src|
      ensures Holds(c, written, q, j, SentOf(c, t, j))
    {
      assert Holds(c, written, q, j, SentOf(c, lives, j));
      var size := |c.src[j].content|;
      assert Offset(lives[k], size) == Offset(l, size);
    }
  }

  lemma MoveKeepsQueues(c: Config, s: State, k: nat, l: Life)
    requires k < |s.lives|
    ensures (!s.lives[k].InLoop? && !l.InLoop? && LoopOk(c, s.loop, s.lives)
             ==> LoopOk(c, s.loop, s.lives[k := l]))
    ensures (!s.lives[k].InPipeline? && !l.InPipeline? && PipelineOk(c, s.pipeline, s.lives)
             ==> PipelineOk(c, s.pipeline, s.lives[k := l]))
    ensures (!s.lives[k].Copying? && !l.Copying? && WorkersOk(c, s.workers, s.lives, s.loop)
             ==> WorkersOk(c, s.workers, s.lives[k := l], s.loop))
    ensures (!s.lives[k].EofSent? && !s.lives[k].Copying? && !l.EofSent? && DataOk(s.toReceiver, s.lives)
             ==> DataOk(s.toReceiver, s.lives[k := l]))
  { }

  lemma MoveKeepsRequests(q: seq<Packet>, lives: seq<Life>, diff: Diff, loop: Loop, k: nat, l: Life)
    requires k < |lives| && RequestsOk(q, lives, diff, loop)
    requires !Settled(lives[k]) && !lives[k].ReqSent? && !l.ReqSent?
    ensures RequestsOk(q, lives[k := l], diff, loop) && !diff.Finished? && !loop.Replying? && !loop.Returned?
  { }

  /** The diff takes the next entry. */
  lemma AppendKeeps(c: Config, s: State, l: Life)
    requires Unpiped(l)
    ensures RFilesOk(c, s.rFiles, s.lives, s.received) && |s.lives| < s.received ==> RFilesOk(c, s.rFiles, s.lives + [l], s.received)
    ensures SFilesOk(c, s.sFiles, s.lives, s.walked) && |s.lives| < s.walked ==> SFilesOk(c, s.sFiles, s.lives + [l], s.walked)
    ensures PipesOk(c, s.pipes, s.lives) && |s.lives| < |c.src| ==> PipesOk(c, s.pipes, s.lives + [l])
    ensures AskedOk(s.asked, s.lives) ==> AskedOk(s.asked, s.lives + [l])
  { }

  // ---------------------------------------------------------------- streams

  /** Appending a packet that is no DATA. */
  lemma QuietAppend(c: Config, q: seq<Packet>, p: Packet, lives: seq<Life>, written: map<Str, Str>)
    requires !p.DATA? && DataOk(q, lives) && ContentOk(c, written, q, lives)
    ensures DataOk(q + [p], lives) && ContentOk(c, written, q + [p], lives)
  {
    forall k: nat | k < |c.src|
      ensures Holds(c, written, q + [p], k, SentOf(c, lives, k))
    {
      assert Holds(c, written, q, k, SentOf(c, lives, k));
      DataInAppend(q, p, k);
    }
  }

  /** Taking a packet that is no DATA. */
  lemma QuietHead(c: Config, q: seq<Packet>, lives: seq<Life>, written: map<Str, Str>)
    requires q != [] && !q[0].DATA? && DataOk(q, lives) && ContentOk(c, written, q, lives)
    ensures DataOk(q[1..], lives) && ContentOk(c, written, q[1..], lives)
  {
    forall k: nat | k < |c.src|
      ensures Holds(c, written, q[1..], k, SentOf(c, lives, k))
    {
      assert Holds(c, written, q, k, SentOf(c, lives, k));
      assert DataIn(q, k) == DataIn(q[1..], k);
    }
  }

  lemma ItemsAppend(c: Config, lo: nat, hi: nat)
    requires lo <= hi < |c.src|
    ensures Items(c, lo, hi + 1) == Items(c, lo, hi) + [ItemOf(c.src[hi])]
    ensures Somes(Items(c, lo, hi + 1)) == Somes(Items(c, lo, hi)) + [Some(ItemOf(c.src[hi]))]
  { }

  lemma ItemsHead(c: Config, lo: nat, hi: nat)
    requires lo < hi <= |c.src|
    ensures Items(c, lo, hi) == [ItemOf(c.src[lo])] + Items(c, lo + 1, hi)
    ensures Somes(Items(c, lo, hi)) == [Some(ItemOf(c.src[lo]))] + Somes(Items(c, lo + 1, hi))
  { }

  /** Distinct paths make Open find the entry's own content. */
  lemma {:induction false} ContentAt(src: seq<File>, k: nat)
    requires k < |src| && forall i, j :: 0 <= i < j < |src| ==> src[i].path != src[j].path
    ensures ContentOf(src, src[k].path) == src[k].content
  {
    if k > 0 { ContentAt(src[1..], k - 1); }
  }

  /** While the walk goes on, or an entry is unsettled, the sender has not returned. */
  lemma NotReturned(c: Config, s: State)
    requires CountersOk(c, s) && RequestsOk(s.toSender, s.lives, s.diff, s.loop)
    requires s.sent < |c.src| || !s.walkDone || exists k :: 0 <= k < |s.lives| && !Settled(s.lives[k])
    ensures !s.loop.Returned? && !s.loop.Replying? && !s.diff.Finished?
  { }
}
