/** The transfer protocol as a step system: sender and receiver with all their goroutines,
    joined by two bounded FIFO streams. An action is one atomic step of one goroutine. */
module Transfer {
  import opened Bytes

  const PIPELINE_CAP := 128
  const WALK_CAP := 128
  const WORKERS := 4
  const COPY_BUFFER := 32 * 1024

  /** A source entry: whether fileCanRequestData holds, and the content Open will read. */
  datatype File = File(path: Str, regular: bool, content: Str)

  /** The source in walk order and the capacities of the two streams. */
  datatype Config = Config(src: seq<File>, dataCap: nat, requestCap: nat)

  ghost predicate ValidConfig(c: Config)
  {
    && c.dataCap >= 1 && c.requestCap >= 1
    && forall i, j :: 0 <= i < j < |c.src| ==> c.src[i].path != c.src[j].path
  }

  // ---------------------------------------------------------------- state

  datatype Item = Item(path: Str, regular: bool)

  /** A STAT without an item ends the walk; a DATA without bytes ends a file. No packet but REQ
      and DATA carries an id: both sides count STATs. */
  datatype Packet = STAT(item: Option<Item>) | REQ(id: nat) | DATA(id: nat, bytes: Str) | FIN

  datatype ProtocolError = InvalidFileId | InvalidFileRequest | InvalidPipe | WriteAfterClose

  /** The sender's receive loop: waiting, pushing a request into the pipeline, answering FIN, returned. */
  datatype Loop = Reading | Queueing(id: nat, path: Str) | Replying | Returned

  datatype Worker = Idle | Sending(id: nat, path: Str, offset: nat) | Exited

  /** The receiver's receive loop: waiting, pushing an entry to the walker, draining after FIN. */
  datatype Intake = Receiving | Updating(item: Item) | Draining

  /** The diff goroutine: merging, waiting for the writers, FIN sent. */
  datatype Diff = Merging | Waiting | Finished

  /** One asynchronous writer: started, pipe registered, request sent, done. */
  datatype Task = Started | Registered(id: nat) | Requested(id: nat) | Done

  datatype Pipe = Pipe(path: Str, closed: bool)

  /** History of an entry after the diff took it; not consulted by any action. */
  datatype Life =
    | Skipped | Spawned | Piped | ReqSent | InLoop | InPipeline
    | Copying(worker: nat, offset: nat) | EofSent | Closed | Complete

  datatype State = State(
    // sender
    walked: nat, sent: nat, walkDone: bool, sFiles: map<nat, Str>,
    loop: Loop, pipeline: seq<(nat, Str)>, workers: seq<Worker>,
    // streams
    toReceiver: seq<Packet>, toSender: seq<Packet>,
    // receiver
    received: nat, rFiles: map<Str, nat>, intake: Intake, walkChan: seq<Item>, walkClosed: bool,
    held: Option<Item>, c2: seq<Item>, c2Closed: bool, diff: Diff,
    tasks: map<Str, Task>, pipes: map<nat, Pipe>, written: map<Str, Str>,
    err: Option<ProtocolError>,
    // history
    lives: seq<Life>, asked: seq<nat>)

  function Init(): State
  {
    State(0, 0, false, map[], Reading, [], [Idle, Idle, Idle, Idle], [], [],
          0, map[], Receiving, [], false, None, [], false, Merging, map[], map[], map[], None, [], [])
  }

  // ---------------------------------------------------------------- actions

  datatype Action =
    | WalkRegister | WalkSend | WalkEnd
    | LoopReceive | LoopQueue | LoopReply
    | WorkerTake(w: nat) | WorkerChunk(w: nat, n: nat) | WorkerEof(w: nat) | WorkerExit(w: nat)
    | IntakeReceive | IntakePush
    | FillTake | FillPut | FillClose
    | DiffTake(request: bool) | DiffEnd | DiffFin
    | TaskRegister(p: Str) | TaskRequest(p: Str) | TaskFinish(p: Str)

  function ItemOf(f: File): Item { Item(f.path, f.regular) }

  /** What Open and Read deliver for a path. */
  function ContentOf(src: seq<File>, p: Str): Str
  {
    if src == [] then [] else if src[0].path == p then src[0].content else ContentOf(src[1..], p)
  }

  /** What can happen next as long as the diff asks only for what the file map holds. */
  predicate Enabled(c: Config, s: State, a: Action)
  {
    s.err.None? &&
    match a
    case WalkRegister => s.walked == s.sent && s.walked < |c.src|
    case WalkSend => s.sent < s.walked && |s.toReceiver| < c.dataCap
    case WalkEnd => s.sent == s.walked == |c.src| && !s.walkDone && |s.toReceiver| < c.dataCap
    case LoopReceive => s.loop.Reading? && s.toSender != []
    case LoopQueue => s.loop.Queueing? && |s.pipeline| < PIPELINE_CAP
    case LoopReply => s.loop.Replying? && |s.toReceiver| < c.dataCap
    case WorkerTake(w) => w < |s.workers| && s.workers[w].Idle? && s.pipeline != []
    case WorkerChunk(w, n) =>
      && w < |s.workers| && s.workers[w].Sending? && |s.toReceiver| < c.dataCap
      && 1 <= n <= COPY_BUFFER && s.workers[w].offset + n <= |ContentOf(c.src, s.workers[w].path)|
    case WorkerEof(w) =>
      && w < |s.workers| && s.workers[w].Sending? && |s.toReceiver| < c.dataCap
      && s.workers[w].offset == |ContentOf(c.src, s.workers[w].path)|
    case WorkerExit(w) => w < |s.workers| && s.workers[w].Idle? && s.pipeline == [] && s.loop.Returned?
    case IntakeReceive => (s.intake.Receiving? || s.intake.Draining?) && s.toReceiver != []
    case IntakePush => s.intake.Updating? && |s.walkChan| < WALK_CAP
    case FillTake => s.held.None? && s.walkChan != []
    case FillPut => s.held.Some? && |s.c2| < WALK_CAP
    case FillClose => s.held.None? && s.walkChan == [] && s.walkClosed && !s.c2Closed
    case DiffTake(request) => s.diff.Merging? && s.c2 != [] && (request ==> s.c2[0].regular)
    case DiffEnd => s.diff.Merging? && s.c2 == [] && s.c2Closed
    case DiffFin => s.diff.Waiting? && (forall p :: p in s.tasks ==> s.tasks[p].Done?) && |s.toSender| < c.requestCap
    case TaskRegister(p) => p in s.tasks && s.tasks[p].Started?
    case TaskRequest(p) => p in s.tasks && s.tasks[p].Registered? && |s.toSender| < c.requestCap
    case TaskFinish(p) =>
      && p in s.tasks && s.tasks[p].Requested?
      && s.tasks[p].id in s.pipes && s.pipes[s.tasks[p].id].closed
  }

  /** What can happen next: the diff asks for whatever the writer wants. */
  predicate Possible(c: Config, s: State, a: Action)
  {
    Enabled(c, s, a) || (a == DiffTake(true) && s.err.None? && s.diff.Merging? && s.c2 != [])
  }

  function SetLife(lives: seq<Life>, k: nat, life: Life): seq<Life>
  {
    if k < |lives| then lives[k := life] else lives
  }

  /** The receive loop of the sender, for the packet in front. */
  function LoopStep(s: State, p: Packet): State
    requires s.toSender != []
  {
    var s1 := s.(toSender := s.toSender[1..]);
    if p.REQ? then
      if p.id !in s.sFiles then s1.(err := Some(InvalidFileId))
      else
        s1.(sFiles := s.sFiles - {p.id}, loop := Queueing(p.id, s.sFiles[p.id]),
            lives := SetLife(s.lives, p.id, InLoop))
    else if p.FIN? then s1.(loop := Replying)
    else s1
  }

  /** The receive loop of the receiver, for the packet in front. */
  function IntakeStep(s: State, p: Packet): State
    requires s.toReceiver != []
  {
    var s1 := s.(toReceiver := s.toReceiver[1..]);
    if s.intake.Draining? then s1
    else if p.STAT? then
      if p.item.None? then s1.(walkClosed := true)
      else
        var item := p.item.value;
        s1.(rFiles := if item.regular then s.rFiles[item.path := s.received] else s.rFiles,
            received := s.received + 1, intake := Updating(item))
    else if p.DATA? then
      if p.id !in s.pipes then s1.(err := Some(InvalidPipe))
      else
        var pipe := s.pipes[p.id];
        if p.bytes == [] then
          s1.(pipes := s.pipes[p.id := pipe.(closed := true)], lives := SetLife(s.lives, p.id, Closed))
        else if pipe.closed then s1.(err := Some(WriteAfterClose))
        else s1.(written := s.written[pipe.path := Written(s.written, pipe.path) + p.bytes])
    else if p.FIN? then s1.(intake := Draining)
    else s1
  }

  function Written(w: map<Str, Str>, p: Str): Str { if p in w then w[p] else [] }

  function Step(c: Config, s: State, a: Action): State
    requires Possible(c, s, a)
  {
    match a
    case WalkRegister =>
      s.(sFiles := if c.src[s.walked].regular then s.sFiles[s.walked := c.src[s.walked].path] else s.sFiles,
         walked := s.walked + 1)
    case WalkSend =>
      if s.sent < |c.src| then
        s.(toReceiver := s.toReceiver + [STAT(Some(ItemOf(c.src[s.sent])))], sent := s.sent + 1)
      else s
    case WalkEnd => s.(toReceiver := s.toReceiver + [STAT(None)], walkDone := true)
    case LoopReceive => LoopStep(s, s.toSender[0])
    case LoopQueue =>
      s.(pipeline := s.pipeline + [(s.loop.id, s.loop.path)], loop := Reading,
         lives := SetLife(s.lives, s.loop.id, InPipeline))
    case LoopReply => s.(toReceiver := s.toReceiver + [FIN], loop := Returned)
    case WorkerTake(w) =>
      var h := s.pipeline[0];
      s.(pipeline := s.pipeline[1..], workers := s.workers[w := Sending(h.0, h.1, 0)],
         lives := SetLife(s.lives, h.0, Copying(w, 0)))
    case WorkerChunk(w, n) =>
      var o := s.workers[w];
      s.(toReceiver := s.toReceiver + [DATA(o.id, ContentOf(c.src, o.path)[o.offset..o.offset + n])],
         workers := s.workers[w := o.(offset := o.offset + n)],
         lives := SetLife(s.lives, o.id, Copying(w, o.offset + n)))
    case WorkerEof(w) =>
      var o := s.workers[w];
      s.(toReceiver := s.toReceiver + [DATA(o.id, [])], workers := s.workers[w := Idle],
         lives := SetLife(s.lives, o.id, EofSent))
    case WorkerExit(w) => s.(workers := s.workers[w := Exited])
    case IntakeReceive => IntakeStep(s, s.toReceiver[0])
    case IntakePush => s.(walkChan := s.walkChan + [s.intake.item], intake := Receiving)
    case FillTake => s.(held := Some(s.walkChan[0]), walkChan := s.walkChan[1..])
    case FillPut => s.(c2 := s.c2 + [s.held.value], held := None)
    case FillClose => s.(c2Closed := true)
    case DiffTake(request) =>
      s.(c2 := s.c2[1..], tasks := if request then s.tasks[s.c2[0].path := Started] else s.tasks,
         lives := s.lives + [if request then Spawned else Skipped])
    case DiffEnd => s.(diff := Waiting)
    case DiffFin => s.(diff := Finished, toSender := s.toSender + [FIN])
    case TaskRegister(p) =>
      if p !in s.rFiles then s.(err := Some(InvalidFileRequest))
      else
        var id := s.rFiles[p];
        s.(rFiles := s.rFiles - {p}, pipes := s.pipes[id := Pipe(p, false)],
           tasks := s.tasks[p := Registered(id)], lives := SetLife(s.lives, id, Piped))
    case TaskRequest(p) =>
      var id := s.tasks[p].id;
      s.(toSender := s.toSender + [REQ(id)], tasks := s.tasks[p := Requested(id)],
         lives := SetLife(s.lives, id, ReqSent), asked := s.asked + [id])
    case TaskFinish(p) =>
      var id := s.tasks[p].id;
      s.(pipes := s.pipes - {id}, tasks := s.tasks[p := Done], lives := SetLife(s.lives, id, Complete))
  }

  /** Both FINs are exchanged and every goroutine has returned. */
  predicate Terminal(s: State)
  {
    && s.walkDone && s.loop.Returned? && s.pipeline == [] && s.toReceiver == [] && s.toSender == []
    && (forall w :: 0 <= w < |s.workers| ==> s.workers[w].Exited?)
    && s.intake.Draining? && s.walkChan == [] && s.held.None? && s.c2 == [] && s.c2Closed
    && s.diff.Finished? && forall p :: p in s.tasks ==> s.tasks[p].Done?
  }
}
