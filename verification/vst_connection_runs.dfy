/** A connection as a step machine. Every mutex-protected region is one atomic step, except
    that getNextRequestToSend, which takes the locks of queue and store one after the other,
    is split at these locks; `dequeue` says how far the holder of the write-loop lock has
    got. Threads stand between two regions. */
module VstConnectionRuns {
  import opened Bytes
  import opened MessageIds
  import opened VstConnections

  /** A thread that is not the main thread of a loop, by what it does next. A shutdown is
      followed by a reconnect when it belongs to a restart. */
  datatype Task =
    | SenderQueued               // sendRequest has queued its request, looks at _connected next
    | SenderStarting             // sendRequest calls startWriting next
    | Connecting                 // resolve, connect, handshake and header write are under way
    | Initialized                // the header is written, insertAuthenticationRequests is next
    | Authenticated              // _connected is set next, then startWriting and startReading called
    | ConnectStartWriting
    | ConnectStartReading
    | ShutdownWriting(reconnect: bool)  // stopWriting is next
    | ShutdownReading(reconnect: bool)  // stopReading is next
    | ShutdownStore(reconnect: bool)    // cancelAll is next

  /** The main thread of a write loop. */
  datatype Writer =
    | Next                       // calls getNextRequestToSend next
    | StartReader(id: Id)        // has got a request, calls startReading next
    | Writing(id: Id)            // the request is being written
    | Failed(id: Id)             // the write failed, removeByID is next
    | Answering(id: Id)          // the callback is invoked next
    | Restarting                 // restartConnection is next

  /** The main thread of a read loop. */
  datatype Reader =
    | Check                      // calls shouldStopReading next
    | Reading                    // waits for data
    | Parsing                    // looks at the chunks received
    | Found(id: Id)              // has found the item of a chunk
    | Completing(id: Id)         // has removed it from the store, invokes its callback next
    | ReadFailed                 // restartConnection is next

  /** How far getNextRequestToSend has got. */
  datatype Dequeue = Idle | SawEmpty(w: Loop) | Peeked(w: Loop, id: Id) | Added(w: Loop, id: Id)

  datatype State = State(
    c: Connection,
    tasks: multiset<Task>,
    writers: map<Loop, Writer>,
    readers: map<Loop, Reader>,
    dequeue: Dequeue,
    epoch: bool)  // no restart or shutdown since the connection was last set up
  {
    function Move(from: Task, to: Task): State {
      this.(tasks := tasks - multiset{from} + multiset{to})
    }

    function End(t: Task): State {
      this.(tasks := tasks - multiset{t})
    }

    /** A thread calls startWriting; a new loop gets a thread of its own. */
    function CallStartWriting(): State {
      if c.loops.writeLoop.Some? then this
      else this.(c := c.(loops := c.loops.StartWriting()), writers := writers[c.loops.nextLoop := Next])
    }

    function CallStartReading(): State {
      if c.loops.readLoop.Some? then this
      else this.(c := c.(loops := c.loops.StartReading()), readers := readers[c.loops.nextLoop := Check])
    }

    /** restartConnection by the given loop; a shutdown follows if it was still current. */
    function CallRestart(loop: Loop, current: Option<Loop>): State {
      if current != Some(loop) then this
      else this.(c := c.(loops := c.loops.Restart(loop, current)), tasks := tasks + multiset{ShutdownWriting(true)},
                 epoch := false)
    }

    function Writer(w: Loop, pc: Writer): State {
      this.(writers := writers[w := pc])
    }

    function EndWriter(w: Loop): State {
      this.(writers := writers - {w})
    }

    function Reader(r: Loop, pc: Reader): State {
      this.(readers := readers[r := pc])
    }

    function EndReader(r: Loop): State {
      this.(readers := readers - {r})
    }

    /** The write-loop lock is free. */
    predicate Unlocked() {
      dequeue.Idle?
    }

    predicate WriterAt(w: Loop, pc: Writer) {
      w in writers && writers[w] == pc
    }

    predicate ReaderAt(r: Loop, pc: Reader) {
      r in readers && readers[r] == pc
    }
  }

  datatype SenderAction = Send | SenderCheck | SenderStart

  datatype ConnectAction =
    | ConnectAbandoned | ConnectFailed | HeaderFailed | HeaderWritten
    | InsertAuthentication | NoAuthentication | SetConnected | FirstWriting | FirstReading

  datatype ShutdownAction = StopWriting(reconnect: bool) | StopReading(reconnect: bool) | CancelAll(reconnect: bool)

  datatype WriteAction =
    | Peek | GiveUp | AddToStore | RemoveFromQueue  // getNextRequestToSend
    | WakeReader | Written | WriteFails | RemoveFailed | AnswerFailed | RestartAfterWrite | WriteDeadline

  datatype ReadAction =
    | CheckStop | Receive | ReadFails | Chunk(id: Id) | NoMoreChunks
    | Incomplete | Complete | Answer | RestartAfterRead | ReadDeadline

  /** A step: of a sender, of the setup or the shutdown of a connection, or of a loop. */
  datatype Action =
    | OfSender(sender: SenderAction)
    | OfConnect(connect: ConnectAction)
    | OfShutdown(shutdown: ShutdownAction)
    | OfWriter(w: Loop, write: WriteAction)
    | OfReader(r: Loop, read: ReadAction)

  predicate Enabled(s: State, a: Action) {
    match a
    case OfSender(Send) => true
    case OfSender(SenderCheck) => SenderQueued in s.tasks
    case OfSender(SenderStart) => SenderStarting in s.tasks && s.Unlocked()
    case OfConnect(connect) => ConnectEnabled(s, connect)
    case OfShutdown(StopWriting(b)) => ShutdownWriting(b) in s.tasks && s.Unlocked()
    case OfShutdown(StopReading(b)) => ShutdownReading(b) in s.tasks
    case OfShutdown(CancelAll(b)) => ShutdownStore(b) in s.tasks
    case OfWriter(w, write) => WriteEnabled(s, w, write)
    case OfReader(r, read) => ReadEnabled(s, r, read)
  }

  predicate ConnectEnabled(s: State, a: ConnectAction) {
    match a
    case InsertAuthentication | NoAuthentication => Initialized in s.tasks
    case SetConnected => Authenticated in s.tasks
    case FirstWriting => ConnectStartWriting in s.tasks && s.Unlocked()
    case FirstReading => ConnectStartReading in s.tasks
    case _ => Connecting in s.tasks
  }

  predicate WriteEnabled(s: State, w: Loop, a: WriteAction) {
    match a
    case Peek => s.WriterAt(w, Next) && s.Unlocked()
    case GiveUp => s.dequeue == SawEmpty(w)
    case AddToStore => s.dequeue.Peeked? && s.dequeue.w == w
    case RemoveFromQueue => s.dequeue.Added? && s.dequeue.w == w && s.c.req.sendQueue != []
    case WakeReader => w in s.writers && s.writers[w].StartReader?
    case Written | WriteFails => w in s.writers && s.writers[w].Writing?
    case RemoveFailed => w in s.writers && s.writers[w].Failed?
    case AnswerFailed => w in s.writers && s.writers[w].Answering?
    case RestartAfterWrite => s.WriterAt(w, Restarting) && s.Unlocked()
    case WriteDeadline => s.Unlocked()
  }

  predicate ReadEnabled(s: State, r: Loop, a: ReadAction) {
    match a
    case CheckStop => s.ReaderAt(r, Check)
    case Receive | ReadFails => s.ReaderAt(r, Reading)
    case Chunk(_) | NoMoreChunks => s.ReaderAt(r, Parsing)
    case Incomplete | Complete => r in s.readers && s.readers[r].Found?
    case Answer => r in s.readers && s.readers[r].Completing?
    case RestartAfterRead => s.ReaderAt(r, ReadFailed) && s.Unlocked()
    case ReadDeadline => s.Unlocked()
  }

  function Step(s: State, a: Action): State
    requires Enabled(s, a)
  {
    match a
    case OfSender(sender) => SenderStep(s, sender)
    case OfConnect(connect) => ConnectStep(s, connect)
    case OfShutdown(shutdown) => ShutdownStep(s, shutdown)
    case OfWriter(w, write) => WriteStep(s, w, write)
    case OfReader(r, read) => ReadStep(s, r, read)
  }

  function SenderStep(s: State, a: SenderAction): State {
    match a
    case Send => s.(c := s.c.(req := s.c.req.Enqueue()), tasks := s.tasks + multiset{SenderQueued})
    case SenderCheck => if s.c.connected then s.Move(SenderQueued, SenderStarting) else s.End(SenderQueued)
    case SenderStart => s.End(SenderStarting).CallStartWriting()
  }

  function ConnectStep(s: State, a: ConnectAction): State {
    match a
    case ConnectAbandoned => s.End(Connecting)
    case ConnectFailed => s.Move(Connecting, ShutdownWriting(false))
    case HeaderFailed => s.Move(Connecting, ShutdownWriting(false)).(c := s.c.(connected := false), epoch := false)
    case HeaderWritten => s.Move(Connecting, Initialized)
    case InsertAuthentication => s.Move(Initialized, Authenticated).(c := s.c.(req := s.c.req.InsertAuth()))
    case NoAuthentication => s.Move(Initialized, Authenticated)
    case SetConnected => s.Move(Authenticated, ConnectStartWriting).(c := s.c.(connected := true), epoch := true)
    case FirstWriting => s.Move(ConnectStartWriting, ConnectStartReading).CallStartWriting()
    case FirstReading => s.End(ConnectStartReading).CallStartReading()
  }

  function ShutdownStep(s: State, a: ShutdownAction): State {
    match a
    case StopWriting(b) =>
      s.Move(ShutdownWriting(b), ShutdownReading(b)).(c := s.c.(loops := s.c.loops.StopWriting()), epoch := false)
    case StopReading(b) =>
      s.Move(ShutdownReading(b), ShutdownStore(b)).(c := s.c.(loops := s.c.loops.StopReading()), epoch := false)
    case CancelAll(b) =>
      var s' := s.(c := s.c.(req := s.c.req.CancelAll()), epoch := false);
      if b && !s'.c.req.failure then s'.Move(ShutdownStore(b), Connecting) else s'.End(ShutdownStore(b))
  }

  function WriteStep(s: State, w: Loop, a: WriteAction): State
    requires WriteEnabled(s, w, a)
  {
    match a
    case Peek =>
      if s.c.loops.writeLoop != Some(w) || s.c.req.failure then s.EndWriter(w)
      else if s.c.req.sendQueue == [] then s.(dequeue := SawEmpty(w))
      else s.(dequeue := Peeked(w, s.c.req.sendQueue[0]))
    case GiveUp => s.(c := s.c.(loops := s.c.loops.StopWriting()), dequeue := Idle).EndWriter(w)
    case AddToStore => s.(c := s.c.(req := s.c.req.StoreRequest(s.dequeue.id)), dequeue := Added(w, s.dequeue.id))
    case RemoveFromQueue =>
      s.(c := s.c.(req := s.c.req.RemoveFirst(), dequeues := s.c.dequeues + [(w, s.dequeue.id)]), dequeue := Idle)
       .Writer(w, StartReader(s.dequeue.id))
    case WakeReader => s.CallStartReading().Writer(w, Writing(s.writers[w].id))
    case Written => s.Writer(w, Next)
    case WriteFails => s.Writer(w, Failed(s.writers[w].id))
    case RemoveFailed => s.(c := s.c.(req := s.c.req.RemoveByID(s.writers[w].id))).Writer(w, Answering(s.writers[w].id))
    case AnswerFailed => s.(c := s.c.(req := s.c.req.Invoke(s.writers[w].id, true))).Writer(w, Restarting)
    case RestartAfterWrite => s.CallRestart(w, s.c.loops.writeLoop).EndWriter(w)
    case WriteDeadline => s.CallRestart(w, s.c.loops.writeLoop)
  }

  function ReadStep(s: State, r: Loop, a: ReadAction): State
    requires ReadEnabled(s, r, a)
  {
    match a
    case CheckStop =>
      if s.c.MustStopReading(r) then s.(c := s.c.CheckReading(r)).EndReader(r)
      else s.Reader(r, Reading)
    case Receive => s.Reader(r, Parsing)
    case ReadFails => s.Reader(r, ReadFailed)
    case Chunk(id) => if id in s.c.req.messageStore then s.Reader(r, Found(id)) else s
    case NoMoreChunks => s.Reader(r, Check)
    case Incomplete => s.Reader(r, Parsing)
    case Complete => s.(c := s.c.(req := s.c.req.RemoveByID(s.readers[r].id))).Reader(r, Completing(s.readers[r].id))
    case Answer => s.(c := s.c.(req := s.c.req.Invoke(s.readers[r].id, false))).Reader(r, Parsing)
    case RestartAfterRead => s.CallRestart(r, s.c.loops.readLoop).EndReader(r)
    case ReadDeadline => s.CallRestart(r, s.c.loops.readLoop)
  }

  /** A connection that has just been started. */
  const INIT := State(INITIAL, multiset{Connecting}, map[], map[], Idle, false)

  ghost predicate IsRun(actions: seq<Action>)
    decreases |actions|, 0
  {
    actions == [] ||
    (IsRun(actions[..|actions| - 1]) && Enabled(After(actions[..|actions| - 1]), actions[|actions| - 1]))
  }

  /** The state a run ends in. */
  ghost function After(actions: seq<Action>): State
    requires IsRun(actions)
    decreases |actions|, 1
  {
    if actions == [] then INIT
    else Step(After(actions[..|actions| - 1]), actions[|actions| - 1])
  }

  lemma {:induction false} PrefixIsRun(actions: seq<Action>, n: nat)
    requires IsRun(actions) && n <= |actions|
    ensures IsRun(actions[..n])
    decreases |actions|
  {
    if n == |actions| {
      assert actions[..n] == actions;
    } else {
      var before := actions[..|actions| - 1];
      PrefixIsRun(before, n);
      assert before[..n] == actions[..n];
    }
  }

  /** The state after the first n actions of a run. */
  ghost function At(actions: seq<Action>, n: nat): State
    requires IsRun(actions) && n <= |actions|
  {
    PrefixIsRun(actions, n);
    After(actions[..n])
  }

  lemma AtPrefix(actions: seq<Action>, m: nat, n: nat)
    requires IsRun(actions) && m <= n <= |actions|
    ensures IsRun(actions[..n]) && At(actions[..n], m) == At(actions, m)
    ensures n == |actions| ==> At(actions, n) == After(actions)
  {
    PrefixIsRun(actions, n);
    assert actions[..n][..m] == actions[..m];
    if n == |actions| {
      assert actions[..n] == actions;
    }
  }

  /** One action leads from each state of a run to the next. */
  lemma AtStep(actions: seq<Action>, n: nat)
    requires IsRun(actions) && n < |actions|
    ensures Enabled(At(actions, n), actions[n]) && At(actions, n + 1) == Step(At(actions, n), actions[n])
  {
    var upTo := actions[..n + 1];
    PrefixIsRun(actions, n + 1);
    assert upTo[..|upTo| - 1] == actions[..n] && upTo[|upTo| - 1] == actions[n];
  }
}
