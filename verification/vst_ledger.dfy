/** Where the requests are: over whole runs, restarts included, every accepted request is in
    exactly one place, unless an authentication request is inserted at the front of the send
    queue while getNextRequestToSend is between looking at the front and removing it. */
module VstLedger {
  import opened Bytes
  import opened MessageIds
  import opened VstAccounts
  import opened VstConnectionRuns
  import opened VstConnections
  import opened VstLoopSafety

  predicate Accepted(s: State, id: Id) {
    1 <= id <= s.c.req.lastId
  }

  function Queue(s: State): seq<Id> {
    Waiting(s.c.req, s.dequeue.Added?)
  }

  function Maybe(id: Option<Id>): set<Id> {
    if id.Some? then {id.value} else {}
  }

  // What a thread knows: the request it works on, and the one it has removed from the store
  // and is about to answer.

  function WriterHolds(pc: Writer): Option<Id> {
    if pc.Next? || pc.Restarting? then None else Some(pc.id)
  }

  function WriterAnswers(pc: Writer): Option<Id> {
    if pc.Answering? then Some(pc.id) else None
  }

  function ReaderHolds(pc: Reader): Option<Id> {
    if pc.Found? || pc.Completing? then Some(pc.id) else None
  }

  function ReaderAnswers(pc: Reader): Option<Id> {
    if pc.Completing? then Some(pc.id) else None
  }

  ghost function Held(s: State): set<Id> {
    (set w | w in s.writers && WriterHolds(s.writers[w]).Some? :: WriterHolds(s.writers[w]).value)
    + (set r | r in s.readers && ReaderHolds(s.readers[r]).Some? :: ReaderHolds(s.readers[r]).value)
  }

  /** Requests that some thread has removed from the store and is about to answer. */
  ghost function Answering(s: State): set<Id> {
    (set w | w in s.writers && WriterAnswers(s.writers[w]).Some? :: WriterAnswers(s.writers[w]).value)
    + (set r | r in s.readers && ReaderAnswers(s.readers[r]).Some? :: ReaderAnswers(s.readers[r]).value)
  }

  // The four places of a request

  ghost predicate Queued(s: State, id: Id) {
    id in Queue(s)
  }

  ghost predicate Stored(s: State, id: Id) {
    id in s.c.req.messageStore
  }

  ghost predicate Leaving(s: State, id: Id) {
    id in Answering(s) && id !in s.c.req.invoked
  }

  ghost predicate Done(s: State, id: Id) {
    id in s.c.req.invoked
  }

  /** Every accepted request is in exactly one place, in the queue only once; its callback has
      run once if it is done and not at all otherwise. */
  ghost predicate Conserved(s: State) {
    && Distinct(Queue(s))
    && (forall id :: Accepted(s, id) ==>
          && Count(Queued(s, id)) + Count(Stored(s, id)) + Count(Leaving(s, id)) + Count(Done(s, id)) == 1
          && s.c.req.answered[id] == Count(Done(s, id)))
  }

  /** The request being moved is the one at the front of the queue. */
  ghost predicate FrontIsMoving(s: State) {
    s.dequeue.Peeked? || s.dequeue.Added? ==> s.c.req.sendQueue != [] && s.c.req.sendQueue[0] == s.dequeue.id
  }

  ghost predicate Ledger(s: State) {
    FrontIsMoving(s) && Account(s.c.req, s.dequeue.Added?, Held(s), Answering(s))
  }

  lemma LedgerConserves(s: State)
    requires Ledger(s)
    ensures Conserved(s)
  {
  }

  // What the moves of a thread do to what threads know

  lemma WriterMoves(s: State, w: Loop, pc: Writer, s': State)
    requires s'.writers == s.writers[w := pc] && s'.readers == s.readers
    ensures Held(s') <= Held(s) + Maybe(WriterHolds(pc))
    ensures Answering(s') <= Answering(s) + Maybe(WriterAnswers(pc))
    ensures Answering(s) <= Answering(s') + if w in s.writers then Maybe(WriterAnswers(s.writers[w])) else {}
    ensures Maybe(WriterAnswers(pc)) <= Answering(s')
  {
    assert s'.writers[w] == pc;
    forall id | id in Answering(s)
      ensures id in Answering(s') || (w in s.writers && id in Maybe(WriterAnswers(s.writers[w])))
    {
      if u :| u in s.writers && u != w && WriterAnswers(s.writers[u]) == Some(id) {
        assert s'.writers[u] == s.writers[u];
      }
    }
  }

  lemma ReaderMoves(s: State, r: Loop, pc: Reader, s': State)
    requires s'.readers == s.readers[r := pc] && s'.writers == s.writers
    ensures Held(s') <= Held(s) + Maybe(ReaderHolds(pc))
    ensures Answering(s') <= Answering(s) + Maybe(ReaderAnswers(pc))
    ensures Answering(s) <= Answering(s') + if r in s.readers then Maybe(ReaderAnswers(s.readers[r])) else {}
    ensures Maybe(ReaderAnswers(pc)) <= Answering(s')
  {
    assert s'.readers[r] == pc;
    forall id | id in Answering(s)
      ensures id in Answering(s') || (r in s.readers && id in Maybe(ReaderAnswers(s.readers[r])))
    {
      if u :| u in s.readers && u != r && ReaderAnswers(s.readers[u]) == Some(id) {
        assert s'.readers[u] == s.readers[u];
      }
    }
  }

  lemma WriterEnds(s: State, w: Loop, s': State)
    requires s'.writers == s.writers - {w} && s'.readers == s.readers
    requires w in s.writers ==> WriterHolds(s.writers[w]) == None
    ensures Held(s') <= Held(s) && Answering(s') == Answering(s)
  {
    forall id | id in Answering(s)
      ensures id in Answering(s')
    {
      if u :| u in s.writers && WriterAnswers(s.writers[u]) == Some(id) {
        assert u in s'.writers && s'.writers[u] == s.writers[u];
      }
    }
  }

  lemma ReaderEnds(s: State, r: Loop, s': State)
    requires s'.readers == s.readers - {r} && s'.writers == s.writers
    requires r in s.readers ==> ReaderHolds(s.readers[r]) == None
    ensures Held(s') <= Held(s) && Answering(s') == Answering(s)
  {
    forall id | id in Answering(s)
      ensures id in Answering(s')
    {
      if u :| u in s.readers && ReaderAnswers(s.readers[u]) == Some(id) {
        assert u in s'.readers && s'.readers[u] == s.readers[u];
      }
    }
  }

  lemma SameThreads(s: State, s': State)
    requires s'.writers == s.writers && s'.readers == s.readers
    ensures Held(s') == Held(s) && Answering(s') == Answering(s)
  {
  }

  lemma WriterHas(s: State, w: Loop)
    requires w in s.writers
    ensures Maybe(WriterHolds(s.writers[w])) <= Held(s)
    ensures Maybe(WriterAnswers(s.writers[w])) <= Answering(s)
  {
  }

  lemma ReaderHas(s: State, r: Loop)
    requires r in s.readers
    ensures Maybe(ReaderHolds(s.readers[r])) <= Held(s)
    ensures Maybe(ReaderAnswers(s.readers[r])) <= Answering(s)
  {
  }

  lemma AnsweringIsHeld(s: State)
    ensures Answering(s) <= Held(s)
  {
    forall id | id in Answering(s)
      ensures id in Held(s)
    {
      if w :| w in s.writers && WriterAnswers(s.writers[w]) == Some(id) {
        assert WriterHolds(s.writers[w]) == Some(id);
      }
      if r :| r in s.readers && ReaderAnswers(s.readers[r]) == Some(id) {
        assert ReaderHolds(s.readers[r]) == Some(id);
      }
    }
  }

  /** What threads know changes: at most the requests in `gain` are taken up, those in `begin`
      are about to be answered, and at most those in `finish` are no longer. */
  datatype Change = Change(gain: set<Id>, begin: set<Id>, finish: set<Id>)
  {
    ghost predicate Relates(held: set<Id>, answering: set<Id>, held': set<Id>, answering': set<Id>) {
      && held' <= held + gain
      && answering' <= answering + begin
      && answering + begin <= answering' + finish
      && answering' <= held'
    }
  }

  const NOTHING := Change({}, {}, {})

  function WriteChange(s: State, w: Loop, a: WriteAction): Change
    requires WriteEnabled(s, w, a)
  {
    match a
    case RemoveFromQueue => Change({s.dequeue.id}, {}, {})
    case RemoveFailed => Change({}, {s.writers[w].id}, {})
    case AnswerFailed => Change({}, {}, {s.writers[w].id})
    case _ => NOTHING
  }

  function ReadChange(s: State, r: Loop, a: ReadAction): Change
    requires ReadEnabled(s, r, a)
  {
    match a
    case Chunk(id) => if id in s.c.req.messageStore then Change({id}, {}, {}) else NOTHING
    case Complete => Change({}, {s.readers[r].id}, {})
    case Answer => Change({}, {}, {s.readers[r].id})
    case _ => NOTHING
  }

  /** From s to s', at most one loop is started. */
  ghost predicate AtMostStarts(s: State, s': State) {
    || (s'.writers == s.writers && s'.readers == s.readers)
    || (s.c.loops.nextLoop !in s.writers && s'.writers == s.writers[s.c.loops.nextLoop := Next] && s'.readers == s.readers)
    || (s.c.loops.nextLoop !in s.readers && s'.readers == s.readers[s.c.loops.nextLoop := Check] && s'.writers == s.writers)
  }

  lemma CallStarts(s: State, t: State)
    requires LoopsRun(s) && t.writers == s.writers && t.readers == s.readers && t.c == s.c
    ensures AtMostStarts(s, t.CallStartWriting())
    ensures AtMostStarts(s, t.CallStartReading())
  {
  }

  lemma SenderStarts(s: State, a: SenderAction)
    requires LoopsRun(s)
    ensures AtMostStarts(s, SenderStep(s, a))
  {
    if a.SenderStart? {
      CallStarts(s, s.End(SenderStarting));
    } else {
      assert SenderStep(s, a).writers == s.writers && SenderStep(s, a).readers == s.readers;
    }
  }

  lemma SetupStarts(s: State, a: ConnectAction)
    requires !StartsLoop(a)
    ensures ConnectStep(s, a).writers == s.writers && ConnectStep(s, a).readers == s.readers
  {
  }

  lemma ConnectStarts(s: State, a: ConnectAction)
    requires LoopsRun(s)
    ensures AtMostStarts(s, ConnectStep(s, a))
  {
    match a {
      case FirstWriting => CallStarts(s, s.Move(ConnectStartWriting, ConnectStartReading));
      case FirstReading => CallStarts(s, s.End(ConnectStartReading));
      case _ => SetupStarts(s, a);
    }
  }

  lemma ShutdownStarts(s: State, a: ShutdownAction)
    ensures AtMostStarts(s, ShutdownStep(s, a))
  {
  }

  lemma StartOnThreads(s: State, s': State)
    requires AtMostStarts(s, s')
    ensures NOTHING.Relates(Held(s), Answering(s), Held(s'), Answering(s'))
  {
    AnsweringIsHeld(s');
    if s'.writers == s.writers && s'.readers == s.readers {
      SameThreads(s, s');
    } else if s'.readers == s.readers {
      WriterMoves(s, s.c.loops.nextLoop, Next, s');
    } else {
      ReaderMoves(s, s.c.loops.nextLoop, Check, s');
    }
  }

  lemma WriteOnThreads(s: State, w: Loop, a: WriteAction)
    requires LockHeld(s) && LoopsRun(s) && WriteEnabled(s, w, a)
    ensures var s' := WriteStep(s, w, a);
            WriteChange(s, w, a).Relates(Held(s), Answering(s), Held(s'), Answering(s'))
  {
    var s' := WriteStep(s, w, a);
    AnsweringIsHeld(s');
    if s'.writers == s.writers {
      SameThreads(s, s');
    } else if w !in s'.writers {
      WriterEnds(s, w, s');
    } else if s'.readers == s.readers {
      WriterMoves(s, w, s'.writers[w], s');
    } else {
      var woken := s.CallStartReading();
      ReaderMoves(s, s.c.loops.nextLoop, Check, woken);
      WriterMoves(woken, w, s'.writers[w], s');
    }
  }

  lemma ReadOnThreads(s: State, r: Loop, a: ReadAction)
    requires ReadEnabled(s, r, a)
    ensures var s' := ReadStep(s, r, a);
            ReadChange(s, r, a).Relates(Held(s), Answering(s), Held(s'), Answering(s'))
  {
    var s' := ReadStep(s, r, a);
    AnsweringIsHeld(s');
    if s'.readers == s.readers {
      SameThreads(s, s');
    } else if r !in s'.readers {
      ReaderEnds(s, r, s');
    } else {
      ReaderMoves(s, r, s'.readers[r], s');
    }
  }

  // Every step keeps the ledger

  /** An authentication request is not inserted while a request is being moved. */
  predicate IsOrderly(s: State, a: Action) {
    a == OfConnect(InsertAuthentication) ==> s.dequeue.Idle? || s.dequeue.SawEmpty?
  }

  ghost predicate Moved(c: Change, s: State, held: set<Id>, answering: set<Id>, s': State, held': set<Id>, answering': set<Id>) {
    && FrontIsMoving(s) && Account(s.c.req, s.dequeue.Added?, held, answering)
    && c.Relates(held, answering, held', answering')
  }

  lemma SenderOnAccount(s: State, a: SenderAction,
        held: set<Id>, answering: set<Id>, held': set<Id>, answering': set<Id>)
    requires Moved(NOTHING, s, held, answering, SenderStep(s, a), held', answering')
    ensures FrontIsMoving(SenderStep(s, a))
    ensures Account(SenderStep(s, a).c.req, SenderStep(s, a).dequeue.Added?, held', answering')
  {
    if a.Send? {
      Enqueued(s.c.req, s.dequeue.Added?, held, answering);
    }
    HoldsLess(SenderStep(s, a).c.req, s.dequeue.Added?, held, answering, held');
  }

  lemma ConnectOnAccount(s: State, a: ConnectAction,
        held: set<Id>, answering: set<Id>, held': set<Id>, answering': set<Id>)
    requires ConnectEnabled(s, a) && IsOrderly(s, OfConnect(a))
    requires Moved(NOTHING, s, held, answering, ConnectStep(s, a), held', answering')
    ensures FrontIsMoving(ConnectStep(s, a))
    ensures Account(ConnectStep(s, a).c.req, ConnectStep(s, a).dequeue.Added?, held', answering')
  {
    if a.InsertAuthentication? {
      Inserted(s.c.req, held, answering);
    }
    HoldsLess(ConnectStep(s, a).c.req, s.dequeue.Added?, held, answering, held');
  }

  lemma ShutdownOnAccount(s: State, a: ShutdownAction,
        held: set<Id>, answering: set<Id>, held': set<Id>, answering': set<Id>)
    requires Moved(NOTHING, s, held, answering, ShutdownStep(s, a), held', answering')
    ensures FrontIsMoving(ShutdownStep(s, a))
    ensures Account(ShutdownStep(s, a).c.req, ShutdownStep(s, a).dequeue.Added?, held', answering')
  {
    if a.CancelAll? {
      Cancelled(s.c.req, s.dequeue.Added?, held, answering);
    }
    HoldsLess(ShutdownStep(s, a).c.req, s.dequeue.Added?, held, answering, held');
  }

  predicate Dequeues(a: WriteAction) {
    a.Peek? || a.GiveUp? || a.AddToStore? || a.RemoveFromQueue?
  }

  lemma DequeueOnAccount(s: State, w: Loop, a: WriteAction,
        held: set<Id>, answering: set<Id>, held': set<Id>, answering': set<Id>)
    requires WriteEnabled(s, w, a) && Dequeues(a)
    requires Moved(WriteChange(s, w, a), s, held, answering, WriteStep(s, w, a), held', answering')
    ensures FrontIsMoving(WriteStep(s, w, a))
    ensures Account(WriteStep(s, w, a).c.req, WriteStep(s, w, a).dequeue.Added?, held', answering')
  {
    if a.AddToStore? {
      AddedToStore(s.c.req, held, answering);
    } else if a.RemoveFromQueue? {
      RemovedFromQueue(s.c.req, held, answering);
    }
    var s' := WriteStep(s, w, a);
    HoldsLess(s'.c.req, s'.dequeue.Added?, held + WriteChange(s, w, a).gain, answering, held');
  }

  lemma WriteOnAccount(s: State, w: Loop, a: WriteAction,
        held: set<Id>, answering: set<Id>, held': set<Id>, answering': set<Id>)
    requires WriteEnabled(s, w, a) && !Dequeues(a)
    requires Moved(WriteChange(s, w, a), s, held, answering, WriteStep(s, w, a), held', answering')
    requires a.RemoveFailed? ==> s.writers[w].id in held
    requires a.AnswerFailed? ==> s.writers[w].id in answering
    ensures FrontIsMoving(WriteStep(s, w, a))
    ensures Account(WriteStep(s, w, a).c.req, WriteStep(s, w, a).dequeue.Added?, held', answering')
  {
    if a.RemoveFailed? {
      RemovedFromStore(s.c.req, s.dequeue.Added?, held, answering, s.writers[w].id);
    } else if a.AnswerFailed? {
      Invoked(s.c.req, s.dequeue.Added?, held, answering, s.writers[w].id, true, answering');
    }
    HoldsLess(WriteStep(s, w, a).c.req, s.dequeue.Added?, held, answering', held');
  }

  lemma ChunkOnAccount(s: State, r: Loop, id: Id,
        held: set<Id>, answering: set<Id>, held': set<Id>, answering': set<Id>)
    requires ReadEnabled(s, r, Chunk(id))
    requires Moved(ReadChange(s, r, Chunk(id)), s, held, answering, ReadStep(s, r, Chunk(id)), held', answering')
    ensures Account(s.c.req, s.dequeue.Added?, held', answering')
  {
    if id in s.c.req.messageStore {
      FoundInStore(s.c.req, s.dequeue.Added?, held, answering, id);
      HoldsLess(s.c.req, s.dequeue.Added?, held + {id}, answering, held');
    } else {
      HoldsLess(s.c.req, s.dequeue.Added?, held, answering, held');
    }
  }

  /** What a step of a read loop does to the requests. */
  lemma ReadOnRequests(s: State, r: Loop, a: ReadAction)
    requires ReadEnabled(s, r, a)
    ensures ReadStep(s, r, a).dequeue == s.dequeue
    ensures ReadStep(s, r, a).c.req ==
            if a.Complete? then s.c.req.RemoveByID(s.readers[r].id)
            else if a.Answer? then s.c.req.Invoke(s.readers[r].id, false)
            else s.c.req
  {
  }

  lemma ReadOnAccount(s: State, r: Loop, a: ReadAction,
        held: set<Id>, answering: set<Id>, held': set<Id>, answering': set<Id>)
    requires ReadEnabled(s, r, a)
    requires Moved(ReadChange(s, r, a), s, held, answering, ReadStep(s, r, a), held', answering')
    requires a.Complete? ==> s.readers[r].id in held
    requires a.Answer? ==> s.readers[r].id in answering
    ensures FrontIsMoving(ReadStep(s, r, a))
    ensures Account(ReadStep(s, r, a).c.req, ReadStep(s, r, a).dequeue.Added?, held', answering')
  {
    ReadOnRequests(s, r, a);
    if a.Chunk? {
      ChunkOnAccount(s, r, a.id, held, answering, held', answering');
    } else {
      if a.Complete? {
        RemovedFromStore(s.c.req, s.dequeue.Added?, held, answering, s.readers[r].id);
      } else if a.Answer? {
        Invoked(s.c.req, s.dequeue.Added?, held, answering, s.readers[r].id, false, answering');
      }
      HoldsLess(ReadStep(s, r, a).c.req, s.dequeue.Added?, held, answering', held');
    }
  }

  lemma WriteKeepsLedger(s: State, w: Loop, a: WriteAction)
    requires ThreadsInPlace(s) && Ledger(s) && WriteEnabled(s, w, a)
    ensures Ledger(WriteStep(s, w, a))
  {
    var s' := WriteStep(s, w, a);
    WriteOnThreads(s, w, a);
    if Dequeues(a) {
      DequeueOnAccount(s, w, a, Held(s), Answering(s), Held(s'), Answering(s'));
    } else {
      if a.RemoveFailed? || a.AnswerFailed? {
        WriterHas(s, w);
      }
      WriteOnAccount(s, w, a, Held(s), Answering(s), Held(s'), Answering(s'));
    }
  }

  lemma ReadKeepsLedger(s: State, r: Loop, a: ReadAction)
    requires Ledger(s) && ReadEnabled(s, r, a)
    ensures Ledger(ReadStep(s, r, a))
  {
    var s' := ReadStep(s, r, a);
    ReadOnThreads(s, r, a);
    if a.Complete? || a.Answer? {
      ReaderHas(s, r);
    }
    ReadOnAccount(s, r, a, Held(s), Answering(s), Held(s'), Answering(s'));
  }

  lemma SenderKeepsLedger(s: State, a: SenderAction)
    requires LoopsRun(s) && Ledger(s)
    ensures Ledger(SenderStep(s, a))
  {
    var s' := SenderStep(s, a);
    SenderStarts(s, a);
    StartOnThreads(s, s');
    SenderOnAccount(s, a, Held(s), Answering(s), Held(s'), Answering(s'));
  }

  lemma ConnectKeepsLedger(s: State, a: ConnectAction)
    requires LoopsRun(s) && Ledger(s) && ConnectEnabled(s, a) && IsOrderly(s, OfConnect(a))
    ensures Ledger(ConnectStep(s, a))
  {
    var s' := ConnectStep(s, a);
    ConnectStarts(s, a);
    StartOnThreads(s, s');
    ConnectOnAccount(s, a, Held(s), Answering(s), Held(s'), Answering(s'));
  }

  lemma ShutdownKeepsLedger(s: State, a: ShutdownAction)
    requires Ledger(s)
    ensures Ledger(ShutdownStep(s, a))
  {
    var s' := ShutdownStep(s, a);
    ShutdownStarts(s, a);
    StartOnThreads(s, s');
    ShutdownOnAccount(s, a, Held(s), Answering(s), Held(s'), Answering(s'));
  }

  lemma {:induction false} StepKeepsLedger(s: State, a: Action)
    requires ThreadsInPlace(s) && Ledger(s) && Enabled(s, a) && IsOrderly(s, a)
    ensures Ledger(Step(s, a))
  {
    match a {
      case OfSender(sender) => SenderKeepsLedger(s, sender);
      case OfConnect(connect) => ConnectKeepsLedger(s, connect);
      case OfShutdown(shutdown) => ShutdownKeepsLedger(s, shutdown);
      case OfWriter(w, write) => WriteKeepsLedger(s, w, write);
      case OfReader(r, read) => ReadKeepsLedger(s, r, read);
    }
  }

  /** Every step of a run is orderly. */
  ghost predicate RunsOrderly(actions: seq<Action>)
    requires IsRun(actions)
  {
    actions == [] ||
    (RunsOrderly(actions[..|actions| - 1]) && IsOrderly(After(actions[..|actions| - 1]), actions[|actions| - 1]))
  }

  lemma {:induction false} OrderlyRunsHaveLedger(actions: seq<Action>)
    requires IsRun(actions) && RunsOrderly(actions)
    ensures Ledger(After(actions))
  {
    if actions != [] {
      var before := actions[..|actions| - 1];
      OrderlyRunsHaveLedger(before);
      RunsAreWatched(before);
      StepKeepsLedger(After(before), actions[|actions| - 1]);
    }
  }
}
