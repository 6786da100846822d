/** Runs in which something goes wrong: an authentication request is lost, restartConnection meets
    a current loop, and a write loop is left with a request that has been handed over. */
module VstWitnesses {
  import opened Bytes
  import opened VstConnections
  import opened VstConnectionRuns
  import opened VstLedger
  import opened VstRequestLoss
  import opened VstRestartAssertions
  import opened VstStoredOwners

  ghost predicate Reached(s: State) {
    exists run :: IsRun(run) && After(run) == s
  }

  lemma Then(s: State, a: Action, s': State)
    requires Reached(s) && Enabled(s, a) && Step(s, a) == s'
    ensures Reached(s')
  {
    var run :| IsRun(run) && After(run) == s;
    assert (run + [a])[..|run|] == run;
    assert IsRun(run + [a]) && After(run + [a]) == s';
  }

  lemma ThenConnect(s: State, a: ConnectAction, s': State)
    requires Reached(s) && ConnectEnabled(s, a) && ConnectStep(s, a) == s'
    ensures Reached(s')
  {
    Then(s, OfConnect(a), s');
  }

  lemma ThenWrite(s: State, w: Loop, a: WriteAction, s': State)
    requires Reached(s) && WriteEnabled(s, w, a) && WriteStep(s, w, a) == s'
    ensures Reached(s')
  {
    Then(s, OfWriter(w, a), s');
  }

  lemma ThenRead(s: State, r: Loop, a: ReadAction, s': State)
    requires Reached(s) && ReadEnabled(s, r, a) && ReadStep(s, r, a) == s'
    ensures Reached(s')
  {
    Then(s, OfReader(r, a), s');
  }

  lemma ThenSend(s: State, a: SenderAction, s': State)
    requires Reached(s) && Enabled(s, OfSender(a)) && SenderStep(s, a) == s'
    ensures Reached(s')
  {
    Then(s, OfSender(a), s');
  }

  lemma ThenShutdown(s: State, a: ShutdownAction, s': State)
    requires Reached(s) && Enabled(s, OfShutdown(a)) && ShutdownStep(s, a) == s'
    ensures Reached(s')
  {
    Then(s, OfShutdown(a), s');
  }

  lemma OneEntry<V>(k: Loop, u: V, v: V)
    ensures map[k := u][k := v] == map[k := v]
    ensures map[k := u] - {k} == map[]
  {
  }

  lemma OneTask(a: Task, b: Task)
    ensures multiset{a} - multiset{a} == multiset{}
    ensures multiset{a} - multiset{a} + multiset{b} == multiset{b}
  {
  }

  lemma TwoTasks(a: Task, b: Task, c: Task)
    ensures multiset{a, b} - multiset{a} == multiset{b}
    ensures multiset{a, b} - multiset{a} + multiset{c} == multiset{b, c}
  {
  }

  // The connection is set up, with an authentication request in the queue.

  const QUEUED1 := Requests([1], {}, 1, {1}, {}, multiset{}, {1}, false)
  const INITIALIZED := INIT.(tasks := multiset{Initialized})
  const READY := State(INITIAL.(req := QUEUED1, connected := true), multiset{ConnectStartWriting}, map[], map[], Idle, true)
  const UP := State(Connection(QUEUED1, LoopTable(Some(1), Some(0), 2, {}, [], {(1, 0)}), true, []),
                    multiset{}, map[0 := Next], map[1 := Check], Idle, true)

  lemma Initializes()
    ensures Reached(INITIALIZED)
  {
    assert IsRun([]) && After([]) == INIT;
    OneTask(Connecting, Initialized);
    ThenConnect(INIT, HeaderWritten, INITIALIZED);
  }

  lemma BecomesReady()
    ensures Reached(READY)
  {
    Initializes();
    var authenticated := INITIALIZED.(c := INITIAL.(req := QUEUED1), tasks := multiset{Authenticated});
    OneTask(Initialized, Authenticated);
    ThenConnect(INITIALIZED, InsertAuthentication, authenticated);
    OneTask(Authenticated, ConnectStartWriting);
    ThenConnect(authenticated, SetConnected, READY);
  }

  lemma ComesUp()
    ensures Reached(UP)
  {
    BecomesReady();
    var loops := LoopTable(None, Some(0), 1, {}, [], {});
    var writing := State(READY.c.(loops := loops), multiset{ConnectStartReading}, map[0 := Next], map[], Idle, true);
    OneTask(ConnectStartWriting, ConnectStartReading);
    assert READY.CallStartWriting().writers == map[0 := Next];
    ThenConnect(READY, FirstWriting, writing);
    OneTask(ConnectStartReading, Connecting);
    assert writing.CallStartReading().readers == map[1 := Check];
    assert loops.StartReading().together == {(1, 0)};
    ThenConnect(writing, FirstReading, UP);
  }

  // The authentication request is sent and answered.

  const LOOPS := UP.c.loops
  const STORED1 := QUEUED1.(messageStore := {1})
  const SENT1 := STORED1.(sendQueue := [])
  const SENT := State(Connection(SENT1, LOOPS, true, [(0, 1)]), multiset{}, map[0 := Writing(1)], map[1 := Check], Idle, true)
  const ANSWERED1 := Requests([], {}, 1, {}, {1}, multiset{1}, {1}, false)
  const ANSWERED := State(Connection(ANSWERED1, LOOPS, true, [(0, 1)]), multiset{},
                          map[0 := Writing(1)], map[1 := Parsing], Idle, true)

  const TAKEN := SENT.(writers := map[0 := StartReader(1)])

  lemma TakesFirst()
    ensures Reached(TAKEN)
  {
    ComesUp();
    var peeked := UP.(dequeue := Peeked(0, 1));
    ThenWrite(UP, 0, Peek, peeked);
    var added := UP.(c := UP.c.(req := STORED1), dequeue := Added(0, 1));
    assert QUEUED1.StoreRequest(1) == STORED1;
    ThenWrite(peeked, 0, AddToStore, added);
    OneEntry(0, Next, StartReader(1));
    assert STORED1.RemoveFirst() == SENT1;
    ThenWrite(added, 0, RemoveFromQueue, TAKEN);
  }

  lemma SendsFirst()
    ensures Reached(SENT)
  {
    TakesFirst();
    OneEntry(0, StartReader(1), Writing(1));
    ThenWrite(TAKEN, 0, WakeReader, SENT);
  }

  lemma AnswersFirst()
    ensures Reached(ANSWERED)
  {
    SendsFirst();
    var reading := SENT.(readers := map[1 := Reading]);
    OneEntry(1, Check, Reading);
    ThenRead(SENT, 1, CheckStop, reading);
    var parsing := SENT.(readers := map[1 := Parsing]);
    OneEntry(1, Reading, Parsing);
    ThenRead(reading, 1, Receive, parsing);
    var found := SENT.(readers := map[1 := Found(1)]);
    OneEntry(1, Parsing, Found(1));
    ThenRead(parsing, 1, Chunk(1), found);
    FinishesFirst(found);
  }

  lemma FinishesFirst(found: State)
    requires found == SENT.(readers := map[1 := Found(1)]) && Reached(found)
    ensures Reached(ANSWERED)
  {
    var removed1 := SENT1.(messageStore := {});
    assert SENT1.RemoveByID(1) == removed1;
    var completing := State(SENT.c.(req := removed1), multiset{}, SENT.writers, map[1 := Completing(1)], Idle, true);
    OneEntry(1, Found(1), Completing(1));
    ThenRead(found, 1, Complete, completing);
    assert removed1.Invoke(1, false).owned == {};
    assert removed1.Invoke(1, false).invoked == {1};
    assert removed1.Invoke(1, false).answered == multiset{1};
    OneEntry(1, Completing(1), Parsing);
    ThenRead(completing, 1, Answer, ANSWERED);
  }

  // A second request is queued, and reading fails: the connection is restarted.

  const QUEUED2 := Requests([2], {}, 2, {2}, {1}, multiset{1}, {1}, false)
  const PENDING := ANSWERED.(c := ANSWERED.c.(req := QUEUED2), tasks := multiset{SenderQueued})
  const LOOPS2 := LoopTable(None, None, 2, {0, 1}, [1], {(1, 0)})
  const RESTARTED := State(Connection(QUEUED2, LOOPS2, true, [(0, 1)]), multiset{ShutdownWriting(true), SenderQueued},
                           map[0 := Writing(1)], map[], Idle, false)

  lemma QueuesSecond()
    ensures Reached(PENDING)
  {
    AnswersFirst();
    assert ANSWERED1.Enqueue() == QUEUED2;
    assert multiset{} + multiset{SenderQueued} == multiset{SenderQueued};
    ThenSend(ANSWERED, Send, PENDING);
  }

  lemma LoopsReset()
    ensures LOOPS.Restart(1, Some(1)) == LOOPS2
  {
    assert LOOPS.Restart(1, Some(1)).past == {0, 1};
  }

  lemma NoLoopToStop()
    ensures LOOPS2.StopWriting() == LOOPS2 && LOOPS2.StopReading() == LOOPS2
  {
    assert LOOPS2.StopWriting().past == LOOPS2.past && LOOPS2.StopReading().past == LOOPS2.past;
  }

  lemma FailsToRead()
    ensures Reached(PENDING.(readers := map[1 := ReadFailed]))
  {
    QueuesSecond();
    var checking := PENDING.(readers := map[1 := Check]);
    OneEntry(1, Parsing, Check);
    ThenRead(PENDING, 1, NoMoreChunks, checking);
    var reading := PENDING.(readers := map[1 := Reading]);
    OneEntry(1, Check, Reading);
    ThenRead(checking, 1, CheckStop, reading);
    OneEntry(1, Reading, ReadFailed);
    ThenRead(reading, 1, ReadFails, PENDING.(readers := map[1 := ReadFailed]));
  }

  lemma Restarts()
    ensures Reached(RESTARTED)
  {
    FailsToRead();
    LoopsReset();
    assert multiset{SenderQueued} + multiset{ShutdownWriting(true)} == multiset{ShutdownWriting(true), SenderQueued};
    OneEntry(1, ReadFailed, Check);
    ThenRead(PENDING.(readers := map[1 := ReadFailed]), 1, RestartAfterRead, RESTARTED);
  }

  // The sender of the second request may also start a write loop at once: the connection then
  // has a current write loop where restartConnection asserts that there is none.

  const STARTED2 := LoopTable(None, Some(2), 3, {0, 1}, [1], {(1, 0)})
  const EARLY := RESTARTED.(c := RESTARTED.c.(loops := STARTED2), tasks := multiset{ShutdownWriting(true)},
                            writers := map[0 := Writing(1), 2 := Next])

  lemma ChecksAtOnce()
    ensures Reached(RESTARTED.(tasks := multiset{SenderStarting, ShutdownWriting(true)}))
  {
    Restarts();
    TwoTasks(SenderQueued, ShutdownWriting(true), SenderStarting);
    ThenSend(RESTARTED, SenderCheck, RESTARTED.(tasks := multiset{SenderStarting, ShutdownWriting(true)}));
  }

  /** There is a run after which the assertions of restartConnection are due although a write loop
      is current: a sender has started it. */
  lemma RestartMayMeetALoop()
    ensures Reached(EARLY) && !AssertionsHold(EARLY) && EARLY.c.loops.writeLoop.Some?
  {
    ChecksAtOnce();
    TwoTasks(SenderStarting, ShutdownWriting(true), SenderStarting);
    assert LOOPS2.StartWriting() == STARTED2;
    assert map[0 := Writing(1)][2 := Next] == map[0 := Writing(1), 2 := Next];
    ThenSend(RESTARTED.(tasks := multiset{SenderStarting, ShutdownWriting(true)}), SenderStart, EARLY);
  }

  // The connection is being set up again when the sender of the second request looks at
  // _connected.

  const STALE := State(Connection(QUEUED2, STARTED2, true, [(0, 1)]), multiset{Initialized},
                       map[0 := Writing(1), 2 := Next], map[], Idle, false)

  lemma StopsWriting()
    ensures Reached(RESTARTED.(tasks := multiset{ShutdownReading(true), SenderQueued}))
  {
    Restarts();
    TwoTasks(ShutdownWriting(true), SenderQueued, ShutdownReading(true));
    NoLoopToStop();
    ThenShutdown(RESTARTED, StopWriting(true), RESTARTED.(tasks := multiset{ShutdownReading(true), SenderQueued}));
  }

  lemma StopsLoops()
    ensures Reached(RESTARTED.(tasks := multiset{ShutdownStore(true), SenderQueued}))
  {
    StopsWriting();
    TwoTasks(ShutdownReading(true), SenderQueued, ShutdownStore(true));
    NoLoopToStop();
    ThenShutdown(RESTARTED.(tasks := multiset{ShutdownReading(true), SenderQueued}), StopReading(true),
                 RESTARTED.(tasks := multiset{ShutdownStore(true), SenderQueued}));
  }

  lemma NothingToCancel()
    ensures QUEUED2.CancelAll() == QUEUED2
  {
    assert QUEUED2.CancelAll().owned == QUEUED2.owned;
    assert QUEUED2.CancelAll().answered == QUEUED2.answered;
  }

  lemma CancelsStore()
    ensures Reached(RESTARTED.(tasks := multiset{Connecting, SenderQueued}))
  {
    StopsLoops();
    TwoTasks(ShutdownStore(true), SenderQueued, Connecting);
    NothingToCancel();
    ThenShutdown(RESTARTED.(tasks := multiset{ShutdownStore(true), SenderQueued}), CancelAll(true),
                 RESTARTED.(tasks := multiset{Connecting, SenderQueued}));
  }

  lemma Reconnects()
    ensures Reached(RESTARTED.(tasks := multiset{SenderQueued, Initialized}))
  {
    CancelsStore();
    TwoTasks(Connecting, SenderQueued, Initialized);
    ThenConnect(RESTARTED.(tasks := multiset{Connecting, SenderQueued}), HeaderWritten,
                RESTARTED.(tasks := multiset{SenderQueued, Initialized}));
  }

  lemma ChecksTooEarly()
    ensures Reached(RESTARTED.(tasks := multiset{SenderStarting, Initialized}))
  {
    Reconnects();
    TwoTasks(SenderQueued, Initialized, SenderStarting);
    ThenSend(RESTARTED.(tasks := multiset{SenderQueued, Initialized}), SenderCheck,
             RESTARTED.(tasks := multiset{SenderStarting, Initialized}));
  }

  lemma StartsTooEarly()
    ensures Reached(STALE)
  {
    ChecksTooEarly();
    TwoTasks(SenderStarting, Initialized, SenderStarting);
    assert map[0 := Writing(1)][2 := Next] == map[0 := Writing(1), 2 := Next];
    ThenSend(RESTARTED.(tasks := multiset{SenderStarting, Initialized}), SenderStart, STALE);
  }

  // The new write loop looks at the front of the queue, and then the next authentication
  // request is inserted there.

  const QUEUED3 := Requests([3, 2], {}, 3, {2, 3}, {1}, multiset{1}, {1, 3}, false)
  const LOST3 := QUEUED3.(sendQueue := [2], messageStore := {2})
  const LOST := State(STALE.c.(req := LOST3, dequeues := [(0, 1), (2, 2)]), multiset{Authenticated},
                      map[0 := Writing(1), 2 := StartReader(2)], map[], Idle, false)

  lemma PeeksTooEarly()
    ensures Reached(STALE.(dequeue := Peeked(2, 2)))
  {
    StartsTooEarly();
    ThenWrite(STALE, 2, Peek, STALE.(dequeue := Peeked(2, 2)));
  }

  lemma InsertsThird()
    ensures QUEUED2.InsertAuth() == QUEUED3
  {
    assert [3] + [2] == [3, 2];
  }

  lemma InsertsInBetween()
    ensures Reached(STALE.(c := STALE.c.(req := QUEUED3), tasks := multiset{Authenticated}, dequeue := Peeked(2, 2)))
  {
    PeeksTooEarly();
    OneTask(Initialized, Authenticated);
    InsertsThird();
    ThenConnect(STALE.(dequeue := Peeked(2, 2)), InsertAuthentication,
                STALE.(c := STALE.c.(req := QUEUED3), tasks := multiset{Authenticated}, dequeue := Peeked(2, 2)));
  }

  lemma RemovesTheWrongOne()
    ensures Reached(LOST)
  {
    InsertsInBetween();
    var inserted := STALE.(c := STALE.c.(req := QUEUED3), tasks := multiset{Authenticated}, dequeue := Peeked(2, 2));
    var stored := QUEUED3.(messageStore := {2});
    assert QUEUED3.StoreRequest(2) == stored;
    var added := inserted.(c := STALE.c.(req := stored), dequeue := Added(2, 2));
    ThenWrite(inserted, 2, AddToStore, added);
    assert stored.RemoveFirst() == LOST3;
    assert map[0 := Writing(1), 2 := Next][2 := StartReader(2)] == map[0 := Writing(1), 2 := StartReader(2)];
    ThenWrite(added, 2, RemoveFromQueue, LOST);
  }

  lemma ThirdIsNowhere()
    ensures Accepted(LOST, 3) && !Queued(LOST, 3) && !Stored(LOST, 3) && !Leaving(LOST, 3) && !Done(LOST, 3)
    ensures !Conserved(LOST)
  {
    assert VstLedger.Answering(LOST) == {};
  }

  /** There is a run after which request 3, an authentication request, is in no place, while
      request 2 has been stored and is still queued. */
  lemma {:induction false} AuthenticationCanBeLost()
    ensures exists run :: IsRun(run) && After(run) == LOST && !RunsOrderly(run)
    ensures !Conserved(LOST) && Accepted(LOST, 3)
    ensures !Queued(LOST, 3) && !Stored(LOST, 3) && !Leaving(LOST, 3) && !Done(LOST, 3)
    ensures Queued(LOST, 2) && Stored(LOST, 2)
  {
    RemovesTheWrongOne();
    ThirdIsNowhere();
    var run :| IsRun(run) && After(run) == LOST;
    ConservedExactlyWhenOrderly(run);
  }

  // The response to the second request arrives while the request is still queued, so that the
  // write loop stores it once more, without its data.

  const LOOPS4 := LoopTable(Some(3), Some(2), 4, {0, 1}, [1], {(1, 0), (3, 2)})
  const RESENT := State(LOST.c.(loops := LOOPS4), multiset{Authenticated},
                        map[0 := Writing(1), 2 := Writing(2)], map[3 := Check], Idle, false)
  const REMOVED2 := LOST3.(messageStore := {})
  const ANSWERED2 := REMOVED2.(owned := {3}, invoked := {1, 2}, answered := multiset{1, 2})
  const REPLIED := RESENT.(c := RESENT.c.(req := ANSWERED2), readers := map[3 := Parsing])
  const STORED2 := ANSWERED2.(messageStore := {2})
  const EMPTIED := State(REPLIED.c.(req := STORED2), multiset{Authenticated},
                         map[0 := Writing(1), 2 := Next], map[3 := Check], Added(2, 2), false)

  lemma TwoEntries<V>(k: Loop, x: V, l: Loop, u: V, v: V)
    requires k != l
    ensures map[k := x, l := u][l := v] == map[k := x, l := v]
  {
  }

  lemma SendsSecond()
    ensures Reached(RESENT)
  {
    RemovesTheWrongOne();
    TwoEntries(0, Writing(1), 2, StartReader(2), Writing(2));
    assert STARTED2.StartReading().together == {(1, 0), (3, 2)};
    assert LOST.CallStartReading().readers == map[3 := Check];
    ThenWrite(LOST, 2, WakeReader, RESENT);
  }

  lemma FindsSecond()
    ensures Reached(RESENT.(readers := map[3 := Found(2)]))
  {
    SendsSecond();
    OneEntry(3, Check, Reading);
    ThenRead(RESENT, 3, CheckStop, RESENT.(readers := map[3 := Reading]));
    OneEntry(3, Reading, Parsing);
    ThenRead(RESENT.(readers := map[3 := Reading]), 3, Receive, RESENT.(readers := map[3 := Parsing]));
    OneEntry(3, Parsing, Found(2));
    ThenRead(RESENT.(readers := map[3 := Parsing]), 3, Chunk(2), RESENT.(readers := map[3 := Found(2)]));
  }

  lemma InvokesSecond()
    ensures LOST3.RemoveByID(2) == REMOVED2 && REMOVED2.Invoke(2, false) == ANSWERED2
  {
    assert REMOVED2.Invoke(2, false).owned == {3};
    assert REMOVED2.Invoke(2, false).invoked == {1, 2};
    assert REMOVED2.Invoke(2, false).answered == multiset{1, 2};
  }

  lemma RemovesSecond()
    ensures Reached(RESENT.(c := RESENT.c.(req := REMOVED2), readers := map[3 := Completing(2)]))
  {
    FindsSecond();
    InvokesSecond();
    OneEntry(3, Found(2), Completing(2));
    ThenRead(RESENT.(readers := map[3 := Found(2)]), 3, Complete,
             RESENT.(c := RESENT.c.(req := REMOVED2), readers := map[3 := Completing(2)]));
  }

  lemma AnswersSecond()
    ensures Reached(REPLIED)
  {
    RemovesSecond();
    InvokesSecond();
    OneEntry(3, Completing(2), Parsing);
    ThenRead(RESENT.(c := RESENT.c.(req := REMOVED2), readers := map[3 := Completing(2)]), 3, Answer, REPLIED);
  }

  const NEXT2 := map[0 := Writing(1), 2 := Next]

  lemma PeeksSecondAgain()
    ensures Reached(REPLIED.(writers := NEXT2, dequeue := Peeked(2, 2)))
  {
    AnswersSecond();
    TwoEntries(0, Writing(1), 2, Writing(2), Next);
    ThenWrite(REPLIED, 2, Written, REPLIED.(writers := NEXT2));
    ThenWrite(REPLIED.(writers := NEXT2), 2, Peek, REPLIED.(writers := NEXT2, dequeue := Peeked(2, 2)));
  }

  lemma StoresSecondAgain()
    ensures Reached(EMPTIED.(readers := map[3 := Parsing]))
  {
    PeeksSecondAgain();
    assert ANSWERED2.StoreRequest(2) == STORED2;
    ThenWrite(REPLIED.(writers := NEXT2, dequeue := Peeked(2, 2)), 2, AddToStore, EMPTIED.(readers := map[3 := Parsing]));
  }

  /** There is a run after which the current read loop is about to ask for the least timeout of the
      stored requests, and request 2 in the store has been handed over. */
  lemma StoredMayBeHandedOver()
    ensures Reached(EMPTIED) && !StoredOwn(EMPTIED) && Stored(EMPTIED, 2) && 2 !in EMPTIED.c.req.owned
    ensures Enabled(EMPTIED, OfReader(3, CheckStop)) && !EMPTIED.c.MustStopReading(3)
  {
    StoresSecondAgain();
    OneEntry(3, Parsing, Check);
    ThenRead(EMPTIED.(readers := map[3 := Parsing]), 3, NoMoreChunks, EMPTIED);
    assert 2 in EMPTIED.c.req.messageStore;
  }

  // Without any sender: the write loop has taken the first request and is about to call
  // startReading when the deadline of the read loop restarts the connection.

  const WAITING := TAKEN.(readers := map[1 := Reading])
  const LATE := State(TAKEN.c.(loops := LOOPS2), multiset{ShutdownWriting(true)},
                      TAKEN.writers, WAITING.readers, Idle, false)
  const LOOPS3 := LoopTable(Some(2), None, 3, {0, 1}, [1], {(1, 0)})
  const WOKEN := State(SENT.c.(loops := LOOPS3), multiset{ShutdownWriting(true)},
                       map[0 := Writing(1)], map[1 := Reading, 2 := Check], Idle, false)

  lemma TimesOut()
    ensures Reached(LATE)
  {
    TakesFirst();
    OneEntry(1, Check, Reading);
    ThenRead(TAKEN, 1, CheckStop, WAITING);
    LoopsReset();
    assert multiset{} + multiset{ShutdownWriting(true)} == multiset{ShutdownWriting(true)};
    ThenRead(WAITING, 1, ReadDeadline, LATE);
  }

  /** There is a run after which the assertions are due although a read loop is current: a write
      loop that was no longer current has started it. */
  lemma RestartMayMeetAReadLoop()
    ensures Reached(WOKEN) && !AssertionsHold(WOKEN) && WOKEN.c.loops.readLoop.Some?
  {
    TimesOut();
    OneEntry(0, StartReader(1), Writing(1));
    assert LOOPS2.StartReading() == LOOPS3;
    assert map[1 := Reading][2 := Check] == map[1 := Reading, 2 := Check];
    ThenWrite(LATE, 0, WakeReader, WOKEN);
  }

  // Or the restart goes on and cancels the request before the write loop has looked at it.

  const CANCELLED1 := Requests([], {}, 1, {}, {1}, multiset{1}, {1}, true)
  const GONE := State(LATE.c.(req := CANCELLED1), multiset{}, TAKEN.writers, WAITING.readers, Idle, false)

  lemma StopsLateLoops()
    ensures Reached(LATE.(tasks := multiset{ShutdownStore(true)}))
  {
    TimesOut();
    var reading := LATE.(tasks := multiset{ShutdownReading(true)});
    OneTask(ShutdownWriting(true), ShutdownReading(true));
    NoLoopToStop();
    ThenShutdown(LATE, StopWriting(true), reading);
    OneTask(ShutdownReading(true), ShutdownStore(true));
    NoLoopToStop();
    ThenShutdown(reading, StopReading(true), LATE.(tasks := multiset{ShutdownStore(true)}));
  }

  lemma CancelsFirst()
    ensures SENT1.CancelAll() == CANCELLED1
  {
    assert SENT1.CancelAll().owned == {};
    assert SENT1.CancelAll().invoked == {1};
    assert SENT1.CancelAll().answered == multiset{1};
    assert 1 in (SENT1.messageStore - SENT1.invoked) * SENT1.auth;
  }

  /** There is a run after which a write loop is about to start a read loop and then to look at the
      timeout of request 1, which cancelAll has handed over. */
  lemma TakenMayBeHandedOver()
    ensures Reached(GONE) && Enabled(GONE, OfWriter(0, WakeReader))
    ensures WriterHolds(GONE.writers[0]) == Some(1) && 1 !in GONE.c.req.owned
  {
    StopsLateLoops();
    OneTask(ShutdownStore(true), Connecting);
    CancelsFirst();
    ThenShutdown(LATE.(tasks := multiset{ShutdownStore(true)}), CancelAll(true), GONE);
  }
}
