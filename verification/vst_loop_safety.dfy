/** Read and write loops over whole runs: who is current, who restarts the connection, and
    that no queued or sent request is left without a loop while a connection is up. */
module VstLoopSafety {
  import opened Bytes
  import opened VstConnections
  import opened VstConnectionRuns

  /** A loop is current or past, restarts only when it stops being current, and of two loops
      that were current together at most one restarts. */
  ghost predicate LoopsTracked(c: LoopTable) {
    && (c.readLoop.Some? ==> c.readLoop.value < c.nextLoop && c.readLoop.value !in c.past)
    && (c.writeLoop.Some? ==> c.writeLoop.value < c.nextLoop && c.writeLoop.value !in c.past)
    && (c.readLoop.Some? ==> c.readLoop != c.writeLoop)
    && (forall l: Loop :: l in c.past ==> l < c.nextLoop)
    && (forall l: Loop :: l < c.nextLoop ==> l in c.past || c.readLoop == Some(l) || c.writeLoop == Some(l))
    && (forall l :: l in c.restarts ==> l in c.past)
    && (forall i, j :: 0 <= i < j < |c.restarts| ==> c.restarts[i] != c.restarts[j])
    && (forall p :: p in c.together ==>
          && p.0 < c.nextLoop && p.1 < c.nextLoop && p.0 != p.1
          && (p.0 in c.restarts ==> p.1 in c.past)
          && (p.1 in c.restarts ==> p.0 in c.past)
          && !(p.0 in c.restarts && p.1 in c.restarts))
  }

  /** The holder of the write-loop lock is the current write loop. */
  ghost predicate LockHeld(s: State) {
    !s.dequeue.Idle? ==> s.c.loops.writeLoop == Some(s.dequeue.w) && s.WriterAt(s.dequeue.w, Next)
  }

  /** A current loop has a thread. */
  ghost predicate LoopsRun(s: State) {
    && (s.c.loops.writeLoop.Some? && !s.c.req.failure ==> s.c.loops.writeLoop.value in s.writers)
    && (s.c.loops.readLoop.Some? && !s.c.req.failure ==> s.c.loops.readLoop.value in s.readers)
    && (forall w :: w in s.writers ==> w < s.c.loops.nextLoop)
    && (forall r :: r in s.readers ==> r < s.c.loops.nextLoop)
  }

  lemma StartsTracked(c: LoopTable)
    requires LoopsTracked(c)
    ensures LoopsTracked(c.StartWriting())
    ensures LoopsTracked(c.StartReading())
  {
  }

  lemma StopsTracked(c: LoopTable)
    requires LoopsTracked(c)
    ensures LoopsTracked(c.StopWriting())
    ensures LoopsTracked(c.StopReading())
  {
  }

  lemma RestartTracked(c: LoopTable, loop: Loop, current: Option<Loop>)
    requires LoopsTracked(c) && (current == c.readLoop || current == c.writeLoop)
    ensures LoopsTracked(c.Restart(loop, current))
  {
    var c' := c.Restart(loop, current);
    if current == Some(loop) {
      forall p | p in c.together
        ensures p.0 in c'.restarts ==> p.1 in c'.past
        ensures p.1 in c'.restarts ==> p.0 in c'.past
        ensures !(p.0 in c'.restarts && p.1 in c'.restarts)
      {
        assert loop !in c.restarts;
      }
    }
  }

  /** What a step may do to the loops. */
  ghost predicate LoopStep(c: LoopTable, c': LoopTable) {
    || c' == c
    || c' == c.StartWriting() || c' == c.StartReading()
    || c' == c.StopWriting() || c' == c.StopReading()
    || (exists l :: c' == c.Restart(l, c.writeLoop))
    || (exists l :: c' == c.Restart(l, c.readLoop))
  }

  lemma WriteOnLoops(s: State, w: Loop, a: WriteAction)
    requires WriteEnabled(s, w, a)
    ensures LoopStep(s.c.loops, WriteStep(s, w, a).c.loops)
  {
    if a.RestartAfterWrite? || a.WriteDeadline? {
      assert WriteStep(s, w, a).c.loops == s.c.loops.Restart(w, s.c.loops.writeLoop);
    }
  }

  lemma ReadOnLoops(s: State, r: Loop, a: ReadAction)
    requires ReadEnabled(s, r, a)
    ensures LoopStep(s.c.loops, ReadStep(s, r, a).c.loops) && ReadStep(s, r, a).c.dequeues == s.c.dequeues
  {
    if a.RestartAfterRead? || a.ReadDeadline? {
      assert ReadStep(s, r, a).c.loops == s.c.loops.Restart(r, s.c.loops.readLoop);
    }
  }

  lemma SenderOnLoops(s: State, a: SenderAction)
    ensures LoopStep(s.c.loops, SenderStep(s, a).c.loops) && SenderStep(s, a).c.dequeues == s.c.dequeues
  {
  }

  lemma ConnectOnLoops(s: State, a: ConnectAction)
    ensures LoopStep(s.c.loops, ConnectStep(s, a).c.loops) && ConnectStep(s, a).c.dequeues == s.c.dequeues
  {
  }

  lemma ShutdownOnLoops(s: State, a: ShutdownAction)
    ensures LoopStep(s.c.loops, ShutdownStep(s, a).c.loops) && ShutdownStep(s, a).c.dequeues == s.c.dequeues
  {
  }

  lemma StepOnLoops(s: State, a: Action)
    requires Enabled(s, a)
    ensures LoopStep(s.c.loops, Step(s, a).c.loops)
  {
    match a {
      case OfSender(sender) => SenderOnLoops(s, sender);
      case OfConnect(connect) => ConnectOnLoops(s, connect);
      case OfShutdown(shutdown) => ShutdownOnLoops(s, shutdown);
      case OfWriter(w, write) => WriteOnLoops(s, w, write);
      case OfReader(r, read) => ReadOnLoops(s, r, read);
    }
  }

  lemma {:induction false} LoopsStayTracked(s: State, a: Action)
    requires LoopsTracked(s.c.loops) && Enabled(s, a)
    ensures LoopsTracked(Step(s, a).c.loops)
  {
    var c, c' := s.c.loops, Step(s, a).c.loops;
    StepOnLoops(s, a);
    StartsTracked(c);
    StopsTracked(c);
    if l :| c' == c.Restart(l, c.writeLoop) {
      RestartTracked(c, l, c.writeLoop);
    }
    if l :| c' == c.Restart(l, c.readLoop) {
      RestartTracked(c, l, c.readLoop);
    }
  }

  // Threads of the loops

  ghost predicate ThreadsInPlace(s: State) {
    LoopsTracked(s.c.loops) && LockHeld(s) && LoopsRun(s)
  }

  lemma SenderKeepsThreads(s: State, a: SenderAction)
    requires ThreadsInPlace(s) && Enabled(s, OfSender(a))
    ensures LockHeld(SenderStep(s, a)) && LoopsRun(SenderStep(s, a))
  {
  }

  predicate StartsLoop(a: ConnectAction) {
    a.FirstWriting? || a.FirstReading?
  }

  lemma SetupKeepsThreads(s: State, a: ConnectAction)
    requires ThreadsInPlace(s) && ConnectEnabled(s, a) && !StartsLoop(a)
    ensures LockHeld(ConnectStep(s, a)) && LoopsRun(ConnectStep(s, a))
  {
  }

  lemma FirstWritingKeepsThreads(s: State)
    requires ThreadsInPlace(s) && ConnectEnabled(s, FirstWriting)
    ensures LockHeld(ConnectStep(s, FirstWriting)) && LoopsRun(ConnectStep(s, FirstWriting))
  {
  }

  lemma FirstReadingKeepsThreads(s: State)
    requires ThreadsInPlace(s) && ConnectEnabled(s, FirstReading)
    ensures LockHeld(ConnectStep(s, FirstReading)) && LoopsRun(ConnectStep(s, FirstReading))
  {
  }

  lemma ConnectKeepsThreads(s: State, a: ConnectAction)
    requires ThreadsInPlace(s) && ConnectEnabled(s, a)
    ensures LockHeld(ConnectStep(s, a)) && LoopsRun(ConnectStep(s, a))
  {
    match a {
      case FirstWriting => FirstWritingKeepsThreads(s);
      case FirstReading => FirstReadingKeepsThreads(s);
      case _ => SetupKeepsThreads(s, a);
    }
  }

  lemma ShutdownKeepsThreads(s: State, a: ShutdownAction)
    requires ThreadsInPlace(s) && Enabled(s, OfShutdown(a))
    ensures LockHeld(ShutdownStep(s, a)) && LoopsRun(ShutdownStep(s, a))
  {
  }

  lemma WriteKeepsLock(s: State, w: Loop, a: WriteAction)
    requires ThreadsInPlace(s) && WriteEnabled(s, w, a)
    ensures LockHeld(WriteStep(s, w, a))
  {
  }

  lemma WriteKeepsLoops(s: State, w: Loop, a: WriteAction)
    requires ThreadsInPlace(s) && WriteEnabled(s, w, a)
    ensures LoopsRun(WriteStep(s, w, a))
  {
  }

  lemma ReadKeepsLock(s: State, r: Loop, a: ReadAction)
    requires ThreadsInPlace(s) && ReadEnabled(s, r, a)
    ensures LockHeld(ReadStep(s, r, a))
  {
  }

  lemma ReadKeepsLoops(s: State, r: Loop, a: ReadAction)
    requires ThreadsInPlace(s) && ReadEnabled(s, r, a)
    ensures LoopsRun(ReadStep(s, r, a))
  {
  }

  lemma {:induction false} ThreadsStayInPlace(s: State, a: Action)
    requires ThreadsInPlace(s) && Enabled(s, a)
    ensures ThreadsInPlace(Step(s, a))
  {
    LoopsStayTracked(s, a);
    match a {
      case OfSender(sender) => SenderKeepsThreads(s, sender);
      case OfConnect(connect) => ConnectKeepsThreads(s, connect);
      case OfShutdown(shutdown) => ShutdownKeepsThreads(s, shutdown);
      case OfWriter(w, write) =>
        WriteKeepsLock(s, w, write);
        WriteKeepsLoops(s, w, write);
      case OfReader(r, read) =>
        ReadKeepsLock(s, r, read);
        ReadKeepsLoops(s, r, read);
    }
  }

  // No request without a loop

  /** Some thread is still about to call startWriting. */
  ghost predicate WriterComing(s: State) {
    SenderQueued in s.tasks || SenderStarting in s.tasks || Authenticated in s.tasks || ConnectStartWriting in s.tasks
  }

  /** Some thread is still about to call startReading. */
  ghost predicate ReaderComing(s: State) {
    || ConnectStartWriting in s.tasks || ConnectStartReading in s.tasks
    || s.dequeue.Added?
    || exists w :: w in s.writers && s.writers[w].StartReader?
  }

  /** While a connection is up, queued requests have a write loop that has not yet seen the
      queue empty, and stored ones a read loop, or one is coming. */
  ghost predicate Watched(s: State) {
    s.epoch && !s.c.req.failure ==>
      && s.c.connected
      && (s.c.req.sendQueue != [] ==> WriterComing(s) || (s.c.loops.writeLoop.Some? && !s.dequeue.SawEmpty?))
      && (s.c.req.messageStore != {} ==> ReaderComing(s) || s.c.loops.readLoop.Some?)
  }

  lemma SenderStartKeepsWatch(s: State)
    requires ThreadsInPlace(s) && Watched(s) && Enabled(s, OfSender(SenderStart))
    ensures Watched(SenderStep(s, SenderStart))
  {
    var s' := SenderStep(s, SenderStart);
    if u :| u in s.writers && s.writers[u].StartReader? {
      assert u in s'.writers && s'.writers[u].StartReader?;
    }
  }

  lemma SenderKeepsWatch(s: State, a: SenderAction)
    requires ThreadsInPlace(s) && Watched(s) && Enabled(s, OfSender(a)) && !a.SenderStart?
    ensures Watched(SenderStep(s, a))
  {
    var s' := SenderStep(s, a);
    if u :| u in s.writers && s.writers[u].StartReader? {
      assert u in s'.writers && s'.writers[u].StartReader?;
    }
  }

  lemma SetupKeepsWatch(s: State, a: ConnectAction)
    requires ThreadsInPlace(s) && Watched(s) && ConnectEnabled(s, a) && !StartsLoop(a)
    ensures Watched(ConnectStep(s, a))
  {
  }

  lemma FirstWritingKeepsWatch(s: State)
    requires ThreadsInPlace(s) && Watched(s) && ConnectEnabled(s, FirstWriting)
    ensures Watched(ConnectStep(s, FirstWriting))
  {
  }

  lemma FirstReadingKeepsWatch(s: State)
    requires ThreadsInPlace(s) && Watched(s) && ConnectEnabled(s, FirstReading)
    ensures Watched(ConnectStep(s, FirstReading))
  {
  }

  lemma WriteKeepsWatch(s: State, w: Loop, a: WriteAction)
    requires ThreadsInPlace(s) && Watched(s) && WriteEnabled(s, w, a)
    ensures Watched(WriteStep(s, w, a))
  {
    var s' := WriteStep(s, w, a);
    if u :| u in s.writers && s.writers[u].StartReader? && !(u == w && a.WakeReader?) {
      assert u in s'.writers && s'.writers[u].StartReader?;
    }
    if a.RemoveFromQueue? {
      assert w in s'.writers && s'.writers[w].StartReader?;
    }
  }

  lemma ReadKeepsWatch(s: State, r: Loop, a: ReadAction)
    requires ThreadsInPlace(s) && Watched(s) && ReadEnabled(s, r, a)
    ensures Watched(ReadStep(s, r, a))
  {
  }

  lemma StaysWatched(s: State, a: Action)
    requires ThreadsInPlace(s) && Watched(s) && Enabled(s, a)
    ensures Watched(Step(s, a))
  {
    match a {
      case OfSender(sender) =>
        if sender.SenderStart? {
          SenderStartKeepsWatch(s);
        } else {
          SenderKeepsWatch(s, sender);
        }
      case OfConnect(connect) =>
        match connect {
          case FirstWriting => FirstWritingKeepsWatch(s);
          case FirstReading => FirstReadingKeepsWatch(s);
          case _ => SetupKeepsWatch(s, connect);
        }
      case OfShutdown(shutdown) =>
      case OfWriter(w, write) => WriteKeepsWatch(s, w, write);
      case OfReader(r, read) => ReadKeepsWatch(s, r, read);
    }
  }

  lemma {:induction false} RunsAreWatched(actions: seq<Action>)
    requires IsRun(actions)
    ensures ThreadsInPlace(After(actions)) && Watched(After(actions))
  {
    if actions != [] {
      var before := actions[..|actions| - 1];
      RunsAreWatched(before);
      ThreadsStayInPlace(After(before), actions[|actions| - 1]);
      StaysWatched(After(before), actions[|actions| - 1]);
    }
  }

  /** No lost write wake-up: as long as the connection is up, a queued request has a current
      write loop with a running thread, or a thread is about to call startWriting. */
  lemma {:induction false} NoLostWriteWakeUp(actions: seq<Action>)
    requires IsRun(actions)
    ensures var s := After(actions);
            s.epoch && !s.c.req.failure && s.c.req.sendQueue != [] ==>
              WriterComing(s) || (s.c.loops.writeLoop.Some? && s.c.loops.writeLoop.value in s.writers)
  {
    RunsAreWatched(actions);
  }

  /** As long as the connection is up, a request in the store has a current read loop with a
      running thread, or a thread is about to call startReading. */
  lemma {:induction false} NoResponseWithoutReader(actions: seq<Action>)
    requires IsRun(actions)
    ensures var s := After(actions);
            s.epoch && !s.c.req.failure && s.c.req.messageStore != {} ==>
              ReaderComing(s) || (s.c.loops.readLoop.Some? && s.c.loops.readLoop.value in s.readers)
  {
    RunsAreWatched(actions);
  }

  // Restarts

  /** From c to c', loop l stays past, restarts nothing and takes no request. */
  ghost predicate IsOver(l: Loop, c: Connection, c': Connection) {
    && l in c'.loops.past && c'.loops.readLoop != Some(l) && c'.loops.writeLoop != Some(l)
    && c.loops.restarts <= c'.loops.restarts && c.dequeues <= c'.dequeues
    && (forall k :: |c.loops.restarts| <= k < |c'.loops.restarts| ==> c'.loops.restarts[k] != l)
    && (forall k :: |c.dequeues| <= k < |c'.dequeues| ==> c'.dequeues[k].0 != l)
  }

  lemma LoopStepLeavesPast(c: LoopTable, c': LoopTable, l: Loop)
    requires LoopsTracked(c) && LoopsTracked(c') && LoopStep(c, c') && l in c.past
    ensures l in c'.past && c.restarts <= c'.restarts
    ensures forall k :: |c.restarts| <= k < |c'.restarts| ==> c'.restarts[k] != l
  {
  }

  lemma WriteDequeues(s: State, w: Loop, a: WriteAction)
    requires LockHeld(s) && WriteEnabled(s, w, a)
    ensures var c, c' := s.c, WriteStep(s, w, a).c;
            if a.RemoveFromQueue? then c'.dequeues == c.dequeues + [(w, s.dequeue.id)] && c.loops.writeLoop == Some(w)
            else c'.dequeues == c.dequeues
  {
  }

  lemma OthersDoNotDequeue(s: State, a: Action)
    requires Enabled(s, a) && !a.OfWriter?
    ensures Step(s, a).c.dequeues == s.c.dequeues
  {
    match a {
      case OfSender(sender) => SenderOnLoops(s, sender);
      case OfConnect(connect) => ConnectOnLoops(s, connect);
      case OfShutdown(shutdown) => ShutdownOnLoops(s, shutdown);
      case OfReader(r, read) => ReadOnLoops(s, r, read);
    }
  }

  lemma StepLeavesPast(s: State, a: Action, l: Loop)
    requires ThreadsInPlace(s) && Enabled(s, a) && l in s.c.loops.past
    ensures IsOver(l, s.c, Step(s, a).c)
  {
    StepOnLoops(s, a);
    LoopsStayTracked(s, a);
    LoopStepLeavesPast(s.c.loops, Step(s, a).c.loops, l);
    if a.OfWriter? {
      WriteDequeues(s, a.w, a.write);
    } else {
      OthersDoNotDequeue(s, a);
    }
  }

  lemma OverIsTransitive(l: Loop, c: Connection, c': Connection, c'': Connection)
    requires IsOver(l, c, c') && IsOver(l, c', c'')
    ensures IsOver(l, c, c'')
  {
  }

  /** A loop that has stopped being current never becomes current again, never takes a request
      from the queue and never restarts the connection, whatever happens later. */
  lemma {:induction false} PastLoopsAreOver(actions: seq<Action>, n: nat, l: Loop)
    requires IsRun(actions) && n <= |actions|
    requires l in At(actions, n).c.loops.past
    ensures IsOver(l, At(actions, n).c, After(actions).c)
  {
    var m := |actions| - 1;
    if n == |actions| {
      AtPrefix(actions, n, n);
      RunsAreWatched(actions);
    } else {
      AtPrefix(actions, n, m);
      PastLoopsAreOver(actions[..m], n, l);
      RunsAreWatched(actions[..m]);
      StepLeavesPast(After(actions[..m]), actions[m], l);
      OverIsTransitive(l, At(actions, n).c, After(actions[..m]).c, After(actions).c);
    }
  }

  /** Over a whole run, no loop causes two restarts, and a read loop and a write loop that
      were ever current together cause at most one between them. */
  lemma {:induction false} RestartsAreSingle(actions: seq<Action>)
    requires IsRun(actions)
    ensures var c := After(actions).c.loops;
            && (forall i, j :: 0 <= i < j < |c.restarts| ==> c.restarts[i] != c.restarts[j])
            && (forall p :: p in c.together ==> !(p.0 in c.restarts && p.1 in c.restarts))
  {
    RunsAreWatched(actions);
  }
}
