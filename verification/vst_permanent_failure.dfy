/** What a permanent failure does to a connection: where it comes from, and that it ends the loops. */
module VstPermanentFailure {
  import opened Bytes
  import opened VstConnections
  import opened VstConnectionRuns
  import opened VstDequeue
  import opened VstLoopSafety

  // Where it comes from

  /** An authentication request that has not been answered yet is answered with an error: because
      it could not be written, or by cancelAll. */
  predicate AuthenticationFails(s: State, a: Action) {
    var open := s.c.req.auth - s.c.req.invoked;
    match a
    case OfWriter(w, AnswerFailed) => exists id :: id in open && s.WriterAt(w, Writer.Answering(id))
    case OfShutdown(CancelAll(_)) => exists id :: id in open && id in s.c.req.messageStore
    case _ => false
  }

  lemma WriteOnFailure(s: State, w: Loop, a: WriteAction)
    requires WriteEnabled(s, w, a)
    ensures WriteStep(s, w, a).c.req.failure <==> s.c.req.failure || AuthenticationFails(s, OfWriter(w, a))
  {
    if a.AnswerFailed? {
      assert s.WriterAt(w, Writer.Answering(s.writers[w].id));
    }
  }

  lemma ReadOnFailure(s: State, r: Loop, a: ReadAction)
    requires ReadEnabled(s, r, a)
    ensures ReadStep(s, r, a).c.req.failure == s.c.req.failure
  {
  }

  lemma ConnectOnFailure(s: State, a: ConnectAction)
    requires ConnectEnabled(s, a)
    ensures ConnectStep(s, a).c.req.failure == s.c.req.failure
  {
  }

  lemma ShutdownOnFailure(s: State, a: ShutdownAction)
    requires Enabled(s, OfShutdown(a))
    ensures ShutdownStep(s, a).c.req.failure <==> s.c.req.failure || AuthenticationFails(s, OfShutdown(a))
  {
    if a.CancelAll? {
      var open := (s.c.req.messageStore - s.c.req.invoked) * s.c.req.auth;
      assert open != {} <==> exists id :: id in open;
      assert forall id :: id in open <==> id in s.c.req.auth - s.c.req.invoked && id in s.c.req.messageStore;
    }
  }

  lemma StepOnFailure(s: State, a: Action)
    requires Enabled(s, a)
    ensures Step(s, a).c.req.failure <==> s.c.req.failure || AuthenticationFails(s, a)
  {
    match a {
      case OfSender(sender) =>
      case OfConnect(connect) => ConnectOnFailure(s, connect);
      case OfShutdown(shutdown) => ShutdownOnFailure(s, shutdown);
      case OfWriter(w, write) => WriteOnFailure(s, w, write);
      case OfReader(r, read) => ReadOnFailure(s, r, read);
    }
  }

  /** Authentication has failed at some step of the run. */
  ghost predicate AuthenticationHasFailed(actions: seq<Action>)
    requires IsRun(actions)
  {
    actions != [] &&
    (AuthenticationHasFailed(actions[..|actions| - 1])
     || AuthenticationFails(After(actions[..|actions| - 1]), actions[|actions| - 1]))
  }

  /** For every run: a permanent failure is in force if and only if authentication has failed. */
  lemma {:induction false} FailureExactlyWhenAuthenticationFailed(actions: seq<Action>)
    requires IsRun(actions)
    ensures After(actions).c.req.failure <==> AuthenticationHasFailed(actions)
  {
    if actions != [] {
      var m := |actions| - 1;
      FailureExactlyWhenAuthenticationFailed(actions[..m]);
      StepOnFailure(After(actions[..m]), actions[m]);
    }
  }

  // What it does

  /** Since s, at most the request that was being taken there has been taken. */
  predicate NothingTaken(s: State, s': State) {
    && s'.c.req.failure
    && (if MovingId(s'.dequeue).Some? then
          && MovingId(s.dequeue) == MovingId(s'.dequeue) && s.dequeue.w == s'.dequeue.w
          && s'.c.dequeues == s.c.dequeues
        else
          || s'.c.dequeues == s.c.dequeues
          || (MovingId(s.dequeue).Some? && s'.c.dequeues == s.c.dequeues + [(s.dequeue.w, s.dequeue.id)]))
  }

  lemma WriteTakesNothing(start: State, s: State, w: Loop, a: WriteAction)
    requires NothingTaken(start, s) && WriteEnabled(s, w, a)
    ensures NothingTaken(start, WriteStep(s, w, a))
  {
  }

  lemma OthersTakeNothing(start: State, s: State, a: Action)
    requires NothingTaken(start, s) && Enabled(s, a) && !a.OfWriter?
    ensures NothingTaken(start, Step(s, a))
  {
    OthersDoNotDequeue(s, a);
    StepOnFailure(s, a);
    OthersDoNotMove(s, a);
  }

  lemma OthersDoNotMove(s: State, a: Action)
    requires Enabled(s, a) && !a.OfWriter?
    ensures Step(s, a).dequeue == s.dequeue
  {
    match a {
      case OfSender(sender) => assert SenderStep(s, sender).dequeue == s.dequeue;
      case OfConnect(connect) => ConnectIsHarmless(s, connect);
      case OfShutdown(shutdown) => assert ShutdownStep(s, shutdown).dequeue == s.dequeue;
      case OfReader(r, read) => ReadIsHarmless(s, r, read);
    }
  }

  lemma MoveSetsUpNothing(s: State, from: Task, to: Task)
    requires to != Connecting
    ensures s.Move(from, to).tasks[Connecting] <= s.tasks[Connecting]
  {
  }

  lemma ConnectSetsUpNothing(s: State, a: ConnectAction)
    requires ConnectEnabled(s, a)
    ensures ConnectStep(s, a).tasks[Connecting] <= s.tasks[Connecting]
  {
    match a {
      case ConnectAbandoned =>
      case ConnectFailed => MoveSetsUpNothing(s, Connecting, ShutdownWriting(false));
      case HeaderFailed => MoveSetsUpNothing(s, Connecting, ShutdownWriting(false));
      case HeaderWritten => MoveSetsUpNothing(s, Connecting, Initialized);
      case InsertAuthentication => MoveSetsUpNothing(s, Initialized, Authenticated);
      case NoAuthentication => MoveSetsUpNothing(s, Initialized, Authenticated);
      case SetConnected => MoveSetsUpNothing(s, Authenticated, ConnectStartWriting);
      case FirstWriting => MoveSetsUpNothing(s, ConnectStartWriting, ConnectStartReading);
      case FirstReading =>
    }
  }

  lemma ShutdownSetsUpNothing(s: State, a: ShutdownAction)
    requires Enabled(s, OfShutdown(a)) && ShutdownStep(s, a).c.req.failure
    ensures ShutdownStep(s, a).tasks[Connecting] <= s.tasks[Connecting]
  {
    match a {
      case StopWriting(b) => MoveSetsUpNothing(s, ShutdownWriting(b), ShutdownReading(b));
      case StopReading(b) => MoveSetsUpNothing(s, ShutdownReading(b), ShutdownStore(b));
      case CancelAll(b) =>
    }
  }

  lemma SenderSetsUpNothing(s: State, a: SenderAction)
    ensures SenderStep(s, a).tasks[Connecting] <= s.tasks[Connecting]
  {
    if a.SenderCheck? {
      MoveSetsUpNothing(s, SenderQueued, SenderStarting);
    }
  }

  lemma WriteSetsUpNothing(s: State, w: Loop, a: WriteAction)
    requires WriteEnabled(s, w, a)
    ensures WriteStep(s, w, a).tasks[Connecting] == s.tasks[Connecting]
  {
  }

  lemma ReadSetsUpNothing(s: State, r: Loop, a: ReadAction)
    requires ReadEnabled(s, r, a)
    ensures ReadStep(s, r, a).tasks[Connecting] == s.tasks[Connecting]
  {
  }

  lemma NoSetUp(s: State, a: Action)
    requires Enabled(s, a) && Step(s, a).c.req.failure
    ensures Step(s, a).tasks[Connecting] <= s.tasks[Connecting]
  {
    match a {
      case OfSender(sender) => SenderSetsUpNothing(s, sender);
      case OfConnect(connect) => ConnectSetsUpNothing(s, connect);
      case OfShutdown(shutdown) => ShutdownSetsUpNothing(s, shutdown);
      case OfWriter(w, write) => WriteSetsUpNothing(s, w, write);
      case OfReader(r, read) => ReadSetsUpNothing(s, r, read);
    }
  }

  /** Over every run: a permanent failure stays, no connection is set up again, and no request is
      taken from the queue any more, except for the one that getNextRequestToSend may have been
      moving when the failure was declared. */
  lemma {:induction false} NothingIsSentAfterFailure(actions: seq<Action>, n: nat)
    requires IsRun(actions) && n <= |actions| && At(actions, n).c.req.failure
    ensures NothingTaken(At(actions, n), After(actions))
    ensures After(actions).tasks[Connecting] <= At(actions, n).tasks[Connecting]
  {
    if n == |actions| {
      AtPrefix(actions, n, n);
    } else {
      var m := |actions| - 1;
      AtPrefix(actions, n, m);
      NothingIsSentAfterFailure(actions[..m], n);
      if actions[m].OfWriter? {
        WriteTakesNothing(At(actions, n), After(actions[..m]), actions[m].w, actions[m].write);
      } else {
        OthersTakeNothing(At(actions, n), After(actions[..m]), actions[m]);
      }
      NoSetUp(After(actions[..m]), actions[m]);
    }
  }

  // The ends of the loops

  /** The n-th step is the check of a read loop whether it must stop. */
  ghost predicate ChecksAt(actions: seq<Action>, n: nat, r: Loop) {
    IsRun(actions) && n < |actions| && actions[n] == OfReader(r, CheckStop)
  }

  /** The n-th step is the start of getNextRequestToSend in a write loop. */
  ghost predicate PeeksAt(actions: seq<Action>, n: nat, w: Loop) {
    IsRun(actions) && n < |actions| && actions[n] == OfWriter(w, Peek)
  }

  /** Over every run: the thread of a read loop ends with its check exactly if another loop or none
      is current, if there is a permanent failure, or if nothing is left to be sent or answered; only
      in the last case the loop also stops being current. */
  lemma ReadLoopEndsExactlyWhen(actions: seq<Action>, n: nat, r: Loop)
    requires ChecksAt(actions, n, r)
    ensures var s, s' := At(actions, n), At(actions, n + 1);
            var idle := s.c.req.messageStore == {} && s.c.req.sendQueue == [];
            && r in s.readers
            && (r !in s'.readers <==> s.c.loops.readLoop != Some(r) || s.c.req.failure || idle)
            && (r in s'.readers ==> s'.readers[r] == Reading)
            && s'.c.loops.readLoop ==
                 if s.c.loops.readLoop == Some(r) && !s.c.req.failure && idle then None else s.c.loops.readLoop
  {
    AtStep(actions, n);
  }

  /** Over every run: the thread of a write loop ends before it looks at the queue exactly if another
      loop or none is current or there is a permanent failure; otherwise it takes the front, if there
      is one. */
  lemma WriteLoopEndsExactlyWhen(actions: seq<Action>, n: nat, w: Loop)
    requires PeeksAt(actions, n, w)
    ensures var s, s' := At(actions, n), At(actions, n + 1);
            && w in s.writers
            && (w !in s'.writers <==> s.c.loops.writeLoop != Some(w) || s.c.req.failure)
            && s'.dequeue == (if w !in s'.writers then Idle
                              else if s.c.req.sendQueue == [] then SawEmpty(w)
                              else Peeked(w, s.c.req.sendQueue[0]))
  {
    AtStep(actions, n);
  }

  /** From s to s', no loop that existed gets a thread back. */
  ghost predicate NoneReturns(s: State, s': State) {
    && s.c.loops.nextLoop <= s'.c.loops.nextLoop
    && (forall l :: l < s.c.loops.nextLoop && l in s'.readers ==> l in s.readers)
    && (forall l :: l < s.c.loops.nextLoop && l in s'.writers ==> l in s.writers)
  }

  lemma WriteReturnsNone(s: State, w: Loop, a: WriteAction)
    requires LockHeld(s) && WriteEnabled(s, w, a)
    ensures NoneReturns(s, WriteStep(s, w, a))
  {
  }

  lemma ReadReturnsNone(s: State, r: Loop, a: ReadAction)
    requires ReadEnabled(s, r, a)
    ensures NoneReturns(s, ReadStep(s, r, a))
  {
  }

  lemma ConnectReturnsNone(s: State, a: ConnectAction)
    requires ConnectEnabled(s, a)
    ensures NoneReturns(s, ConnectStep(s, a))
  {
  }

  lemma SenderReturnsNone(s: State, a: SenderAction)
    ensures NoneReturns(s, SenderStep(s, a))
  {
  }

  lemma ShutdownReturnsNone(s: State, a: ShutdownAction)
    ensures NoneReturns(s, ShutdownStep(s, a))
  {
  }

  lemma StepReturnsNone(s: State, a: Action)
    requires LockHeld(s) && Enabled(s, a)
    ensures NoneReturns(s, Step(s, a))
  {
    match a {
      case OfSender(sender) => SenderReturnsNone(s, sender);
      case OfConnect(connect) => ConnectReturnsNone(s, connect);
      case OfShutdown(shutdown) => ShutdownReturnsNone(s, shutdown);
      case OfWriter(w, write) => WriteReturnsNone(s, w, write);
      case OfReader(r, read) => ReadReturnsNone(s, r, read);
    }
  }

  lemma {:induction false} NoneEverReturns(actions: seq<Action>, n: nat)
    requires IsRun(actions) && n <= |actions|
    ensures NoneReturns(At(actions, n), After(actions))
  {
    if n == |actions| {
      AtPrefix(actions, n, n);
    } else {
      var m := |actions| - 1;
      AtPrefix(actions, n, m);
      NoneEverReturns(actions[..m], n);
      RunsAreWatched(actions[..m]);
      StepReturnsNone(After(actions[..m]), actions[m]);
    }
  }

  /** Over every run: once there is a permanent failure, a read loop that comes to its check and a
      write loop that comes to getNextRequestToSend are gone for good. */
  lemma LoopsEndAfterFailure(actions: seq<Action>, n: nat, l: Loop)
    requires IsRun(actions) && n < |actions| && At(actions, n).c.req.failure
    ensures ChecksAt(actions, n, l) ==> l !in After(actions).readers
    ensures PeeksAt(actions, n, l) ==> l !in After(actions).writers
  {
    AtStep(actions, n);
    PrefixIsRun(actions, n);
    RunsAreWatched(actions[..n]);
    NoneEverReturns(actions, n + 1);
    if ChecksAt(actions, n, l) {
      ReadLoopEndsExactlyWhen(actions, n, l);
      OldLoop(At(actions, n), actions[n], l);
    }
    if PeeksAt(actions, n, l) {
      WriteLoopEndsExactlyWhen(actions, n, l);
      OldLoop(At(actions, n), actions[n], l);
    }
  }

  lemma OldLoop(s: State, a: Action, l: Loop)
    requires LoopsRun(s) && LockHeld(s) && Enabled(s, a) && (l in s.readers || l in s.writers)
    ensures l < Step(s, a).c.loops.nextLoop
  {
    StepReturnsNone(s, a);
  }
}
