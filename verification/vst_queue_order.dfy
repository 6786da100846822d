/** Requests are sent in the order in which they were made, except for authentication requests. */
module VstQueueOrder {
  import opened Bytes
  import opened VstConnections
  import opened VstConnectionRuns
  import opened VstDequeue
  import opened VstRequestOrder
  import opened VstLedger

  lemma SendingKeepsOrder(s: State, strict: bool)
    requires StateInOrder(s, strict)
    ensures StateInOrder(SenderStep(s, Send), strict)
  {
    OneQueued(s, SenderStep(s, Send), strict);
  }

  lemma SenderKeepsOrder(s: State, a: SenderAction, strict: bool)
    requires StateInOrder(s, strict) && !a.Send?
    ensures StateInOrder(SenderStep(s, a), strict)
  {
    assert SenderStep(s, a).c.req == s.c.req && SenderStep(s, a).c.dequeues == s.c.dequeues;
    LeftInOrder(s, SenderStep(s, a), strict);
  }

  lemma InsertionKeepsOrder(s: State, strict: bool)
    requires StateInOrder(s, strict) && ConnectEnabled(s, InsertAuthentication)
    requires strict ==> MovingId(s.dequeue) == None
    ensures StateInOrder(ConnectStep(s, InsertAuthentication), strict)
  {
    OneInserted(s, ConnectStep(s, InsertAuthentication), strict);
  }

  lemma SetupKeepsOrder(s: State, a: ConnectAction, strict: bool)
    requires StateInOrder(s, strict) && ConnectEnabled(s, a) && !a.InsertAuthentication?
    ensures StateInOrder(ConnectStep(s, a), strict)
  {
    var s' := ConnectStep(s, a);
    assert s'.c.req == s.c.req && s'.dequeue == s.dequeue && s'.c.dequeues == s.c.dequeues;
    LeftInOrder(s, s', strict);
  }

  lemma ShutdownKeepsOrder(s: State, a: ShutdownAction, strict: bool)
    requires StateInOrder(s, strict) && Enabled(s, OfShutdown(a))
    ensures StateInOrder(ShutdownStep(s, a), strict)
  {
    LeftInOrder(s, ShutdownStep(s, a), strict);
  }

  lemma PeekKeepsOrder(s: State, w: Loop, strict: bool)
    requires StateInOrder(s, strict) && WriteEnabled(s, w, Peek)
    ensures StateInOrder(WriteStep(s, w, Peek), strict)
  {
    if WriteStep(s, w, Peek).dequeue.Peeked? {
      FrontSeen(TakenIds(s.c.dequeues), s.c.req.sendQueue, s.c.req.auth, s.c.req.lastId, strict);
    } else {
      LeftInOrder(s, WriteStep(s, w, Peek), strict);
    }
  }

  lemma RemovalKeepsOrder(s: State, w: Loop, strict: bool)
    requires StateInOrder(s, strict) && WriteEnabled(s, w, RemoveFromQueue)
    ensures StateInOrder(WriteStep(s, w, RemoveFromQueue), strict)
  {
    FrontTaken(TakenIds(s.c.dequeues), s.dequeue.id, s.c.req.sendQueue, s.c.req.auth, s.c.req.lastId, strict);
    assert TakenIds(WriteStep(s, w, RemoveFromQueue).c.dequeues) == TakenIds(s.c.dequeues) + [s.dequeue.id];
  }

  lemma WriteKeepsOrder(s: State, w: Loop, a: WriteAction, strict: bool)
    requires StateInOrder(s, strict) && WriteEnabled(s, w, a) && !a.Peek? && !a.RemoveFromQueue?
    ensures StateInOrder(WriteStep(s, w, a), strict)
  {
    LeftInOrder(s, WriteStep(s, w, a), strict);
  }

  lemma ReadKeepsOrder(s: State, r: Loop, a: ReadAction, strict: bool)
    requires StateInOrder(s, strict) && ReadEnabled(s, r, a)
    ensures StateInOrder(ReadStep(s, r, a), strict)
  {
    LeftInOrder(s, ReadStep(s, r, a), strict);
  }

  lemma StepKeepsOrder(s: State, a: Action, strict: bool)
    requires StateInOrder(s, strict) && Enabled(s, a)
    requires strict ==> IsOrderly(s, a)
    ensures StateInOrder(Step(s, a), strict)
  {
    match a {
      case OfSender(Send) => SendingKeepsOrder(s, strict);
      case OfSender(sender) => SenderKeepsOrder(s, sender, strict);
      case OfConnect(InsertAuthentication) => InsertionKeepsOrder(s, strict);
      case OfConnect(connect) => SetupKeepsOrder(s, connect, strict);
      case OfShutdown(shutdown) => ShutdownKeepsOrder(s, shutdown, strict);
      case OfWriter(w, Peek) => PeekKeepsOrder(s, w, strict);
      case OfWriter(w, RemoveFromQueue) => RemovalKeepsOrder(s, w, strict);
      case OfWriter(w, write) => WriteKeepsOrder(s, w, write, strict);
      case OfReader(r, read) => ReadKeepsOrder(s, r, read, strict);
    }
  }

  lemma {:induction false} RunsInOrder(actions: seq<Action>, strict: bool)
    requires IsRun(actions) && (strict ==> RunsOrderly(actions))
    ensures StateInOrder(After(actions), strict)
  {
    if actions != [] {
      RunsInOrder(actions[..|actions| - 1], strict);
      StepKeepsOrder(After(actions[..|actions| - 1]), actions[|actions| - 1], strict);
    }
  }

  /** Over every run: in the queue, authentication requests stand in front of all others, the latest
      one first, and the others in the order in which they were made. So were these taken from the
      queue, none of them made after one that is still queued. */
  lemma QueueIsFirstInFirstOut(actions: seq<Action>)
    requires IsRun(actions)
    ensures var s := After(actions);
            var queue, taken, auth := s.c.req.sendQueue, s.c.dequeues, s.c.req.auth;
            && (forall i, j :: 0 <= i < j < |queue| && queue[j] in auth ==> queue[i] in auth && queue[i] > queue[j])
            && (forall i, j :: 0 <= i < j < |queue| && queue[i] !in auth && queue[j] !in auth ==> queue[i] < queue[j])
            && (forall i, j :: 0 <= i < j < |taken| && taken[i].1 !in auth && taken[j].1 !in auth ==>
                  taken[i].1 <= taken[j].1)
            && (forall i, j :: 0 <= i < |taken| && 0 <= j < |queue| && taken[i].1 !in auth && queue[j] !in auth ==>
                  taken[i].1 <= queue[j])
  {
    RunsInOrder(actions, false);
    var ids := TakenIds(After(actions).c.dequeues);
    assert forall k :: 0 <= k < |ids| ==> ids[k] == After(actions).c.dequeues[k].1;
  }

  /** Over every orderly run moreover: none is taken twice, and none is taken that is still queued. */
  lemma OrderlyRunsTakeOnce(actions: seq<Action>)
    requires IsRun(actions) && RunsOrderly(actions)
    ensures var s := After(actions);
            var queue, taken, auth := s.c.req.sendQueue, s.c.dequeues, s.c.req.auth;
            && (forall i, j :: 0 <= i < j < |taken| && taken[i].1 !in auth && taken[j].1 !in auth ==>
                  taken[i].1 < taken[j].1)
            && (forall i, j :: 0 <= i < |taken| && 0 <= j < |queue| && taken[i].1 !in auth && queue[j] !in auth ==>
                  taken[i].1 < queue[j])
  {
    RunsInOrder(actions, true);
    var ids := TakenIds(After(actions).c.dequeues);
    assert forall k :: 0 <= k < |ids| ==> ids[k] == After(actions).c.dequeues[k].1;
  }
}
