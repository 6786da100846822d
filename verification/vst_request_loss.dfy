/** The exact condition for conservation: inserting an authentication request at the front of
    the send queue while getNextRequestToSend is between looking at the front and removing it
    loses a request for good, and nothing else does. */
module VstRequestLoss {
  import opened Bytes
  import opened MessageIds
  import opened VstConnectionRuns
  import opened VstConnections
  import opened VstConservation
  import opened VstDequeue
  import opened VstLedger
  import opened VstLoopSafety

  /** The requests known outside of the queue. */
  ghost function Known(req: Requests, held: set<Id>, moving: Option<Id>): set<Id> {
    req.messageStore + req.invoked + held + Maybe(moving)
  }

  /** Request z has been accepted and nobody knows it, outside of the queue and in the given
      part of it. */
  ghost predicate Unknown(req: Requests, queue: seq<Id>, held: set<Id>, moving: Option<Id>, z: Id) {
    1 <= z <= req.lastId && z !in queue && z !in Known(req, held, moving)
  }

  /** A request stands at the front of the queue in the place of the one that is being moved,
      and will be lost when the front is removed. */
  ghost predicate FrontInDanger(req: Requests, held: set<Id>, moving: Option<Id>) {
    moving.Some? && req.sendQueue != [] && Unknown(req, req.sendQueue[1..], held, moving, req.sendQueue[0])
  }

  /** All ids in use have been given out, and a front that is not the request being moved is in
      danger. */
  ghost predicate GivenOut(req: Requests, held: set<Id>, moving: Option<Id>) {
    && (forall id :: id in req.sendQueue ==> id <= req.lastId)
    && (forall id :: id in Known(req, held, moving) ==> id <= req.lastId)
    && (moving.Some? && req.sendQueue != [] ==>
          req.sendQueue[0] == moving.value || FrontInDanger(req, held, moving))
  }

  ghost predicate Doomed(req: Requests, held: set<Id>, moving: Option<Id>) {
    FrontInDanger(req, held, moving) || exists z :: Unknown(req, req.sendQueue, held, moving, z)
  }

  /** Who is lost before is lost after. */
  ghost predicate LostStay(req: Requests, held: set<Id>, moving: Option<Id>,
                           req': Requests, held': set<Id>, moving': Option<Id>) {
    forall z :: Unknown(req, req.sendQueue, held, moving, z) ==> Unknown(req', req'.sendQueue, held', moving', z)
  }

  /** The front in danger is still there, and in danger. */
  ghost predicate DangerStays(req: Requests, held: set<Id>, moving: Option<Id>, req': Requests, held': set<Id>) {
    FrontInDanger(req, held, moving) ==>
      FrontInDanger(req', held', moving) && req'.sendQueue[0] == req.sendQueue[0]
  }

  // What each region does to requests in danger

  lemma NothingQueued(req: Requests, held: set<Id>, moving: Option<Id>, req': Requests, held': set<Id>)
    requires GivenOut(req, held, moving)
    requires req'.sendQueue == req.sendQueue && req'.lastId == req.lastId
    requires Known(req', held', moving) <= Known(req, held, moving)
    ensures GivenOut(req', held', moving)
    ensures LostStay(req, held, moving, req', held', moving) && DangerStays(req, held, moving, req', held')
    ensures Doomed(req, held, moving) ==> Doomed(req', held', moving)
  {
    forall z | Unknown(req, req.sendQueue, held, moving, z)
      ensures Unknown(req', req'.sendQueue, held', moving, z)
    {
    }
  }

  lemma OneQueued(req: Requests, held: set<Id>, moving: Option<Id>, held': set<Id>)
    requires GivenOut(req, held, moving) && held' <= held
    ensures GivenOut(req.Enqueue(), held', moving)
    ensures LostStay(req, held, moving, req.Enqueue(), held', moving)
    ensures DangerStays(req, held, moving, req.Enqueue(), held')
    ensures Doomed(req, held, moving) ==> Doomed(req.Enqueue(), held', moving)
  {
    var req' := req.Enqueue();
    assert Known(req', held', moving) <= Known(req, held, moving);
    assert forall id :: id in req'.sendQueue <==> id in req.sendQueue || id == req.lastId + 1;
    if req.sendQueue != [] {
      assert req'.sendQueue[1..] == req.sendQueue[1..] + [req.lastId + 1];
    }
    forall z | Unknown(req, req.sendQueue, held, moving, z)
      ensures Unknown(req', req'.sendQueue, held', moving, z)
    {
    }
  }

  /** The heart of the matter: an insertion while a request is being moved puts the new one in
      danger. */
  lemma OneInserted(req: Requests, held: set<Id>, moving: Option<Id>, held': set<Id>)
    requires GivenOut(req, held, moving) && held' <= held
    ensures GivenOut(req.InsertAuth(), held', moving)
    ensures LostStay(req, held, moving, req.InsertAuth(), held', moving)
    ensures moving.Some? ==> FrontInDanger(req.InsertAuth(), held', moving)
    ensures Doomed(req, held, moving) || moving.Some? ==> Doomed(req.InsertAuth(), held', moving)
  {
    var req' := req.InsertAuth();
    assert Known(req', held', moving) <= Known(req, held, moving);
    assert req'.sendQueue == [req.lastId + 1] + req.sendQueue;
    assert forall id :: id in req'.sendQueue <==> id in req.sendQueue || id == req.lastId + 1;
    if moving.Some? {
      assert req'.sendQueue[1..] == req.sendQueue && req'.sendQueue[0] == req.lastId + 1;
      assert FrontInDanger(req', held', moving);
    }
    forall z | Unknown(req, req.sendQueue, held, moving, z)
      ensures Unknown(req', req'.sendQueue, held', moving, z)
    {
    }
  }

  lemma FrontPeeked(req: Requests, held: set<Id>, held': set<Id>)
    requires GivenOut(req, held, None) && held' <= held && req.sendQueue != []
    ensures GivenOut(req, held', Some(req.sendQueue[0]))
    ensures LostStay(req, held, None, req, held', Some(req.sendQueue[0]))
    ensures Doomed(req, held, None) ==> Doomed(req, held', Some(req.sendQueue[0]))
  {
    assert req.sendQueue[0] in req.sendQueue;
    assert Known(req, held', Some(req.sendQueue[0])) <= Known(req, held, None) + {req.sendQueue[0]};
    forall z | Unknown(req, req.sendQueue, held, None, z)
      ensures Unknown(req, req.sendQueue, held', Some(req.sendQueue[0]), z)
    {
    }
  }

  /** Removing the front loses it if it is not the request being moved. */
  lemma FrontRemoved(req: Requests, held: set<Id>, moving: Id, held': set<Id>)
    requires GivenOut(req, held, Some(moving)) && held' <= held + {moving} && req.sendQueue != []
    ensures GivenOut(req.RemoveFirst(), held', None)
    ensures LostStay(req, held, Some(moving), req.RemoveFirst(), held', None)
    ensures req.sendQueue[0] != moving ==>
              Unknown(req.RemoveFirst(), req.RemoveFirst().sendQueue, held', None, req.sendQueue[0])
    ensures Doomed(req, held, Some(moving)) ==> Doomed(req.RemoveFirst(), held', None)
  {
    var req' := req.RemoveFirst();
    assert Known(req', held', None) <= Known(req, held, Some(moving));
    assert req.sendQueue == [req.sendQueue[0]] + req'.sendQueue;
    assert forall id :: id in req'.sendQueue ==> id in req.sendQueue;
    if FrontInDanger(req, held, Some(moving)) {
      assert Unknown(req', req'.sendQueue, held', None, req.sendQueue[0]);
    }
    forall z | Unknown(req, req.sendQueue, held, Some(moving), z)
      ensures Unknown(req', req'.sendQueue, held', None, z)
    {
    }
  }

  // Every step keeps requests in danger there, and creates the danger only as above

  /** A removal loses the request in danger, an insertion puts another one in front of it, which
      then is in danger, and all other steps leave it in danger. */
  ghost predicate DangerMoves(s: State, a: Action, held: set<Id>, s': State, held': set<Id>) {
    FrontInDanger(s.c.req, held, MovingId(s.dequeue)) ==>
      var z := s.c.req.sendQueue[0];
      if a.OfWriter? && a.write.RemoveFromQueue?
      then Unknown(s'.c.req, s'.c.req.sendQueue, held', MovingId(s'.dequeue), z)
      else
        && FrontInDanger(s'.c.req, held', MovingId(s'.dequeue))
        && s'.c.req.sendQueue[0] == if a == OfConnect(InsertAuthentication) then s'.c.req.lastId else z
  }

  ghost predicate Fate(s: State, a: Action, held: set<Id>, s': State, held': set<Id>) {
    && GivenOut(s'.c.req, held', MovingId(s'.dequeue))
    && DangerMoves(s, a, held, s', held')
    && LostStay(s.c.req, held, MovingId(s.dequeue), s'.c.req, held', MovingId(s'.dequeue))
    && (Doomed(s.c.req, held, MovingId(s.dequeue)) ==> Doomed(s'.c.req, held', MovingId(s'.dequeue)))
  }

  lemma SenderFate(s: State, a: SenderAction, held: set<Id>, held': set<Id>)
    requires GivenOut(s.c.req, held, MovingId(s.dequeue)) && held' <= held
    ensures Fate(s, OfSender(a), held, SenderStep(s, a), held')
  {
    if a.Send? {
      OneQueued(s.c.req, held, MovingId(s.dequeue), held');
    } else {
      NothingQueued(s.c.req, held, MovingId(s.dequeue), s.c.req, held');
    }
  }

  lemma ConnectFate(s: State, a: ConnectAction, held: set<Id>, held': set<Id>)
    requires GivenOut(s.c.req, held, MovingId(s.dequeue)) && held' <= held && ConnectEnabled(s, a)
    ensures Fate(s, OfConnect(a), held, ConnectStep(s, a), held')
    ensures !IsOrderly(s, OfConnect(a)) ==> Doomed(ConnectStep(s, a).c.req, held', MovingId(ConnectStep(s, a).dequeue))
  {
    if a.InsertAuthentication? {
      OneInserted(s.c.req, held, MovingId(s.dequeue), held');
    } else {
      NothingQueued(s.c.req, held, MovingId(s.dequeue), s.c.req, held');
    }
  }

  lemma ShutdownFate(s: State, a: ShutdownAction, held: set<Id>, held': set<Id>)
    requires GivenOut(s.c.req, held, MovingId(s.dequeue)) && held' <= held
    ensures Fate(s, OfShutdown(a), held, ShutdownStep(s, a), held')
  {
    NothingQueued(s.c.req, held, MovingId(s.dequeue), ShutdownStep(s, a).c.req, held');
  }

  lemma WriteFate(s: State, w: Loop, a: WriteAction, held: set<Id>, held': set<Id>)
    requires WriteEnabled(s, w, a)
    requires GivenOut(s.c.req, held, MovingId(s.dequeue)) && held' <= held + WriteChange(s, w, a).gain
    requires a.AnswerFailed? ==> s.writers[w].id in held
    ensures Fate(s, OfWriter(w, a), held, WriteStep(s, w, a), held')
    ensures a.RemoveFromQueue? && s.c.req.sendQueue[0] != s.dequeue.id ==>
              var s' := WriteStep(s, w, a);
              Unknown(s'.c.req, s'.c.req.sendQueue, held', MovingId(s'.dequeue), s.c.req.sendQueue[0])
  {
    if a.Peek? && s.c.req.sendQueue != [] && WriteStep(s, w, a).dequeue.Peeked? {
      FrontPeeked(s.c.req, held, held');
    } else if a.RemoveFromQueue? {
      FrontRemoved(s.c.req, held, s.dequeue.id, held');
    } else {
      NothingQueued(s.c.req, held, MovingId(s.dequeue), WriteStep(s, w, a).c.req, held');
    }
  }

  lemma ReadFate(s: State, r: Loop, a: ReadAction, held: set<Id>, held': set<Id>)
    requires ReadEnabled(s, r, a)
    requires GivenOut(s.c.req, held, MovingId(s.dequeue)) && held' <= held + ReadChange(s, r, a).gain
    requires a.Answer? ==> s.readers[r].id in held
    ensures Fate(s, OfReader(r, a), held, ReadStep(s, r, a), held')
  {
    NothingQueued(s.c.req, held, MovingId(s.dequeue), ReadStep(s, r, a).c.req, held');
  }

  ghost predicate IsGivenOut(s: State) {
    GivenOut(s.c.req, Held(s), MovingId(s.dequeue))
  }

  ghost predicate IsDoomed(s: State) {
    Doomed(s.c.req, Held(s), MovingId(s.dequeue))
  }

  /** Request z stands at the front of the queue in the place of the one that is being moved. */
  ghost predicate IsInDanger(s: State, z: Id) {
    FrontInDanger(s.c.req, Held(s), MovingId(s.dequeue)) && s.c.req.sendQueue[0] == z
  }

  /** Request z is in no place and no thread knows it. */
  ghost predicate IsLost(s: State, z: Id) {
    Unknown(s.c.req, s.c.req.sendQueue, Held(s), MovingId(s.dequeue), z)
  }

  /** What becomes of request z, which is in danger, with the step from s to s'. */
  ghost predicate Endures(s: State, a: Action, s': State, z: Id) {
    if a.OfWriter? && a.write.RemoveFromQueue? then IsLost(s', z)
    else IsInDanger(s', if a == OfConnect(InsertAuthentication) then s'.c.req.lastId else z)
  }

  lemma ConnectKeepsFate(s: State, a: ConnectAction)
    requires LoopsRun(s) && IsGivenOut(s) && ConnectEnabled(s, a)
    ensures IsGivenOut(ConnectStep(s, a))
    ensures forall z :: IsLost(s, z) ==> IsLost(ConnectStep(s, a), z)
    ensures forall z :: IsInDanger(s, z) ==> Endures(s, OfConnect(a), ConnectStep(s, a), z)
    ensures IsDoomed(s) || !IsOrderly(s, OfConnect(a)) ==> IsDoomed(ConnectStep(s, a))
  {
    ConnectStarts(s, a);
    StartOnThreads(s, ConnectStep(s, a));
    ConnectFate(s, a, Held(s), Held(ConnectStep(s, a)));
  }

  lemma WriteKeepsFate(s: State, w: Loop, a: WriteAction)
    requires ThreadsInPlace(s) && IsGivenOut(s) && WriteEnabled(s, w, a)
    ensures IsGivenOut(WriteStep(s, w, a))
    ensures forall z :: IsLost(s, z) ==> IsLost(WriteStep(s, w, a), z)
    ensures forall z :: IsInDanger(s, z) ==> Endures(s, OfWriter(w, a), WriteStep(s, w, a), z)
    ensures a.RemoveFromQueue? && s.c.req.sendQueue[0] != s.dequeue.id ==>
              IsLost(WriteStep(s, w, a), s.c.req.sendQueue[0])
    ensures IsDoomed(s) ==> IsDoomed(WriteStep(s, w, a))
  {
    WriteOnThreads(s, w, a);
    if a.AnswerFailed? {
      WriterHas(s, w);
      AnsweringIsHeld(s);
    }
    WriteFate(s, w, a, Held(s), Held(WriteStep(s, w, a)));
  }

  lemma ReadKeepsFate(s: State, r: Loop, a: ReadAction)
    requires IsGivenOut(s) && ReadEnabled(s, r, a)
    ensures IsGivenOut(ReadStep(s, r, a))
    ensures forall z :: IsLost(s, z) ==> IsLost(ReadStep(s, r, a), z)
    ensures forall z :: IsInDanger(s, z) ==> Endures(s, OfReader(r, a), ReadStep(s, r, a), z)
    ensures IsDoomed(s) ==> IsDoomed(ReadStep(s, r, a))
  {
    ReadOnThreads(s, r, a);
    if a.Answer? {
      ReaderHas(s, r);
      AnsweringIsHeld(s);
    }
    ReadFate(s, r, a, Held(s), Held(ReadStep(s, r, a)));
  }

  lemma StepKeepsFate(s: State, a: Action)
    requires ThreadsInPlace(s) && IsGivenOut(s) && Enabled(s, a)
    ensures IsGivenOut(Step(s, a))
    ensures forall z :: IsLost(s, z) ==> IsLost(Step(s, a), z)
    ensures forall z :: IsInDanger(s, z) ==> Endures(s, a, Step(s, a), z)
    ensures IsDoomed(s) || !IsOrderly(s, a) ==> IsDoomed(Step(s, a))
  {
    match a {
      case OfSender(sender) =>
        SenderStarts(s, sender);
        StartOnThreads(s, SenderStep(s, sender));
        SenderFate(s, sender, Held(s), Held(SenderStep(s, sender)));
      case OfConnect(connect) => ConnectKeepsFate(s, connect);
      case OfShutdown(shutdown) =>
        ShutdownStarts(s, shutdown);
        StartOnThreads(s, ShutdownStep(s, shutdown));
        ShutdownFate(s, shutdown, Held(s), Held(ShutdownStep(s, shutdown)));
      case OfWriter(w, write) => WriteKeepsFate(s, w, write);
      case OfReader(r, read) => ReadKeepsFate(s, r, read);
    }
  }

  lemma {:induction false} DisorderlyRunsAreDoomed(actions: seq<Action>)
    requires IsRun(actions)
    ensures IsGivenOut(After(actions))
    ensures !RunsOrderly(actions) ==> IsDoomed(After(actions))
  {
    if actions != [] {
      var before := actions[..|actions| - 1];
      DisorderlyRunsAreDoomed(before);
      RunsAreWatched(before);
      StepKeepsFate(After(before), actions[|actions| - 1]);
    }
  }

  /** A lost request stays lost, whatever happens later. */
  lemma {:induction false} LostForGood(actions: seq<Action>, n: nat, z: Id)
    requires IsRun(actions) && n <= |actions|
    requires IsLost(At(actions, n), z)
    ensures IsLost(After(actions), z)
  {
    if n == |actions| {
      AtPrefix(actions, n, n);
    } else {
      var m := |actions| - 1;
      AtPrefix(actions, n, m);
      LostForGood(actions[..m], n, z);
      DisorderlyRunsAreDoomed(actions[..m]);
      RunsAreWatched(actions[..m]);
      StepKeepsFate(After(actions[..m]), actions[m]);
    }
  }

  /** Over all runs: when getNextRequestToSend removes a front that is not the request it has
      added to the store, that front is lost for good. */
  lemma {:induction false} RemovingAnotherLosesIt(actions: seq<Action>, n: nat)
    requires RemovesAt(actions, n) && Removed(actions, n) != Taken(actions, n)
    ensures IsLost(After(actions), Removed(actions, n))
  {
    AtStep(actions, n);
    PrefixIsRun(actions, n);
    DisorderlyRunsAreDoomed(actions[..n]);
    RunsAreWatched(actions[..n]);
    WriteKeepsFate(At(actions, n), actions[n].w, RemoveFromQueue);
    LostForGood(actions, n + 1, Removed(actions, n));
  }

  /** Of a run that does not end inside getNextRequestToSend, every accepted request is in
      exactly one place if and only if no authentication request was inserted while a request
      was being moved. Otherwise some request is in no place at all. */
  lemma {:induction false} ConservedExactlyWhenOrderly(actions: seq<Action>)
    requires IsRun(actions) && After(actions).dequeue.Idle?
    ensures Conserved(After(actions)) <==> RunsOrderly(actions)
  {
    var s := After(actions);
    if RunsOrderly(actions) {
      OrderlyRunsConserve(actions);
    } else {
      DisorderlyRunsAreDoomed(actions);
      AnsweringIsHeld(s);
      var z :| Unknown(s.c.req, s.c.req.sendQueue, Held(s), None, z);
      assert Accepted(s, z) && !Queued(s, z) && !Stored(s, z) && !Leaving(s, z) && !Done(s, z);
    }
  }
}
