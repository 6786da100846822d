/** How long the item of a request owns its request: until a step hands it over to the callback,
    over all runs, orderly or not. */
module VstOwnership {
  import opened MessageIds
  import opened VstConnections
  import opened VstConnectionRuns
  import opened VstDequeue
  import opened VstLedger
  import opened VstRequestLoss

  /** The step hands request id over: cancelAll with the request in the store, or the answer of
      a thread that has come to answering it. */
  predicate HandsOver(s: State, a: Action, id: Id) {
    match a
    case OfShutdown(CancelAll(_)) => id in s.c.req.messageStore
    case OfWriter(w, AnswerFailed) => s.WriterAt(w, Writer.Answering(id))
    case OfReader(r, Answer) => s.ReaderAt(r, Completing(id))
    case _ => false
  }

  /** No step from the n-th on hands request id over. */
  ghost predicate KeptSince(actions: seq<Action>, n: nat, id: Id)
    requires IsRun(actions)
  {
    |actions| <= n ||
    (var m := |actions| - 1;
     KeptSince(actions[..m], n, id) && !HandsOver(After(actions[..m]), actions[m], id))
  }

  lemma WriteOnOwner(s: State, w: Loop, a: WriteAction, id: Id)
    requires WriteEnabled(s, w, a)
    ensures var s' := WriteStep(s, w, a);
            && s'.c.req.lastId == s.c.req.lastId
            && (id in s'.c.req.owned <==> id in s.c.req.owned && !HandsOver(s, OfWriter(w, a), id))
  {
  }

  lemma ReadOnOwner(s: State, r: Loop, a: ReadAction, id: Id)
    requires ReadEnabled(s, r, a)
    ensures var s' := ReadStep(s, r, a);
            && s'.c.req.lastId == s.c.req.lastId
            && (id in s'.c.req.owned <==> id in s.c.req.owned && !HandsOver(s, OfReader(r, a), id))
  {
  }

  lemma ShutdownOnOwner(s: State, a: ShutdownAction, id: Id)
    requires Enabled(s, OfShutdown(a))
    ensures var s' := ShutdownStep(s, a);
            && s'.c.req.lastId == s.c.req.lastId
            && (id in s'.c.req.owned <==> id in s.c.req.owned && !HandsOver(s, OfShutdown(a), id))
  {
  }

  /** From c to c', at most one request has been accepted and nothing else happened to owners. */
  predicate AcceptsAtMostOne(c: Requests, c': Requests) {
    || (c'.lastId == c.lastId && c'.owned == c.owned)
    || (c'.lastId == c.lastId + 1 && c'.owned == c.owned + {c'.lastId})
  }

  lemma SenderAccepts(s: State, a: SenderAction)
    ensures AcceptsAtMostOne(s.c.req, SenderStep(s, a).c.req)
  {
  }

  lemma ConnectAccepts(s: State, a: ConnectAction)
    ensures AcceptsAtMostOne(s.c.req, ConnectStep(s, a).c.req)
  {
    if !a.InsertAuthentication? {
      assert ConnectStep(s, a).c.req == s.c.req;
    }
  }

  /** A step ends the ownership of a request exactly by handing it over; a request just accepted
      is owned. */
  lemma StepOnOwner(s: State, a: Action, id: Id)
    requires Enabled(s, a)
    ensures s.c.req.lastId <= Step(s, a).c.req.lastId
    ensures id <= s.c.req.lastId ==>
              (id in Step(s, a).c.req.owned <==> id in s.c.req.owned && !HandsOver(s, a, id))
    ensures s.c.req.lastId < id <= Step(s, a).c.req.lastId ==> id in Step(s, a).c.req.owned
  {
    match a {
      case OfWriter(w, write) => WriteOnOwner(s, w, write, id);
      case OfReader(r, read) => ReadOnOwner(s, r, read, id);
      case OfShutdown(shutdown) => ShutdownOnOwner(s, shutdown, id);
      case OfSender(sender) => SenderAccepts(s, sender);
      case OfConnect(connect) => ConnectAccepts(s, connect);
    }
  }

  /** From any point of any run on: an accepted request is owned exactly if it was owned then and
      no step has handed it over since. */
  lemma {:induction false} OwnedUntilHandedOver(actions: seq<Action>, n: nat, id: Id)
    requires IsRun(actions) && n <= |actions|
    requires id <= At(actions, n).c.req.lastId
    ensures id <= After(actions).c.req.lastId
    ensures id in After(actions).c.req.owned <==> id in At(actions, n).c.req.owned && KeptSince(actions, n, id)
  {
    if n == |actions| {
      AtPrefix(actions, n, n);
    } else {
      var m := |actions| - 1;
      AtPrefix(actions, n, m);
      OwnedUntilHandedOver(actions[..m], n, id);
      StepOnOwner(After(actions[..m]), actions[m], id);
    }
  }

  lemma UnknownIsKept(s: State, a: Action, id: Id)
    requires IsGivenOut(s) && Enabled(s, a) && id > s.c.req.lastId
    ensures !HandsOver(s, a, id)
  {
    AnsweringIsHeld(s);
    assert id !in Known(s.c.req, Held(s), MovingId(s.dequeue));
    if a.OfWriter? && a.write.AnswerFailed? {
      WriterHas(s, a.w);
    }
    if a.OfReader? && a.read.Answer? {
      ReaderHas(s, a.r);
    }
  }

  /** Over a whole run: every accepted request is owned exactly if no step has ever handed it
      over. */
  lemma {:induction false} OwnedUnlessHandedOver(actions: seq<Action>, id: Id)
    requires IsRun(actions)
    ensures 1 <= id <= After(actions).c.req.lastId ==> (id in After(actions).c.req.owned <==> KeptSince(actions, 0, id))
    ensures id > After(actions).c.req.lastId ==> KeptSince(actions, 0, id)
  {
    if actions != [] {
      var m := |actions| - 1;
      var before := After(actions[..m]);
      OwnedUnlessHandedOver(actions[..m], id);
      StepOnOwner(before, actions[m], id);
      DisorderlyRunsAreDoomed(actions[..m]);
      if id > before.c.req.lastId {
        UnknownIsKept(before, actions[m], id);
      }
    }
  }

  /** The request that a write loop takes from the queue at the n-th step is there at any later
      point, in particular when the write loop looks at its timeout, exactly if it was there at
      that step and since then neither cancelAll found it in the store nor a thread has answered
      it. */
  lemma {:induction false} TakenOwnsUntilHandedOver(actions: seq<Action>, n: nat)
    requires RemovesAt(actions, n)
    ensures var id := Taken(actions, n);
            id in After(actions).c.req.owned <==>
              id in At(actions, n).c.req.owned && KeptSince(actions, n + 1, id)
  {
    var s, id := At(actions, n), Taken(actions, n);
    AtStep(actions, n);
    PrefixIsRun(actions, n);
    DisorderlyRunsAreDoomed(actions[..n]);
    assert id in Known(s.c.req, Held(s), MovingId(s.dequeue));
    WriteOnOwner(s, actions[n].w, RemoveFromQueue, id);
    OwnedUntilHandedOver(actions, n + 1, id);
  }
}
