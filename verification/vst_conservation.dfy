/** Conservation of requests over whole runs, restarts included. */
module VstConservation {
  import opened Bytes
  import opened MessageIds
  import opened VstAccounts
  import opened VstConnectionRuns
  import opened VstConnections
  import opened VstLedger

  // Callbacks, over all runs

  /** The callbacks of exactly the requests that have been invoked have run, once. */
  ghost predicate CallbacksCounted(req: Requests) {
    forall id :: req.answered[id] == Count(id in req.invoked)
  }

  /** From req to req', nobody is forgotten and no callback runs that has run before. */
  ghost predicate CallbacksKept(req: Requests, req': Requests) {
    && (CallbacksCounted(req) ==> CallbacksCounted(req'))
    && req.invoked <= req'.invoked
    && (forall id :: id in req.invoked ==> req'.answered[id] == req.answered[id])
  }

  lemma WriteKeepsCallbacks(s: State, w: Loop, a: WriteAction)
    requires WriteEnabled(s, w, a)
    ensures CallbacksKept(s.c.req, WriteStep(s, w, a).c.req)
  {
  }

  lemma ReadKeepsCallbacks(s: State, r: Loop, a: ReadAction)
    requires ReadEnabled(s, r, a)
    ensures CallbacksKept(s.c.req, ReadStep(s, r, a).c.req)
  {
  }

  lemma StepKeepsCallbacks(s: State, a: Action)
    requires Enabled(s, a)
    ensures CallbacksKept(s.c.req, Step(s, a).c.req)
  {
    match a {
      case OfSender(sender) =>
      case OfConnect(connect) =>
      case OfShutdown(shutdown) =>
      case OfWriter(w, write) => WriteKeepsCallbacks(s, w, write);
      case OfReader(r, read) => ReadKeepsCallbacks(s, r, read);
    }
  }

  /** In every run, orderly or not, a callback runs at most once, and a request whose callback
      has run stays finished: nothing later runs it again. */
  lemma {:induction false} CallbacksRunOnce(actions: seq<Action>, n: nat, id: Id)
    requires IsRun(actions) && n <= |actions|
    ensures After(actions).c.req.answered[id] <= 1
    ensures Done(At(actions, n), id) ==> Done(After(actions), id) && After(actions).c.req.answered[id] == 1
    ensures CallbacksCounted(After(actions).c.req)
    decreases |actions|
  {
    if n == |actions| {
      AtPrefix(actions, n, n);
    }
    if actions != [] {
      var m := |actions| - 1;
      StepKeepsCallbacks(After(actions[..m]), actions[m]);
      if n <= m {
        AtPrefix(actions, n, m);
        CallbacksRunOnce(actions[..m], n, id);
      } else {
        CallbacksRunOnce(actions[..m], m, id);
      }
    }
  }

  // Orderly runs

  /** After an orderly run, every accepted request is in exactly one of send queue, store,
      removed and about to be answered, or answered once; and every stored item still owns its
      request, so that minimumTimeout may look at it. */
  lemma {:induction false} OrderlyRunsConserve(actions: seq<Action>)
    requires IsRun(actions) && RunsOrderly(actions)
    ensures Conserved(After(actions))
    ensures After(actions).c.req.messageStore <= After(actions).c.req.owned
  {
    OrderlyRunsHaveLedger(actions);
    LedgerConserves(After(actions));
  }

  /** A request that has been answered in an orderly run is never queued, stored or being moved
      again. */
  lemma {:induction false} AnsweredStaysOut(actions: seq<Action>, n: nat, id: Id)
    requires IsRun(actions) && n <= |actions| && RunsOrderly(actions)
    requires Done(At(actions, n), id)
    ensures var s := After(actions);
            !Queued(s, id) && !Stored(s, id) && !Leaving(s, id) && (s.dequeue.Peeked? ==> s.dequeue.id != id)
  {
    CallbacksRunOnce(actions, n, id);
    OrderlyRunsHaveLedger(actions);
    var s := After(actions);
    if s.dequeue.Peeked? {
      assert s.c.req.sendQueue[0] in Queue(s);
    }
  }

  /** When the current read loop retires as idle in an orderly run, every request accepted so
      far has been answered or is just being answered. */
  lemma {:induction false} IdleMeansAnswered(actions: seq<Action>, r: Loop, id: Id)
    requires IsRun(actions) && RunsOrderly(actions)
    requires var s := After(actions); Enabled(s, OfReader(r, CheckStop)) && s.c.loops.readLoop == Some(r) && !s.c.req.failure
    requires r !in Step(After(actions), OfReader(r, CheckStop)).readers
    requires Accepted(After(actions), id)
    ensures Done(After(actions), id) || Leaving(After(actions), id)
  {
    OrderlyRunsConserve(actions);
    var s := After(actions);
    assert s.c.req.NothingLeft();
    assert !Queued(s, id) && !Stored(s, id);
  }
}
