/** The send queue inside getNextRequestToSend. */
module VstDequeue {
  import opened Bytes
  import opened MessageIds
  import opened VstConnections
  import opened VstConnectionRuns

  /** The request that getNextRequestToSend is moving. */
  function MovingId(d: Dequeue): Option<Id> {
    if d.Peeked? || d.Added? then Some(d.id) else None
  }

  predicate QueueFilled(s: State) {
    MovingId(s.dequeue).Some? ==> s.c.req.sendQueue != []
  }

  /** The step leaves the queue and getNextRequestToSend alone, or makes the queue longer. */
  predicate Harmless(s: State, s': State) {
    s'.dequeue == s.dequeue && |s.c.req.sendQueue| <= |s'.c.req.sendQueue|
  }

  lemma ConnectIsHarmless(s: State, a: ConnectAction)
    requires ConnectEnabled(s, a)
    ensures Harmless(s, ConnectStep(s, a))
  {
    if !a.InsertAuthentication? {
      assert ConnectStep(s, a).c.req == s.c.req;
    }
  }

  lemma ReadIsHarmless(s: State, r: Loop, a: ReadAction)
    requires ReadEnabled(s, r, a)
    ensures Harmless(s, ReadStep(s, r, a))
  {
  }

  lemma WriteKeepsFilled(s: State, w: Loop, a: WriteAction)
    requires WriteEnabled(s, w, a) && QueueFilled(s)
    ensures QueueFilled(WriteStep(s, w, a))
  {
  }

  lemma StepKeepsFilled(s: State, a: Action)
    requires Enabled(s, a) && QueueFilled(s)
    ensures QueueFilled(Step(s, a))
  {
    match a {
      case OfSender(sender) => assert Harmless(s, SenderStep(s, sender));
      case OfConnect(connect) => ConnectIsHarmless(s, connect);
      case OfShutdown(shutdown) => assert Harmless(s, ShutdownStep(s, shutdown));
      case OfWriter(w, write) => WriteKeepsFilled(s, w, write);
      case OfReader(r, read) => ReadIsHarmless(s, r, read);
    }
  }

  /** Over every run: while getNextRequestToSend is between front and removeFirst, the queue is not
      empty, whoever inserts or cancels meanwhile. So removeFirst never meets an empty queue. */
  lemma {:induction false} QueueStaysFilled(actions: seq<Action>)
    requires IsRun(actions)
    ensures QueueFilled(After(actions))
    ensures After(actions).dequeue.Added? ==>
              Enabled(After(actions), OfWriter(After(actions).dequeue.w, RemoveFromQueue))
  {
    if actions != [] {
      QueueStaysFilled(actions[..|actions| - 1]);
      StepKeepsFilled(After(actions[..|actions| - 1]), actions[|actions| - 1]);
    }
  }

  /** The n-th step of the run is a removeFirst. */
  ghost predicate RemovesAt(actions: seq<Action>, n: nat) {
    IsRun(actions) && n < |actions| && actions[n].OfWriter? && actions[n].write.RemoveFromQueue?
  }

  /** The request that getNextRequestToSend takes with a removeFirst. */
  ghost function Taken(actions: seq<Action>, n: nat): Id
    requires RemovesAt(actions, n)
  {
    AtStep(actions, n);
    At(actions, n).dequeue.id
  }

  /** The request that the removeFirst takes off the queue. */
  ghost function Removed(actions: seq<Action>, n: nat): Id
    requires RemovesAt(actions, n)
  {
    AtStep(actions, n);
    At(actions, n).c.req.sendQueue[0]
  }
}
