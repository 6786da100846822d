/** The methods of a connection: each does what the mutex-protected regions of the step machine
    do, taken together. */
module VstConnectionMethods {
  import opened Bytes
  import opened MessageIds
  import opened MessageStores
  import opened VstConnectionRuns
  import opened VstConnections
  import opened VstItems

  datatype AuthenticationType = NoAuth | Basic | Jwt

  /** getNextRequestToSend as a whole: the request taken, if any, and the new state. */
  function NextRequest(c: Connection, w: Loop): (Option<Id>, Connection) {
    if c.loops.writeLoop != Some(w) || c.req.failure then (None, c)
    else if c.req.sendQueue == [] then (None, c.(loops := c.loops.StopWriting()))
    else
      var next := c.req.sendQueue[0];
      (Some(next), c.(req := c.req.StoreRequest(next).RemoveFirst(), dequeues := c.dequeues + [(w, next)]))
  }

  /** shutdownConnection as a whole. */
  function Shutdown(c: Connection): Connection {
    c.(loops := c.loops.StopWriting().StopReading(), req := c.req.CancelAll())
  }

  /** The end of finishInitialization as a whole. */
  function SetUp(c: Connection, authenticate: bool): Connection {
    var req := if authenticate then c.req.InsertAuth() else c.req;
    c.(req := req, connected := true, loops := c.loops.StartWriting().StartReading())
  }

  const VST_WRITE_ERROR: Error := 1103
  const CANCELED_DURING_RESET: Error := 1104

  class VstConnection {
    const sendQueue: SendQueue
    const messageStore: MessageStore
    const authenticationType: AuthenticationType
    var messageID: Id
    var permanentFailure: bool
    var connected: bool
    var readLoop: Option<Loop>
    var writeLoop: Option<Loop>
    var nextLoop: Loop
    ghost var all: map<Id, RequestItem>  // every item created so far
    ghost var objects: set<object>       // the items and their callbacks
    ghost var req: Requests              // what the step machine knows of all this
    // history
    ghost var past: set<Loop>
    ghost var restarts: seq<Loop>
    ghost var together: set<(Loop, Loop)>
    ghost var dequeues: seq<(Loop, Id)>

    ghost predicate Valid()
      reads this, sendQueue, messageStore, objects
    {
      FitsItems(req, false)
    }

    /** The requests are in keeping with the items, and with a permanent failure declared if
        `failure` says so. */
    ghost predicate FitsItems(req: Requests, failure: bool)
      reads this, sendQueue, messageStore, objects
    {
      && this !in objects && sendQueue !in objects && Stocked(messageStore, all, objects, req)
      && QueueMatches(all, sendQueue.queue, req.sendQueue)
      && req.lastId == messageID && (req.failure <==> permanentFailure || failure)
    }

    ghost function View(): Connection
      reads this
    {
      Connection(req, LoopTable(readLoop, writeLoop, nextLoop, past, restarts, together), connected, dequeues)
    }

    constructor (authenticationType: AuthenticationType)
      ensures Valid() && View() == INITIAL && this.authenticationType == authenticationType
      ensures fresh(sendQueue) && fresh(messageStore) && objects == {}
    {
      this.authenticationType := authenticationType;
      sendQueue := new SendQueue();
      messageStore := new MessageStore();
      messageID, permanentFailure, connected := 0, false, false;
      readLoop, writeLoop, nextLoop := None, None, 0;
      all, objects, req := map[], {}, INITIAL.req;
      past, restarts, together, dequeues := {}, [], {}, [];
    }

    method CreateRequestItem(request: Request, isAuthentication: bool) returns (item: RequestItem)
      requires Valid()
      modifies this`messageID, this`all, this`objects, this`req
      ensures Valid() && fresh(objects - old(objects))
      ensures View() == old(View()).(req := Accept(old(req), isAuthentication)) && messageID in all && item == all[messageID]
      ensures item.request == Some(request) && item.callback.isAuthentication == isAuthentication
    {
      item := new RequestItem(messageID + 1, request, isAuthentication);
      Register(item);
    }

    /** Counts a new item. */
    method Register(item: RequestItem)
      requires Valid() && item !in objects && item.callback !in objects && IsNew(item, messageID + 1)
      modifies this`messageID, this`all, this`objects, this`req
      ensures Valid() && objects == old(objects) + {item, item.callback}
      ensures View() == old(View()).(req := Accept(old(req), item.callback.isAuthentication)) && messageID in all && item == all[messageID]
    {
      NewItem(messageStore, all, objects, req, item, sendQueue.queue);
      messageID := messageID + 1;
      all := all[messageID := item];
      objects := objects + {item, item.callback};
      req := Accept(req, item.callback.isAuthentication);
    }

    method Append(item: RequestItem)
      requires Valid() && item.messageID in all && item == all[item.messageID]
      modifies this`req, sendQueue
      ensures Valid() && View() == old(View()).(req := old(req).(sendQueue := old(req.sendQueue) + [item.messageID]))
      ensures sendQueue.queue == old(sendQueue.queue) + [item]
    {
      OnlyQueueDiffers(messageStore, all, objects, req, req.sendQueue + [item.messageID]);
      sendQueue.Add(item);
      req := req.(sendQueue := req.sendQueue + [item.messageID]);
    }

    method Prepend(item: RequestItem)
      requires Valid() && item.messageID in all && item == all[item.messageID]
      modifies this`req, sendQueue
      ensures Valid() && View() == old(View()).(req := old(req).(sendQueue := [item.messageID] + old(req.sendQueue)))
      ensures sendQueue.queue == [item] + old(sendQueue.queue)
    {
      OnlyQueueDiffers(messageStore, all, objects, req, [item.messageID] + req.sendQueue);
      sendQueue.Insert(item);
      req := req.(sendQueue := [item.messageID] + req.sendQueue);
    }

    /** sendRequest, up to the look at _connected. */
    method QueueRequest(request: Request) returns (id: Id)
      requires Valid()
      modifies this`messageID, this`all, this`objects, this`req, sendQueue
      ensures Valid() && fresh(objects - old(objects))
      ensures View() == old(View()).(req := old(View()).req.Enqueue()) && id == messageID
      ensures id in all && all[id].request == Some(request) && sendQueue.queue == old(sendQueue.queue) + [all[id]]
    {
      var item := CreateRequestItem(request, false);
      Append(item);
      AcceptedThenQueued(old(req));
      id := messageID;
    }

    /** Puts an authentication request in front of all others. */
    method InsertRequest(request: Request)
      requires Valid()
      modifies this`messageID, this`all, this`objects, this`req, sendQueue
      ensures Valid() && fresh(objects - old(objects))
      ensures View() == old(View()).(req := old(View()).req.InsertAuth())
      ensures messageID in all && all[messageID].request == Some(request) && all[messageID].callback.isAuthentication
      ensures sendQueue.queue == [all[messageID]] + old(sendQueue.queue)
    {
      var item := CreateRequestItem(request, true);
      Prepend(item);
      AcceptedThenQueued(old(req));
    }

    /** False stands for the exception that JWT authentication is not implemented. */
    method InsertAuthenticationRequests(request: Request) returns (ok: bool)
      requires Valid()
      modifies this`messageID, this`all, this`objects, this`req, sendQueue
      ensures Valid() && fresh(objects - old(objects))
      ensures ok <==> authenticationType != Jwt
      ensures View() == if authenticationType == Basic then old(View()).(req := old(View()).req.InsertAuth()) else old(View())
      ensures if authenticationType == Basic then
                && messageID in all && all[messageID].request == Some(request) && all[messageID].callback.isAuthentication
                && sendQueue.queue == [all[messageID]] + old(sendQueue.queue)
              else sendQueue.queue == old(sendQueue.queue)
    {
      match authenticationType {
        case NoAuth =>
          ok := true;
        case Basic =>
          InsertRequest(request);
          ok := true;
        case Jwt =>
          ok := false;
      }
    }

    /** Returns the loop to start, if there was none. */
    method StartWriting() returns (newLoop: Option<Loop>)
      requires Valid()
      modifies this`writeLoop, this`nextLoop, this`together
      ensures Valid()
      ensures View() == old(View()).(loops := old(View()).loops.StartWriting())
      ensures writeLoop.Some? && (old(writeLoop).Some? ==> writeLoop == old(writeLoop))
      ensures newLoop == if old(writeLoop).Some? then None else writeLoop
    {
      if writeLoop.Some? {
        return None;
      }
      writeLoop := Some(nextLoop);
      nextLoop := nextLoop + 1;
      together := if readLoop.Some? then together + {(readLoop.value, writeLoop.value)} else together;
      newLoop := writeLoop;
    }

    method StartReading() returns (newLoop: Option<Loop>)
      requires Valid()
      modifies this`readLoop, this`nextLoop, this`together
      ensures Valid()
      ensures View() == old(View()).(loops := old(View()).loops.StartReading())
      ensures readLoop.Some? && (old(readLoop).Some? ==> readLoop == old(readLoop))
      ensures newLoop == if old(readLoop).Some? then None else readLoop
    {
      if readLoop.Some? {
        return None;
      }
      readLoop := Some(nextLoop);
      nextLoop := nextLoop + 1;
      together := if writeLoop.Some? then together + {(readLoop.value, writeLoop.value)} else together;
      newLoop := readLoop;
    }

    /** sendRequest: queues the request and, if the connection is up, starts a write loop. */
    method SendRequest(request: Request) returns (id: Id)
      requires Valid()
      modifies this`messageID, this`all, this`objects, this`req, this`writeLoop, this`nextLoop, this`together, sendQueue
      ensures Valid() && fresh(objects - old(objects)) && id == messageID
      ensures var queued := old(View()).(req := old(View()).req.Enqueue());
              View() == if connected then queued.(loops := queued.loops.StartWriting()) else queued
      ensures id in all && all[id].request == Some(request) && sendQueue.queue == old(sendQueue.queue) + [all[id]]
      ensures connected ==> writeLoop.Some?
    {
      id := QueueRequest(request);
      if connected {
        var newLoop := StartWriting();
      }
    }

    method StopWriting()
      requires Valid()
      modifies this`writeLoop, this`past
      ensures Valid() && writeLoop == None
      ensures View() == old(View()).(loops := old(View()).loops.StopWriting())
    {
      past := past + AsSet(writeLoop);
      writeLoop := None;
    }

    method StopReading()
      requires Valid()
      modifies this`readLoop, this`past
      ensures Valid() && readLoop == None
      ensures View() == old(View()).(loops := old(View()).loops.StopReading())
    {
      past := past + AsSet(readLoop);
      readLoop := None;
    }

    /** Also returns the time to wait for data, the least timeout of the requests in the store; None
        stands for the null pointer of a stored item that has handed its request over. */
    method ShouldStopReading(r: Loop) returns (stop: bool, timeout: Option<int>)
      requires Valid()
      modifies this`readLoop, this`past
      ensures Valid()
      ensures stop <==> old(View()).MustStopReading(r)
      ensures stop <==> old(readLoop) != Some(r) || permanentFailure || (messageStore.items == map[] && sendQueue.queue == [])
      ensures View() == old(View()).CheckReading(r)
      ensures !stop ==> (timeout.Some? <==> req.messageStore <= req.owned)
      ensures !stop && timeout.Some? ==>
                && timeout.value <= 120_000
                && forall id :: id in req.messageStore ==> timeout.value <= all[id].request.value.timeout
    {
      timeout := None;
      if readLoop != Some(r) {
        return true, timeout;
      }
      if permanentFailure {
        return true, timeout;
      }
      if messageStore.items == map[] && sendQueue.queue == [] {
        past := past + AsSet(readLoop);
        readLoop := None;
        return true, timeout;
      }
      StoredOwners(messageStore, all, objects, req);
      timeout := messageStore.MinimumTimeout();
      return false, timeout;
    }

    method Store(item: RequestItem)
      requires Valid() && item.messageID in all && item == all[item.messageID]
      modifies this`req, messageStore
      ensures Valid() && View() == old(View()).(req := old(req).StoreRequest(item.messageID))
      ensures messageStore.items ==
                if item.messageID in old(messageStore.items) then old(messageStore.items)
                else old(messageStore.items)[item.messageID := item]
    {
      ghost var items, footprint := messageStore.items, messageStore.footprint;
      messageStore.Add(item);
      ItemStored(messageStore, all, objects, req, item.messageID, items, footprint);
      req := req.StoreRequest(item.messageID);
    }

    method RemoveFirst()
      requires Valid() && sendQueue.queue != []
      modifies this`req, sendQueue
      ensures Valid() && old(req.sendQueue) != [] && View() == old(View()).(req := old(req).RemoveFirst())
      ensures [old(sendQueue.queue)[0]] + sendQueue.queue == old(sendQueue.queue)
    {
      ghost var queue := sendQueue.queue;
      assert [queue[0]] + queue[1..] == queue;
      OnlyQueueDiffers(messageStore, all, objects, req, req.sendQueue[1..]);
      sendQueue.RemoveFirst();
      req := req.RemoveFirst();
    }

    /** Moves the first request from the queue to the store. */
    method Take(first: RequestItem, ghost w: Loop)
      requires Valid() && sendQueue.queue != [] && first == sendQueue.queue[0]
      modifies this`req, this`dequeues, sendQueue, messageStore
      ensures Valid() && old(req.sendQueue) != [] && old(req.sendQueue)[0] == first.messageID
      ensures View() == old(View()).(req := old(req).StoreRequest(first.messageID).RemoveFirst(),
                                     dequeues := old(dequeues) + [(w, first.messageID)])
      ensures [first] + sendQueue.queue == old(sendQueue.queue) && first.messageID in messageStore.items
    {
      dequeues := dequeues + [(w, first.messageID)];
      Store(first);
      RemoveFirst();
    }

    method GetNextRequestToSend(w: Loop) returns (next: RequestItem?)
      requires Valid()
      modifies this`req, this`writeLoop, this`past, this`dequeues, sendQueue, messageStore
      ensures Valid()
      ensures (if next == null then None else Some(next.messageID), View()) == NextRequest(old(View()), w)
      ensures next == null <==> old(writeLoop) != Some(w) || permanentFailure || old(sendQueue.queue) == []
      ensures next == null ==> sendQueue.queue == old(sendQueue.queue)
      ensures next != null ==> [next] + sendQueue.queue == old(sendQueue.queue) && next.messageID in messageStore.items
    {
      if writeLoop != Some(w) {
        return null;
      }
      if permanentFailure {
        return null;
      }
      next := sendQueue.Front();
      if next == null {
        past := past + AsSet(writeLoop);
        writeLoop := None;
        return null;
      }
      Take(next, w);
    }

    /** The locked region of restartConnection for a write loop; true if the connection is to
        be restarted. */
    method ResetByWriteLoop(w: Loop) returns (restart: bool)
      requires Valid()
      modifies this`readLoop, this`writeLoop, this`past, this`restarts
      ensures Valid()
      ensures restart <==> old(writeLoop) == Some(w)
      ensures restart ==> readLoop == None && writeLoop == None
      ensures View() == old(View()).(loops := old(View()).loops.Restart(w, old(writeLoop)))
    {
      if writeLoop != Some(w) {
        return false;
      }
      past, restarts := past + AsSet(readLoop) + AsSet(writeLoop), restarts + [w];
      readLoop, writeLoop := None, None;
      return true;
    }

    method ResetByReadLoop(r: Loop) returns (restart: bool)
      requires Valid()
      modifies this`readLoop, this`writeLoop, this`past, this`restarts
      ensures Valid()
      ensures restart <==> old(readLoop) == Some(r)
      ensures restart ==> readLoop == None && writeLoop == None
      ensures View() == old(View()).(loops := old(View()).loops.Restart(r, old(readLoop)))
    {
      if readLoop != Some(r) {
        return false;
      }
      past, restarts := past + AsSet(readLoop) + AsSet(writeLoop), restarts + [r];
      readLoop, writeLoop := None, None;
      return true;
    }

    /** Hands the request of the item over; true if its callback declares a permanent failure. */
    method HandOver(item: RequestItem, error: Error) returns (failure: bool)
      requires Valid() && item.messageID in all && item == all[item.messageID]
      modifies item, item.callback
      ensures FitsItems(req.Invoke(item.messageID, error != 0), failure)
      ensures item.request == None && item.callback.calls == old(item.callback.Outcome(error))
    {
      assert Matches(req, item);
      failure := item.Answer(error);
      ItemAnswered(messageStore, all, objects, req, item.messageID, error != 0);
    }

    /** Declares a permanent failure if `failure` says so. */
    method Declare(failure: bool, ghost requests: Requests)
      requires FitsItems(requests, failure)
      modifies this`req, this`permanentFailure
      ensures Valid() && View() == old(View()).(req := requests)
    {
      permanentFailure := permanentFailure || failure;
      req := requests;
    }

    /** Answers the item, whose callback may declare a permanent failure. */
    method Answer(item: RequestItem, error: Error)
      requires Valid() && item.messageID in all && item == all[item.messageID]
      modifies this`req, this`permanentFailure, item, item.callback
      ensures Valid() && View() == old(View()).(req := old(req).Invoke(item.messageID, error != 0))
      ensures item.request == None && item.callback.calls == old(item.callback.Outcome(error))
    {
      var failure := HandOver(item, error);
      Declare(failure, req.Invoke(item.messageID, error != 0));
    }

    method Remove(id: Id)
      requires Valid()
      modifies this`req, messageStore
      ensures Valid() && req == old(req).RemoveByID(id) && messageStore.items == old(messageStore.items) - {id}
    {
      ghost var was, items, footprint := req, messageStore.items, messageStore.footprint;
      messageStore.RemoveByID(id);
      req := was.RemoveByID(id);
      ItemRemoved(messageStore, all, objects, was, id, items, footprint);
    }

    /** The item stored under the id, with its callback. */
    ghost function StoredObjects(id: Id): set<object>
      reads messageStore
    {
      if id in messageStore.items then {messageStore.items[id], messageStore.items[id].callback} else {}
    }

    /** processChunk, once the response of request id is complete: takes the item out of the store
        and answers it; false if there is none. */
    method Complete(id: Id) returns (found: bool)
      requires Valid()
      modifies this`req, this`permanentFailure, messageStore, StoredObjects(id)
      ensures Valid() && (found <==> id in old(req.messageStore))
      ensures found <==> id in old(messageStore.items)
      ensures messageStore.items == old(messageStore.items) - {id}
      ensures found ==>
                var item := old(messageStore.items)[id];
                item.request == None && item.callback.calls == old(item.callback.Outcome(0))
      ensures req == if found then old(req).RemoveByID(id).Invoke(id, false) else old(req)
    {
      var item := messageStore.FindByID(id);
      if item == null {
        return false;
      }
      Remove(id);
      Answer(item, 0);
      return true;
    }

    /** asyncWriteCallback with an error, up to the restart. */
    method FailToWrite(item: RequestItem)
      requires Valid() && item.messageID in all && item == all[item.messageID]
      modifies this`req, this`permanentFailure, messageStore, item, item.callback
      ensures Valid()
      ensures req == old(req).RemoveByID(item.messageID).Invoke(item.messageID, true)
      ensures messageStore.items == old(messageStore.items) - {item.messageID}
      ensures item.request == None && item.callback.calls == old(item.callback.Outcome(1103))
    {
      Remove(item.messageID);
      Answer(item, VST_WRITE_ERROR);
    }

    /** Answers the items in the store; true if one of them declares a permanent failure. */
    method CancelStored(error: Error) returns (failure: bool)
      requires Valid() && error != 0
      modifies messageStore, messageStore.footprint
      ensures FitsItems(req.CancelAll(), failure) && messageStore.items == map[]
      ensures forall id :: id in old(messageStore.items) ==>
                var item := old(messageStore.items)[id];
                item.request == None && item.callback.calls == old(item.callback.Outcome(error))
    {
      ghost var stored := messageStore.items;
      FailsWithAuthentication(messageStore, all, objects, req);
      failure := messageStore.CancelAll(error);
      assert forall id :: id in stored ==> IsAnswered(stored[id]);
      assert forall id :: id in all && id !in stored ==> Matches(req, all[id]);
      ItemsCancelled(messageStore, all, objects, req);
    }

    method CancelAll(error: Error)
      requires Valid() && error != 0
      modifies this`req, this`permanentFailure, messageStore, messageStore.footprint
      ensures Valid() && View() == old(View()).(req := old(View()).req.CancelAll()) && messageStore.items == map[]
      ensures forall id :: id in old(messageStore.items) ==>
                var item := old(messageStore.items)[id];
                item.request == None && item.callback.calls == old(item.callback.Outcome(error))
    {
      var failure := CancelStored(error);
      Declare(failure, req.CancelAll());
    }

    method StopLoops()
      requires Valid()
      modifies this`readLoop, this`writeLoop, this`past
      ensures Valid() && View() == old(View()).(loops := old(View()).loops.StopWriting().StopReading())
      ensures readLoop == None && writeLoop == None
    {
      StopWriting();
      StopReading();
    }

    /** Stops the loops and cancels the requests in the store. */
    method ShutdownConnection(error: Error)
      requires Valid() && error != 0
      modifies this`req, this`permanentFailure, this`readLoop, this`writeLoop, this`past, messageStore, messageStore.footprint
      ensures Valid() && View() == Shutdown(old(View()))
      ensures readLoop == None && writeLoop == None && messageStore.items == map[]
      ensures forall id :: id in old(messageStore.items) ==>
                var item := old(messageStore.items)[id];
                item.request == None && item.callback.calls == old(item.callback.Outcome(error))
    {
      StopLoops();
      CancelAll(error);
    }

    /** The protocol header could not be written. */
    method TakeDown()
      requires Valid()
      modifies this`req, this`permanentFailure, this`connected, this`readLoop, this`writeLoop, this`past
      modifies messageStore, messageStore.footprint
      ensures Valid() && View() == Shutdown(old(View())).(connected := false)
      ensures !connected && readLoop == None && writeLoop == None && messageStore.items == map[]
      ensures forall id :: id in old(messageStore.items) ==>
                var item := old(messageStore.items)[id];
                item.request == None && item.callback.calls == old(item.callback.Outcome(1104))
    {
      connected := false;
      ShutdownConnection(CANCELED_DURING_RESET);
    }

    method StartLoops()
      requires Valid()
      modifies this`readLoop, this`writeLoop, this`nextLoop, this`together
      ensures Valid() && writeLoop.Some? && readLoop.Some?
      ensures View() == old(View()).(loops := old(View()).loops.StartWriting().StartReading())
    {
      var writing := StartWriting();
      var reading := StartReading();
    }

    /** The protocol header has been written. False stands for the exception of an authentication type
        not implemented. */
    method BringUp(request: Request) returns (ok: bool)
      requires Valid()
      modifies this`messageID, this`all, this`objects, this`req, this`connected
      modifies this`readLoop, this`writeLoop, this`nextLoop, this`together, sendQueue
      ensures Valid() && (ok <==> authenticationType != Jwt)
      ensures View() == if ok then SetUp(old(View()), authenticationType == Basic) else old(View())
      ensures ok ==> connected && writeLoop.Some? && readLoop.Some?
      ensures if authenticationType == Basic then
                && messageID in all && all[messageID].request == Some(request) && all[messageID].callback.isAuthentication
                && sendQueue.queue == [all[messageID]] + old(sendQueue.queue)
              else sendQueue.queue == old(sendQueue.queue)
    {
      ok := InsertAuthenticationRequests(request);
      if ok {
        connected := true;
        StartLoops();
      }
    }

    /** The callback of finishInitialization: the protocol header has been written, or that has
        failed. */
    method HeaderWritten(failed: bool, request: Request) returns (ok: bool)
      requires Valid()
      modifies this`messageID, this`all, this`objects, this`req, this`permanentFailure, this`connected
      modifies this`readLoop, this`writeLoop, this`nextLoop, this`past, this`together
      modifies sendQueue, messageStore, messageStore.footprint
      ensures Valid() && (ok <==> failed || authenticationType != Jwt)
      ensures failed ==> View() == Shutdown(old(View())).(connected := false)
      ensures !failed && ok ==> View() == SetUp(old(View()), authenticationType == Basic)
      ensures !ok ==> View() == old(View())
    {
      if failed {
        TakeDown();
        return true;
      }
      ok := BringUp(request);
    }
  }

  // The steps of the machine

  /** Undisturbed, the steps of a write loop inside getNextRequestToSend take the request that
      the method takes and leave the same connection behind. */
  lemma DequeueInSteps(s: State, w: Loop)
    requires s.WriterAt(w, Next) && s.Unlocked()
    ensures var (next, c) := NextRequest(s.c, w);
            var s1 := WriteStep(s, w, Peek);
            if next.Some? then
              && s1.dequeue == Peeked(w, next.value)
              && var s2 := WriteStep(s1, w, AddToStore);
              && WriteEnabled(s2, w, RemoveFromQueue)
              && WriteStep(s2, w, RemoveFromQueue).c == c
              && WriteStep(s2, w, RemoveFromQueue).WriterAt(w, StartReader(next.value))
            else if s1.dequeue.Idle? then s1.c == c && w !in s1.writers
            else s1.dequeue == SawEmpty(w) && WriteStep(s1, w, GiveUp).c == c && w !in WriteStep(s1, w, GiveUp).writers
  {
  }

  /** Likewise for the steps of a shutdown. */
  lemma ShutdownInSteps(s: State, reconnect: bool)
    requires ShutdownWriting(reconnect) in s.tasks
    ensures var s1 := ShutdownStep(s, StopWriting(reconnect));
            var s2 := ShutdownStep(s1, StopReading(reconnect));
            && Enabled(s1, OfShutdown(StopReading(reconnect)))
            && Enabled(s2, OfShutdown(CancelAll(reconnect)))
            && ShutdownStep(s2, CancelAll(reconnect)).c == Shutdown(s.c)
  {
  }

  /** Behind cancelAll, a new connection is set up exactly if the shutdown belongs to a restart and
      no permanent failure has been declared. */
  lemma ReconnectsExactlyWhen(s: State, reconnect: bool)
    requires ShutdownStore(reconnect) in s.tasks
    ensures var s' := ShutdownStep(s, CancelAll(reconnect));
            && s'.tasks[Connecting] == s.tasks[Connecting] + (if reconnect && !s'.c.req.failure then 1 else 0)
            && s'.tasks[ShutdownStore(reconnect)] == s.tasks[ShutdownStore(reconnect)] - 1
  {
  }

  /** For the steps of sendRequest. */
  lemma SendInSteps(s: State)
    requires s.Unlocked()
    ensures var s1 := SenderStep(s, Send);
            var s2 := SenderStep(s1, SenderCheck);
            && Enabled(s1, OfSender(SenderCheck)) && s1.c == s.c.(req := s.c.req.Enqueue())
            && if !s.c.connected then s2.c == s1.c && s2.tasks == s.tasks
               else
                 && Enabled(s2, OfSender(SenderStart))
                 && SenderStep(s2, SenderStart).c == s1.c.(loops := s1.c.loops.StartWriting())
  {
    var s1 := SenderStep(s, Send);
    assert s1.tasks - multiset{SenderQueued} == s.tasks;
  }

  /** For a header that could not be written. */
  lemma HeaderFailedInSteps(s: State)
    requires Connecting in s.tasks && s.Unlocked()
    ensures var s1 := ConnectStep(s, HeaderFailed);
            && Enabled(s1, OfShutdown(StopWriting(false)))
            && var s2 := ShutdownStep(s1, StopWriting(false));
            && Enabled(s2, OfShutdown(StopReading(false)))
            && var s3 := ShutdownStep(s2, StopReading(false));
            && Enabled(s3, OfShutdown(CancelAll(false)))
            && ShutdownStep(s3, CancelAll(false)).c == Shutdown(s.c).(connected := false)
  {
    ShutdownInSteps(ConnectStep(s, HeaderFailed), false);
  }

  /** A failed connection attempt shuts the connection down, without another attempt. */
  lemma ConnectFailedInSteps(s: State)
    requires Connecting in s.tasks && s.Unlocked()
    ensures var s1 := ConnectStep(s, ConnectFailed);
            && Enabled(s1, OfShutdown(StopWriting(false)))
            && var s2 := ShutdownStep(s1, StopWriting(false));
            && Enabled(s2, OfShutdown(StopReading(false)))
            && var s3 := ShutdownStep(s2, StopReading(false));
            && Enabled(s3, OfShutdown(CancelAll(false)))
            && ShutdownStep(s3, CancelAll(false)).c == Shutdown(s.c)
  {
    ShutdownInSteps(ConnectStep(s, ConnectFailed), false);
  }

  /** s' is s after a restart by loop l, of which `current` is the current one of its kind: a shutdown
      follows exactly if l is current. */
  predicate Restarts(s: State, l: Loop, current: Option<Loop>, s': State) {
    && s'.c == s.c.(loops := s.c.loops.Restart(l, current))
    && s'.tasks == s.tasks + if current == Some(l) then multiset{ShutdownWriting(true)} else multiset{}
  }

  /** For the restart by a loop that has met an error, or whose deadline has passed. */
  lemma RestartInStep(s: State, l: Loop)
    requires s.Unlocked()
    ensures s.WriterAt(l, Restarting) ==> Restarts(s, l, s.c.loops.writeLoop, WriteStep(s, l, RestartAfterWrite))
    ensures s.ReaderAt(l, ReadFailed) ==> Restarts(s, l, s.c.loops.readLoop, ReadStep(s, l, RestartAfterRead))
    ensures Restarts(s, l, s.c.loops.writeLoop, WriteStep(s, l, WriteDeadline))
    ensures Restarts(s, l, s.c.loops.readLoop, ReadStep(s, l, ReadDeadline))
  {
  }

  /** For the steps of a read loop that finds, removes and answers a request. */
  lemma CompleteInSteps(s: State, r: Loop, id: Id)
    requires s.ReaderAt(r, Parsing)
    ensures var s1 := ReadStep(s, r, Chunk(id));
            if id !in s.c.req.messageStore then s1 == s
            else
              && ReadEnabled(s1, r, VstConnectionRuns.Complete)
              && var s2 := ReadStep(s1, r, VstConnectionRuns.Complete);
              && ReadEnabled(s2, r, VstConnectionRuns.Answer)
              && var s3 := ReadStep(s2, r, VstConnectionRuns.Answer);
              && s3.c == s.c.(req := s.c.req.RemoveByID(id).Invoke(id, false)) && s3.ReaderAt(r, Parsing)
  {
  }

  /** For the steps of a write loop whose request could not be written. */
  lemma FailToWriteInSteps(s: State, w: Loop, id: Id)
    requires s.WriterAt(w, Writing(id))
    ensures var s1 := WriteStep(s, w, WriteFails);
            && WriteEnabled(s1, w, RemoveFailed)
            && var s2 := WriteStep(s1, w, RemoveFailed);
            && WriteEnabled(s2, w, AnswerFailed)
            && var s3 := WriteStep(s2, w, AnswerFailed);
            && s3.c == s.c.(req := s.c.req.RemoveByID(id).Invoke(id, true)) && s3.WriterAt(w, Restarting)
  {
  }

  lemma AuthenticationInStep(s: State, authenticate: bool)
    requires Initialized in s.tasks
    ensures var s' := ConnectStep(s, if authenticate then InsertAuthentication else NoAuthentication);
            && s'.c == s.c.(req := if authenticate then s.c.req.InsertAuth() else s.c.req)
            && Authenticated in s'.tasks && s'.dequeue == s.dequeue
  {
  }

  lemma FirstLoopsInSteps(s: State)
    requires ConnectStartWriting in s.tasks && s.Unlocked()
    ensures var s' := ConnectStep(s, FirstWriting);
            && ConnectEnabled(s', FirstReading)
            && ConnectStep(s', FirstReading).c == s.c.(loops := s.c.loops.StartWriting().StartReading())
  {
    var s' := ConnectStep(s, FirstWriting);
    assert s'.c == s.c.(loops := s.c.loops.StartWriting());
  }

  /** For the steps of the end of finishInitialization, once the header is written. */
  lemma SetUpInSteps(s: State, authenticate: bool)
    requires Initialized in s.tasks && s.Unlocked()
    ensures var s1 := ConnectStep(s, if authenticate then InsertAuthentication else NoAuthentication);
            var s2 := ConnectStep(s1, SetConnected);
            var s3 := ConnectStep(s2, FirstWriting);
            && ConnectEnabled(s1, SetConnected) && ConnectEnabled(s2, FirstWriting) && ConnectEnabled(s3, FirstReading)
            && ConnectStep(s3, FirstReading).c == SetUp(s.c, authenticate)
  {
    AuthenticationInStep(s, authenticate);
    var s1 := ConnectStep(s, if authenticate then InsertAuthentication else NoAuthentication);
    FirstLoopsInSteps(ConnectStep(s1, SetConnected));
  }
}
