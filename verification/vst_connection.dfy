/** The shared state of a connection and its mutex-protected regions. */
module VstConnections {
  import opened Bytes
  import opened MessageIds

  type Loop = nat

  /** Requests are known by their message ids. */
  datatype Requests = Requests(
    sendQueue: seq<Id>,
    messageStore: set<Id>,
    lastId: Id,
    owned: set<Id>,         // items that still own their request
    invoked: set<Id>,       // items whose callback has been invoked
    answered: multiset<Id>, // history: the callbacks run
    auth: set<Id>,          // authentication requests
    failure: bool)          // _permanent_failure
  {
    /** createRequestItem and SendQueue.add. */
    function Enqueue(): Requests {
      this.(lastId := lastId + 1, sendQueue := sendQueue + [lastId + 1], owned := owned + {lastId + 1})
    }

    /** createRequestItem and SendQueue.insert, for an authentication request. */
    function InsertAuth(): Requests {
      this.(lastId := lastId + 1, sendQueue := [lastId + 1] + sendQueue, owned := owned + {lastId + 1},
            auth := auth + {lastId + 1})
    }

    /** MessageStore.add, in getNextRequestToSend. */
    function StoreRequest(id: Id): Requests {
      this.(messageStore := messageStore + {id})
    }

    /** SendQueue.removeFirst, in getNextRequestToSend. */
    function RemoveFirst(): Requests
      requires sendQueue != []
    {
      this.(sendQueue := sendQueue[1..])
    }

    function RemoveByID(id: Id): Requests {
      this.(messageStore := messageStore - {id})
    }

    /** CallOnceRequestCallback.invoke; the request is handed over in any case. The callback of
        an authentication request declares a permanent failure when it gets an error. */
    function Invoke(id: Id, error: bool): Requests {
      this.(owned := owned - {id}, invoked := invoked + {id},
            answered := if id in invoked then answered else answered + multiset{id},
            failure := failure || (error && id in auth && id !in invoked))
    }

    /** MessageStore.cancelAll. */
    function CancelAll(): Requests {
      this.(owned := owned - messageStore, invoked := invoked + messageStore,
            answered := answered + multiset(messageStore - invoked),
            failure := failure || (messageStore - invoked) * auth != {},
            messageStore := {})
    }

    predicate NothingLeft() {
      messageStore == {} && sendQueue == []
    }
  }

  /** Read and write loops are known by the order of their creation. The fields from `past` on
      record the history. */
  datatype LoopTable = LoopTable(
    readLoop: Option<Loop>,      // the current read loop
    writeLoop: Option<Loop>,     // the current write loop
    nextLoop: Loop,
    past: set<Loop>,             // loops that have been current and no longer are
    restarts: seq<Loop>,         // loops that restarted the connection
    together: set<(Loop, Loop)>) // read and write loops that were current at the same time
  {
    /** Records that the current loops, if there are two, are current together. */
    function Meet(): LoopTable {
      if readLoop.Some? && writeLoop.Some?
      then this.(together := together + {(readLoop.value, writeLoop.value)})
      else this
    }

    function StartWriting(): LoopTable {
      if writeLoop.Some? then this
      else this.(writeLoop := Some(nextLoop), nextLoop := nextLoop + 1).Meet()
    }

    function StartReading(): LoopTable {
      if readLoop.Some? then this
      else this.(readLoop := Some(nextLoop), nextLoop := nextLoop + 1).Meet()
    }

    function StopWriting(): LoopTable {
      this.(writeLoop := None, past := past + AsSet(writeLoop))
    }

    function StopReading(): LoopTable {
      this.(readLoop := None, past := past + AsSet(readLoop))
    }

    /** The locked region of both restartConnection overloads: resets the loops if the given
        loop, `current` of its kind, is still current. */
    function Restart(loop: Loop, current: Option<Loop>): LoopTable {
      if current != Some(loop) then this
      else this.(readLoop := None, writeLoop := None,
                 past := past + AsSet(readLoop) + AsSet(writeLoop), restarts := restarts + [loop])
    }
  }

  function AsSet(loop: Option<Loop>): set<Loop> {
    if loop.Some? then {loop.value} else {}
  }

  /** What the threads of a connection share. */
  datatype Connection = Connection(
    req: Requests,
    loops: LoopTable,
    connected: bool,
    dequeues: seq<(Loop, Id)>)  // history: requests taken from the send queue, and by whom
  {
    /** shouldStopReading. */
    predicate MustStopReading(r: Loop) {
      loops.readLoop != Some(r) || req.failure || req.NothingLeft()
    }

    /** The effect of shouldStopReading: an idle read loop retires. */
    function CheckReading(r: Loop): Connection {
      if loops.readLoop == Some(r) && !req.failure && req.NothingLeft()
      then this.(loops := loops.StopReading())
      else this
    }
  }

  const INITIAL :=
    Connection(Requests([], {}, 0, {}, {}, multiset{}, {}, false), LoopTable(None, None, 0, {}, [], {}), false, [])
}
