/** The order of the requests that are taken from the send queue, being moved, and queued. */
module VstRequestOrder {
  import opened Bytes
  import opened MessageIds
  import opened VstConnections
  import opened VstConnectionRuns
  import opened VstDequeue

  // Requests get their ids in the order in which they are made.

  ghost predicate Increases(ids: seq<Id>, auth: set<Id>) {
    forall i, j :: 0 <= i < j < |ids| && ids[i] !in auth && ids[j] !in auth ==> ids[i] < ids[j]
  }

  ghost predicate NeverDecreases(ids: seq<Id>, auth: set<Id>) {
    forall i, j :: 0 <= i < j < |ids| && ids[i] !in auth && ids[j] !in auth ==> ids[i] <= ids[j]
  }

  /** Authentication requests stand in front of all others, the latest one first. */
  ghost predicate AuthenticationFirst(ids: seq<Id>, auth: set<Id>) {
    forall i, j :: 0 <= i < j < |ids| && ids[j] in auth ==> ids[i] in auth && ids[i] > ids[j]
  }

  /** All in a come before all in b. */
  ghost predicate InFront(a: seq<Id>, b: seq<Id>, auth: set<Id>, strict: bool) {
    forall i, j :: 0 <= i < |a| && 0 <= j < |b| && a[i] !in auth && b[j] !in auth ==>
      a[i] <= b[j] && (strict ==> a[i] < b[j])
  }

  ghost predicate Given(ids: seq<Id>, lastId: Id) {
    forall k :: 0 <= k < |ids| ==> ids[k] <= lastId
  }

  /** The requests taken so far. */
  function TakenIds(dequeues: seq<(Loop, Id)>): (ids: seq<Id>)
    ensures |ids| == |dequeues| && forall k :: 0 <= k < |ids| ==> ids[k] == dequeues[k].1
  {
    seq(|dequeues|, k requires 0 <= k < |dequeues| => dequeues[k].1)
  }

  function AsSeq(id: Option<Id>): seq<Id> {
    if id.Some? then [id.value] else []
  }

  /** Requests were taken in order, then comes the one being moved, then those in the queue. If the
      order is strict, none is taken twice and the one being moved is the front of the queue. */
  ghost predicate InOrder(taken: seq<Id>, moving: seq<Id>, queue: seq<Id>, auth: set<Id>, lastId: Id, strict: bool) {
    && Given(taken, lastId) && Given(moving, lastId) && Given(queue, lastId)
    && (forall id :: id in auth ==> id <= lastId)
    && Increases(queue, auth) && AuthenticationFirst(queue, auth)
    && (if strict then Increases(taken, auth) else NeverDecreases(taken, auth))
    && InFront(taken, queue, auth, strict)
    && InFront(taken, moving, auth, strict)
    && InFront(moving, queue, auth, false)
    && (strict ==> moving <= queue)
  }

  lemma OneAppended(taken: seq<Id>, moving: seq<Id>, queue: seq<Id>, auth: set<Id>, lastId: Id, strict: bool)
    requires InOrder(taken, moving, queue, auth, lastId, strict)
    ensures InOrder(taken, moving, queue + [lastId + 1], auth, lastId + 1, strict)
  {
  }

  lemma OnePrepended(taken: seq<Id>, moving: seq<Id>, queue: seq<Id>, auth: set<Id>, lastId: Id, strict: bool)
    requires InOrder(taken, moving, queue, auth, lastId, strict) && (strict ==> moving == [])
    ensures InOrder(taken, moving, [lastId + 1] + queue, auth + {lastId + 1}, lastId + 1, strict)
  {
  }

  lemma FrontSeen(taken: seq<Id>, queue: seq<Id>, auth: set<Id>, lastId: Id, strict: bool)
    requires InOrder(taken, [], queue, auth, lastId, strict) && queue != []
    ensures InOrder(taken, [queue[0]], queue, auth, lastId, strict)
  {
  }

  lemma FrontTaken(taken: seq<Id>, id: Id, queue: seq<Id>, auth: set<Id>, lastId: Id, strict: bool)
    requires InOrder(taken, [id], queue, auth, lastId, strict) && queue != []
    ensures InOrder(taken + [id], [], queue[1..], auth, lastId, strict)
  {
  }

  ghost predicate StateInOrder(s: State, strict: bool) {
    InOrder(TakenIds(s.c.dequeues), AsSeq(MovingId(s.dequeue)), s.c.req.sendQueue, s.c.req.auth, s.c.req.lastId, strict)
  }

  /** The step leaves alone what the order speaks of. */
  predicate LeavesOrder(s: State, s': State) {
    && s'.c.dequeues == s.c.dequeues && MovingId(s'.dequeue) == MovingId(s.dequeue)
    && s'.c.req.sendQueue == s.c.req.sendQueue && s'.c.req.auth == s.c.req.auth && s'.c.req.lastId == s.c.req.lastId
  }

  lemma LeftInOrder(s: State, s': State, strict: bool)
    requires StateInOrder(s, strict) && LeavesOrder(s, s')
    ensures StateInOrder(s', strict)
  {
  }

  lemma OneQueued(s: State, s': State, strict: bool)
    requires StateInOrder(s, strict)
    requires s'.c.dequeues == s.c.dequeues && s'.dequeue == s.dequeue && s'.c.req.auth == s.c.req.auth
    requires s'.c.req.lastId == s.c.req.lastId + 1 && s'.c.req.sendQueue == s.c.req.sendQueue + [s.c.req.lastId + 1]
    ensures StateInOrder(s', strict)
  {
    OneAppended(TakenIds(s.c.dequeues), AsSeq(MovingId(s.dequeue)), s.c.req.sendQueue, s.c.req.auth, s.c.req.lastId, strict);
  }

  lemma OneInserted(s: State, s': State, strict: bool)
    requires StateInOrder(s, strict) && (strict ==> MovingId(s.dequeue) == None)
    requires s'.c.dequeues == s.c.dequeues && s'.dequeue == s.dequeue && s'.c.req.auth == s.c.req.auth + {s.c.req.lastId + 1}
    requires s'.c.req.lastId == s.c.req.lastId + 1 && s'.c.req.sendQueue == [s.c.req.lastId + 1] + s.c.req.sendQueue
    ensures StateInOrder(s', strict)
  {
    OnePrepended(TakenIds(s.c.dequeues), AsSeq(MovingId(s.dequeue)), s.c.req.sendQueue, s.c.req.auth, s.c.req.lastId, strict);
  }
}
