/** The whereabouts of the requests, region by region: what each mutex-protected region does to
    queue, store and finished requests, given what the threads hold and are about to answer. */
module VstAccounts {
  import opened MessageIds
  import opened VstConnections

  /** The requests still queued: without the one that is just being moved to the store. */
  function Waiting(req: Requests, moving: bool): seq<Id> {
    if moving && req.sendQueue != [] then req.sendQueue[1..] else req.sendQueue
  }

  function Count(b: bool): nat {
    if b then 1 else 0
  }

  ghost predicate Distinct(q: seq<Id>) {
    forall i, j :: 0 <= i < j < |q| ==> q[i] != q[j]
  }

  /** Queue, store and finished requests are apart; who is not finished owns its request, and
      the callbacks of exactly the finished ones have run, once. */
  ghost predicate Books(req: Requests, moving: bool) {
    var waiting := Waiting(req, moving);
    && Distinct(req.sendQueue)
    && (forall id :: id in req.sendQueue ==> 1 <= id <= req.lastId)
    && (forall id :: id in waiting ==> id !in req.messageStore && id !in req.invoked)
    && (forall id :: id in req.messageStore ==> 1 <= id <= req.lastId && id !in req.invoked)
    && (forall id :: id in req.invoked ==> 1 <= id <= req.lastId)
    && (forall id :: id in req.owned <==> 1 <= id <= req.lastId && id !in req.invoked)
    && (forall id :: req.answered[id] == Count(id in req.invoked))
  }

  /** Requests held by a thread have left the queue, those it is about to answer the store,
      too; and every accepted request is somewhere. */
  ghost predicate Traced(req: Requests, moving: bool, held: set<Id>, answering: set<Id>) {
    && (forall id :: id in held ==> 1 <= id <= req.lastId && id !in Waiting(req, moving))
    && answering <= held
    && (forall id :: id in answering ==> id !in req.messageStore)
    && (forall id :: 1 <= id <= req.lastId ==>
          id in Waiting(req, moving) || id in req.messageStore || id in req.invoked || id in answering)
  }

  ghost predicate Account(req: Requests, moving: bool, held: set<Id>, answering: set<Id>) {
    Books(req, moving) && Traced(req, moving, held, answering)
  }

  lemma Enqueued(req: Requests, moving: bool, held: set<Id>, answering: set<Id>)
    requires Account(req, moving, held, answering) && (moving ==> req.sendQueue != [])
    ensures Account(req.Enqueue(), moving, held, answering)
  {
    var id, q, q' := req.lastId + 1, req.sendQueue, req.Enqueue().sendQueue;
    assert q' == q + [id] && forall k :: 0 <= k < |q| ==> q[k] in q;
    assert forall k :: k in q' <==> k in q || k == id;
    var waiting := Waiting(req, moving);
    assert Waiting(req.Enqueue(), moving) == waiting + [id];
    assert forall k :: k in waiting + [id] <==> k in waiting || k == id;
  }

  lemma Inserted(req: Requests, held: set<Id>, answering: set<Id>)
    requires Account(req, false, held, answering)
    ensures Account(req.InsertAuth(), false, held, answering)
  {
    var id, q := req.lastId + 1, req.sendQueue;
    assert forall k :: k in [id] + q <==> k == id || k in q;
    forall i, j | 0 <= i < j < |q| + 1
      ensures ([id] + q)[i] != ([id] + q)[j]
    {
      assert ([id] + q)[j] == q[j - 1] && q[j - 1] in q;
      assert i > 0 ==> ([id] + q)[i] == q[i - 1];
    }
  }

  lemma AddedToStore(req: Requests, held: set<Id>, answering: set<Id>)
    requires Account(req, false, held, answering) && req.sendQueue != []
    ensures Account(req.StoreRequest(req.sendQueue[0]), true, held, answering)
  {
    assert req.sendQueue[0] in Waiting(req, false);
    assert req.sendQueue == [req.sendQueue[0]] + Waiting(req, true);
  }

  lemma RemovedFromQueue(req: Requests, held: set<Id>, answering: set<Id>)
    requires Account(req, true, held, answering) && req.sendQueue != []
    ensures Account(req.RemoveFirst(), false, held + {req.sendQueue[0]}, answering)
  {
    var q, rest := req.sendQueue, Waiting(req, true);
    assert q == [q[0]] + rest && q[0] in q;
    assert forall k :: k in rest ==> k in q;
    assert q[0] !in rest;
    assert Waiting(req.RemoveFirst(), false) == rest;
  }

  lemma FoundInStore(req: Requests, moving: bool, held: set<Id>, answering: set<Id>, id: Id)
    requires Account(req, moving, held, answering) && id in req.messageStore
    ensures Account(req, moving, held + {id}, answering)
  {
  }

  lemma RemovedFromStore(req: Requests, moving: bool, held: set<Id>, answering: set<Id>, id: Id)
    requires Account(req, moving, held, answering) && id in held
    ensures Account(req.RemoveByID(id), moving, held, answering + {id})
  {
  }

  lemma Invoked(req: Requests, moving: bool, held: set<Id>, answering: set<Id>, id: Id, error: bool, answering': set<Id>)
    requires Account(req, moving, held, answering) && id in answering
    requires answering' <= answering <= answering' + {id}
    ensures Account(req.Invoke(id, error), moving, held, answering')
  {
    var req' := req.Invoke(id, error);
    assert Waiting(req', moving) == Waiting(req, moving);
  }

  lemma {:induction false} Cancelled(req: Requests, moving: bool, held: set<Id>, answering: set<Id>)
    requires Account(req, moving, held, answering)
    ensures Account(req.CancelAll(), moving, held, answering)
  {
    assert Waiting(req.CancelAll(), moving) == Waiting(req, moving);
  }

  lemma HoldsLess(req: Requests, moving: bool, held: set<Id>, answering: set<Id>, held': set<Id>)
    requires Account(req, moving, held, answering) && answering <= held' <= held
    ensures Account(req, moving, held', answering)
  {
  }
}
