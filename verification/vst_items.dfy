/** What the items of a connection, its send queue and its message store have to do with the
    requests of the step machine. */
module VstItems {
  import opened Bytes
  import opened MessageIds
  import opened MessageStores
  import opened VstConnections

  /** The items created so far, and nothing else, are the accepted requests. What is said here of
      an item never changes. */
  ghost predicate Recorded(all: map<Id, RequestItem>, objects: set<object>, req: Requests) {
    && (forall id :: id in all <==> 1 <= id <= req.lastId)
    && (forall id :: id in all ==>
          var item := all[id];
          && item in objects && item.callback in objects && item.callback.owner == item.messageID == id
          && (id in req.auth <==> item.callback.isAuthentication)
          && req.answered[id] == if id in req.invoked then 1 else 0)
    && (forall id :: id !in all ==> id !in req.owned && id !in req.invoked && id !in req.auth && req.answered[id] == 0)
  }

  /** The item is as the requests have it: whether it owns its request, whether its callback has
      been invoked, and how often the callback has run. */
  ghost predicate Matches(req: Requests, item: RequestItem)
    reads item, item.callback
  {
    var id, callback := item.messageID, item.callback;
    && callback.Valid()
    && (id in req.owned <==> item.request.Some?)
    && (id in req.invoked <==> callback.invoked)
    && req.answered[id] == |callback.calls|
  }

  ghost predicate ItemsMatch(all: map<Id, RequestItem>, objects: set<object>, req: Requests)
    reads objects
  {
    Recorded(all, objects, req) && forall id :: id in all ==> Matches(req, all[id])
  }

  ghost predicate QueueMatches(all: map<Id, RequestItem>, queue: seq<RequestItem>, ids: seq<Id>) {
    && |queue| == |ids|
    && (forall k :: 0 <= k < |ids| ==> ids[k] in all && queue[k] == all[ids[k]])
  }

  ghost predicate StoreMatches(all: map<Id, RequestItem>, items: map<Id, RequestItem>, footprint: set<object>, ids: set<Id>) {
    && items.Keys == ids
    && (forall id :: id in items ==> id in all && items[id] == all[id])
    && (forall id :: id in all && id !in items ==> all[id] !in footprint && all[id].callback !in footprint)
  }

  function Accept(req: Requests, isAuthentication: bool): Requests {
    var id := req.lastId + 1;
    req.(lastId := id, owned := req.owned + {id}, auth := if isAuthentication then req.auth + {id} else req.auth)
  }

  /** A request is created first and then queued. */
  lemma AcceptedThenQueued(req: Requests)
    ensures var id, accepted := req.lastId + 1, Accept(req, false);
            accepted.(sendQueue := accepted.sendQueue + [id]) == req.Enqueue()
    ensures var id, accepted := req.lastId + 1, Accept(req, true);
            accepted.(sendQueue := [id] + accepted.sendQueue) == req.InsertAuth()
  {
  }

  /** The items and the store are those of the requests. */
  ghost predicate Stocked(messageStore: MessageStore, all: map<Id, RequestItem>, objects: set<object>, req: Requests)
    reads messageStore, objects
  {
    && messageStore !in objects && messageStore.footprint <= objects && messageStore.Valid()
    && ItemsMatch(all, objects, req)
    && StoreMatches(all, messageStore.items, messageStore.footprint, req.messageStore)
  }

  /** A new item with the given id. */
  ghost predicate IsNew(item: RequestItem, id: Id)
    reads item, item.callback
  {
    && item.messageID == item.callback.owner == id
    && item.request.Some? && item.callback.Valid() && !item.callback.invoked
  }

  lemma NewItemMatches(all: map<Id, RequestItem>, objects: set<object>, req: Requests, item: RequestItem)
    requires ItemsMatch(all, objects, req)
    requires IsNew(item, req.lastId + 1)
    ensures ItemsMatch(all[item.messageID := item], objects + {item, item.callback},
                       Accept(req, item.callback.isAuthentication))
  {
    var req' := Accept(req, item.callback.isAuthentication);
    forall id | id in all
      ensures Matches(req', all[id])
    {
      assert Matches(req, all[id]);
    }
    assert Matches(req', item);
  }

  lemma NewItem(messageStore: MessageStore, all: map<Id, RequestItem>, objects: set<object>, req: Requests,
                item: RequestItem, queue: seq<RequestItem>)
    requires Stocked(messageStore, all, objects, req) && QueueMatches(all, queue, req.sendQueue)
    requires item !in objects && item.callback !in objects
    requires IsNew(item, req.lastId + 1)
    ensures item.messageID !in all
    ensures var all' := all[item.messageID := item];
            && Stocked(messageStore, all', objects + {item, item.callback}, Accept(req, item.callback.isAuthentication))
            && QueueMatches(all', queue, req.sendQueue)
  {
    NewItemMatches(all, objects, req, item);
  }

  lemma OnlyQueueDiffers(messageStore: MessageStore, all: map<Id, RequestItem>, objects: set<object>,
                         req: Requests, ids: seq<Id>)
    requires Stocked(messageStore, all, objects, req)
    ensures Stocked(messageStore, all, objects, req.(sendQueue := ids))
  {
    forall id | id in all
      ensures Matches(req.(sendQueue := ids), all[id])
    {
      assert Matches(req, all[id]);
    }
  }

  /** Item id has been added to the store, which held `items` before. */
  lemma ItemStored(messageStore: MessageStore, all: map<Id, RequestItem>, objects: set<object>, req: Requests,
                   id: Id, items: map<Id, RequestItem>, footprint: set<object>)
    requires messageStore !in objects && footprint <= objects && id in all
    requires ItemsMatch(all, objects, req) && StoreMatches(all, items, footprint, req.messageStore)
    requires messageStore.Valid()
    requires messageStore.items == if id in items then items else items[id := all[id]]
    requires messageStore.footprint == if id in items then footprint else footprint + {all[id], all[id].callback}
    ensures Stocked(messageStore, all, objects, req.StoreRequest(id))
  {
    forall k | k in all
      ensures Matches(req.StoreRequest(id), all[k])
      ensures k != id ==> all[k] != all[id] && all[k].callback != all[id].callback
    {
      assert Matches(req, all[k]) && Matches(req, all[id]);
    }
  }

  /** Item id has been removed from the store, which held `items` before. */
  lemma ItemRemoved(messageStore: MessageStore, all: map<Id, RequestItem>, objects: set<object>, req: Requests,
                    id: Id, items: map<Id, RequestItem>, footprint: set<object>)
    requires messageStore !in objects && footprint <= objects
    requires ItemsMatch(all, objects, req) && StoreMatches(all, items, footprint, req.messageStore)
    requires messageStore.Valid() && messageStore.items == items - {id}
    requires messageStore.footprint == footprint - if id in items then {items[id], items[id].callback} else {}
    ensures Stocked(messageStore, all, objects, req.RemoveByID(id))
  {
    forall k | k in all
      ensures Matches(req.RemoveByID(id), all[k])
    {
      assert Matches(req, all[k]);
    }
  }

  /** Item id has been answered: it has handed its request over, and its callback has run once. */
  ghost predicate IsAnswered(item: RequestItem)
    reads item, item.callback
  {
    item.request == None && item.callback.Valid() && item.callback.invoked
  }

  /** All that does not change when items of the store are answered. */
  ghost predicate Kept(messageStore: MessageStore, all: map<Id, RequestItem>, objects: set<object>, req: Requests)
    reads messageStore
  {
    && messageStore !in objects && messageStore.footprint <= objects && messageStore.IsIndexed()
    && Recorded(all, objects, req)
    && StoreMatches(all, messageStore.items, messageStore.footprint, req.messageStore)
  }

  lemma ItemAnswered(messageStore: MessageStore, all: map<Id, RequestItem>, objects: set<object>, req: Requests,
                     id: Id, error: bool)
    requires Kept(messageStore, all, objects, req) && id in all
    requires IsAnswered(all[id]) && forall k :: k in all && k != id ==> Matches(req, all[k])
    ensures Stocked(messageStore, all, objects, req.Invoke(id, error))
  {
    var req' := req.Invoke(id, error);
    forall k | k in all
      ensures Matches(req', all[k])
    {
      if k != id {
        assert Matches(req, all[k]);
      }
    }
  }

  /** All items that were in the store have been answered, and the store is empty. */
  ghost predicate IsCancelled(messageStore: MessageStore, all: map<Id, RequestItem>, objects: set<object>, req: Requests)
    reads messageStore, objects
  {
    && messageStore !in objects && messageStore.items == map[] && messageStore.footprint == {}
    && Recorded(all, objects, req) && req.messageStore <= all.Keys
    && (forall id :: id in all && id !in req.messageStore ==> Matches(req, all[id]))
    && (forall id :: id in req.messageStore ==> IsAnswered(all[id]))
  }

  lemma ItemsCancelled(messageStore: MessageStore, all: map<Id, RequestItem>, objects: set<object>, req: Requests)
    requires IsCancelled(messageStore, all, objects, req)
    ensures Stocked(messageStore, all, objects, req.CancelAll())
  {
    var req' := req.CancelAll();
    forall k | k in all
      ensures Matches(req', all[k])
    {
      if k !in req.messageStore {
        assert Matches(req, all[k]);
      }
    }
  }

  /** Cancelling declares a permanent failure exactly if an authentication request in the store has
      not been answered yet. */
  lemma FailsWithAuthentication(messageStore: MessageStore, all: map<Id, RequestItem>, objects: set<object>, req: Requests)
    requires Stocked(messageStore, all, objects, req)
    ensures var items := messageStore.items;
            (exists id :: id in items && !items[id].callback.invoked && items[id].callback.isAuthentication)
            <==> (req.messageStore - req.invoked) * req.auth != {}
  {
    var items := messageStore.items;
    forall id | id in items
      ensures !items[id].callback.invoked && items[id].callback.isAuthentication
              <==> id in (req.messageStore - req.invoked) * req.auth
    {
      assert Matches(req, all[id]);
    }
  }

  lemma StoredOwners(messageStore: MessageStore, all: map<Id, RequestItem>, objects: set<object>, req: Requests)
    requires Stocked(messageStore, all, objects, req)
    ensures (exists id :: id in messageStore.items && messageStore.items[id].request == None)
            <==> !(req.messageStore <= req.owned)
  {
    forall id | id in messageStore.items
      ensures messageStore.items[id].request == None <==> id !in req.owned
    {
      assert Matches(req, all[id]);
    }
  }
}
