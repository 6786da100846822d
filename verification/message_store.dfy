/** The in-flight requests of a connection and their once-only callbacks. */
module MessageStores {
  import opened Bytes
  import opened MessageIds

  type Error = int

  /** What a request says about itself here: its timeout in milliseconds. */
  datatype Request = Request(timeout: int)

  /** The timeout when there is no request: two minutes. */
  const NO_REQUEST_TIMEOUT := 2 * 60 * 1000

  class CallOnceRequestCallback {
    ghost const owner: Id        // the item it belongs to
    const isAuthentication: bool // made by insertAuthenticationRequests
    var invoked: bool
    var isSet: bool              // _cb is not null
    ghost var calls: seq<Error>  // history: the errors the user's callback has been called with

    ghost predicate Valid()
      reads this
    {
      if invoked then |calls| == 1 && !isSet else calls == [] && isSet
    }

    constructor (ghost owner: Id, isAuthentication: bool)
      ensures Valid() && !invoked && this.owner == owner && this.isAuthentication == isAuthentication
    {
      this.owner, this.isAuthentication := owner, isAuthentication;
      invoked, isSet, calls := false, true, [];
    }

    /** What the user has seen once the callback has been invoked with the given error. */
    ghost function Outcome(error: Error): seq<Error>
      reads this
    {
      if invoked then calls else [error]
    }

    /** The callback runs if it has not run before; true if it then declares a permanent failure,
        as that of an authentication request does when it gets an error. */
    method Invoke(error: Error) returns (failure: bool)
      requires Valid()
      modifies this
      ensures Valid() && invoked
      ensures calls == if old(invoked) then old(calls) else [error]
      ensures failure <==> !old(invoked) && isAuthentication && error != 0
    {
      var wasInvoked := invoked;
      invoked := true;
      failure := false;
      if !wasInvoked {
        assert isSet;
        calls := calls + [error];
        failure := isAuthentication && error != 0;
        isSet := false;
      }
    }
  }

  class RequestItem {
    const messageID: Id
    const callback: CallOnceRequestCallback
    var request: Option<Request>  // None once it has been handed over

    constructor (messageID: Id, request: Request, isAuthentication: bool)
      ensures this.messageID == messageID && this.request == Some(request)
      ensures fresh(callback) && callback.Valid() && !callback.invoked
      ensures callback.owner == messageID && callback.isAuthentication == isAuthentication
    {
      this.messageID, this.request := messageID, Some(request);
      callback := new CallOnceRequestCallback(messageID, isAuthentication);
    }

    /** Hands the request over in any case, with no error or with one. */
    method Answer(error: Error) returns (failure: bool)
      requires callback.Valid()
      modifies this, callback
      ensures callback.Valid() && callback.invoked && request == None
      ensures callback.calls == old(callback.Outcome(error))
      ensures failure <==> !old(callback.invoked) && callback.isAuthentication && error != 0
    {
      request := None;
      failure := callback.Invoke(error);
    }
  }

  class MessageStore {
    var items: map<Id, RequestItem>
    ghost var footprint: set<object>

    /** The items are stored under their ids and belong to the footprint. */
    ghost predicate IsIndexed()
      reads this
    {
      && this !in footprint
      && (forall id :: id in items ==>
            && items[id] in footprint && items[id].callback in footprint
            && items[id].callback.owner == items[id].messageID == id)
    }

    ghost predicate Valid()
      reads this, footprint
    {
      IsIndexed() && forall id :: id in items ==> items[id].callback.Valid()
    }

    constructor ()
      ensures Valid() && items == map[] && footprint == {}
    {
      items, footprint := map[], {};
    }

    /** An item whose id is already in the store is not added. */
    method Add(item: RequestItem)
      requires Valid() && item.callback.Valid() && item.callback.owner == item.messageID
      modifies this
      ensures Valid()
      ensures items == if item.messageID in old(items) then old(items) else old(items)[item.messageID := item]
      ensures footprint == if item.messageID in old(items) then old(footprint) else old(footprint) + {item, item.callback}
    {
      if item.messageID !in items {
        items := items[item.messageID := item];
        footprint := footprint + {item, item.callback};
      }
    }

    method FindByID(id: Id) returns (item: RequestItem?)
      requires Valid()
      ensures item == (if id in items then items[id] else null)
    {
      if id in items {
        return items[id];
      }
      return null;
    }

    method RemoveByID(id: Id)
      requires Valid()
      modifies this
      ensures Valid() && items == old(items) - {id}
      ensures footprint == old(footprint) - if id in old(items) then {old(items)[id], old(items)[id].callback} else {}
    {
      if id in items {
        footprint := footprint - {items[id], items[id].callback};
      }
      items := items - {id};
    }

    /** Every item in the store loses its request and its callback runs with the given error,
        unless it has run before; the store is empty afterwards. */
    method CancelAll(error: Error) returns (failure: bool)
      requires Valid()
      modifies this, footprint
      ensures Valid() && items == map[] && footprint == {}
      ensures forall id :: id in old(items) ==>
        var item := old(items)[id];
        && item.request == None && item.callback.Valid() && item.callback.invoked
        && item.callback.calls == old(item.callback.Outcome(error))
      ensures failure <==> (error != 0 &&
        exists id :: id in old(items) && !old(items[id].callback.invoked) && old(items)[id].callback.isAuthentication)
    {
      failure := AnswerAll(items, footprint, error);
      items, footprint := map[], {};
    }

    /** The loop of cancelAll: answers all given items. */
    static method AnswerAll(items: map<Id, RequestItem>, ghost footprint: set<object>, error: Error) returns (failure: bool)
      requires forall id :: id in items ==>
        var item := items[id];
        && item in footprint && item.callback in footprint
        && item.callback.owner == item.messageID == id && item.callback.Valid()
      modifies footprint
      ensures forall id :: id in items ==>
        var item := items[id];
        && item.request == None && item.callback.Valid() && item.callback.invoked
        && item.callback.calls == old(item.callback.Outcome(error))
      ensures failure <==> (error != 0 &&
        exists id :: id in items && !old(items[id].callback.invoked) && items[id].callback.isAuthentication)
    {
      var todo := items.Keys;
      ghost var failed: set<Id> := {};
      failure := false;
      while todo != {}
        invariant todo <= items.Keys
        invariant forall id :: id in todo ==> unchanged(items[id].callback)
        invariant forall id :: id in items && id !in todo ==>
          && items[id].request == None && items[id].callback.Valid() && items[id].callback.invoked
          && items[id].callback.calls == old(items[id].callback.Outcome(error))
        invariant failure <==> failed != {}
        invariant forall id :: id in failed <==>
          id in items && id !in todo && error != 0 && !old(items[id].callback.invoked) && items[id].callback.isAuthentication
        decreases |todo|
      {
        var id :| id in todo;
        var fails := items[id].Answer(error);
        failure := failure || fails;
        failed := if fails then failed + {id} else failed;
        todo := todo - {id};
      }
    }

    /** The least timeout of the requests in the store, and at most two minutes. None stands for the
        null pointer of an item that has handed its request over. */
    method MinimumTimeout() returns (min: Option<int>)
      requires Valid()
      ensures min == None <==> exists id :: id in items && items[id].request == None
      ensures min.Some? ==> min.value <= 120_000
      ensures min.Some? ==> forall id :: id in items ==> min.value <= items[id].request.value.timeout
      ensures min.Some? && min.value < 120_000 ==>
                exists id :: id in items && min.value == items[id].request.value.timeout
    {
      var least := NO_REQUEST_TIMEOUT;
      var todo := items.Keys;
      while todo != {}
        invariant todo <= items.Keys && least <= NO_REQUEST_TIMEOUT
        invariant forall id :: id in items && id !in todo ==> items[id].request.Some? && least <= items[id].request.value.timeout
        invariant least < NO_REQUEST_TIMEOUT ==>
          exists id :: id in items && id !in todo && least == items[id].request.value.timeout
        decreases |todo|
      {
        var id :| id in todo;
        if items[id].request == None {
          return None;
        }
        var reqTimeout := items[id].request.value.timeout;
        if reqTimeout < least {
          least := reqTimeout;
        }
        todo := todo - {id};
      }
      return Some(least);
    }
  }

  /** A queue of the requests that wait to be sent. */
  class SendQueue {
    var queue: seq<RequestItem>

    constructor ()
      ensures queue == []
    {
      queue := [];
    }

    method Add(item: RequestItem)
      modifies this
      ensures queue == old(queue) + [item]
    {
      queue := queue + [item];
    }

    method Insert(item: RequestItem)
      modifies this
      ensures queue == [item] + old(queue)
    {
      queue := [item] + queue;
    }

    method Front() returns (item: RequestItem?)
      ensures item == (if queue == [] then null else queue[0])
    {
      if queue == [] {
        return null;
      }
      return queue[0];
    }

    method RemoveFirst()
      requires queue != []
      modifies this
      ensures queue == old(queue)[1..]
    {
      queue := queue[1..];
    }
  }
}
