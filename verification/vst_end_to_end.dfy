/** Reassembly of many messages at once, and the way of a message from its parts over the
    byte stream back to its bytes. */
module VstEndToEnd {
  import opened Bytes
  import opened MessageIds
  import opened SetCounting
  import opened VstBuildChunks
  import opened VstChunk
  import opened VstDelivery
  import opened VstFraming
  import opened VstRequestItem

  /** The messages in flight, each as the data of its chunks in order. */
  type Messages = map<Id, seq<seq<byte>>>

  function PartOfChunk(c: ChunkHeader): Part {
    Part(c.Index(), c.data)
  }

  /** The parts of message id among the arrivals, in order of arrival. */
  function Of(arrivals: seq<ChunkHeader>, id: Id): seq<Part> {
    if arrivals == [] then []
    else
      var n := |arrivals| - 1;
      Of(arrivals[..n], id) + if arrivals[n].messageID == id then [PartOfChunk(arrivals[n])] else []
  }

  /** c is a chunk of the message: it holds the data at its index, and the first chunk, and
      only that one, tells the number of chunks. */
  ghost predicate IsChunkOf(c: ChunkHeader, whole: seq<seq<byte>>) {
    && c.Index() < |whole|
    && c.data == whole[c.Index()]
    && (c.IsFirst() <==> c.Index() == 0)
    && (c.IsFirst() ==> c.NumberOfChunks() == |whole|)
  }

  ghost predicate EachOnce(parts: seq<Part>) {
    forall i, j :: 0 <= i < j < |parts| ==> parts[i].index != parts[j].index
  }

  /** Chunks of the messages in any order and mixture, none twice, possibly among chunks of
      other messages. */
  ghost predicate Interleaves(messages: Messages, arrivals: seq<ChunkHeader>) {
    && (forall k :: 0 <= k < |arrivals| && arrivals[k].messageID in messages ==>
          IsChunkOf(arrivals[k], messages[arrivals[k].messageID]))
    && (forall id :: id in messages ==> EachOnce(Of(arrivals, id)))
  }

  /** Some parts of a message. */
  ghost predicate IsPartial(parts: seq<Part>, whole: seq<seq<byte>>) {
    && EachOnce(parts)
    && forall k :: 0 <= k < |parts| ==> parts[k].index < |whole| && parts[k].data == whole[parts[k].index]
  }

  ghost predicate HasFirst(parts: seq<Part>) {
    exists k :: 0 <= k < |parts| && parts[k].index == 0
  }

  ghost function ItemWith(parts: seq<Part>, n: nat): Item {
    Item(parts, if HasFirst(parts) then n else 0)
  }

  /** A message completes with the arrival that makes its parts complete. */
  ghost function Completions(messages: Messages, arrivals: seq<ChunkHeader>): seq<(Id, seq<byte>)> {
    if arrivals == [] then []
    else
      var n := |arrivals| - 1;
      var id := arrivals[n].messageID;
      Completions(messages, arrivals[..n]) +
      if id in messages && |Of(arrivals, id)| == |messages[id]| then [(id, Concat(messages[id]))] else []
  }

  ghost function Start(messages: Messages): Reception {
    Reception(map id | id in messages :: EMPTY_ITEM, [])
  }

  /** The receiver after the arrivals: messages with missing chunks are still in the store
      with what has arrived of them, the others have been completed. */
  ghost function Expected(messages: Messages, arrivals: seq<ChunkHeader>): Reception {
    Reception(map id | id in messages && |Of(arrivals, id)| < |messages[id]| ::
            ItemWith(Of(arrivals, id), |messages[id]|),
          Completions(messages, arrivals))
  }

  // Distinct indices below n

  ghost function Indices(parts: seq<Part>): set<nat> {
    set k | 0 <= k < |parts| :: parts[k].index
  }

  lemma {:induction false} IndexCount(parts: seq<Part>)
    requires EachOnce(parts)
    ensures |Indices(parts)| == |parts|
  {
    if parts != [] {
      var n := |parts| - 1;
      IndexCount(parts[..n]);
      assert Indices(parts) == Indices(parts[..n]) + {parts[n].index};
    }
  }

  /** No more parts than chunks, and when all are there, so is the first. */
  lemma PartsFit(parts: seq<Part>, whole: seq<seq<byte>>)
    requires IsPartial(parts, whole)
    ensures |parts| <= |whole|
    ensures |parts| == |whole| > 0 ==> HasFirst(parts)
  {
    IndexCount(parts);
    assert Indices(parts) <= UpTo(|whole|);
    SubsetCount(Indices(parts), UpTo(|whole|));
    if |parts| == |whole| > 0 {
      FullSubset(Indices(parts), UpTo(|whole|));
      assert 0 in Indices(parts);
    }
  }

  lemma {:induction false} AtMostOnce(parts: seq<Part>, p: Part)
    requires EachOnce(parts)
    ensures multiset(parts)[p] <= 1
    ensures multiset(parts)[p] == 1 ==> p.index in Indices(parts)
  {
    if parts != [] {
      var n := |parts| - 1;
      AtMostOnce(parts[..n], p);
      assert parts == parts[..n] + [parts[n]];
      assert Indices(parts) == Indices(parts[..n]) + {parts[n].index};
    }
  }

  /** Sorting parts with distinct indices leaves distinct indices, hence a strict order. */
  lemma SortedStrictly(parts: seq<Part>, sorted: seq<Part>, whole: seq<seq<byte>>, i: nat, j: nat)
    requires IsPartial(parts, whole) && IsSorting(parts, sorted) && i < j < |sorted|
    ensures sorted[i].index < sorted[j].index < |whole| && sorted[i].data == whole[sorted[i].index]
    ensures sorted[j].data == whole[sorted[j].index]
  {
    InWhole(parts, sorted, whole, i);
    InWhole(parts, sorted, whole, j);
    if sorted[i].index == sorted[j].index {
      var p := sorted[j];
      assert sorted[i] == p;
      AtMostOnce(parts, p);
      CountedTwice(sorted, i, j);
    }
  }

  lemma CountedTwice(sorted: seq<Part>, i: nat, j: nat)
    requires i < j < |sorted| && sorted[i] == sorted[j]
    ensures multiset(sorted)[sorted[i]] >= 2
  {
    assert sorted == sorted[..j] + [sorted[j]] + sorted[j + 1..];
    assert sorted[..j][i] == sorted[i];
  }

  lemma InWhole(parts: seq<Part>, sorted: seq<Part>, whole: seq<seq<byte>>, i: nat)
    requires IsPartial(parts, whole) && IsSorting(parts, sorted) && i < |sorted|
    ensures sorted[i].index < |whole| && sorted[i].data == whole[sorted[i].index]
  {
    assert sorted[i] in multiset(parts);
  }

  lemma {:induction false} IndexAtLeast(parts: seq<Part>, sorted: seq<Part>, whole: seq<seq<byte>>, k: nat)
    requires IsPartial(parts, whole) && IsSorting(parts, sorted) && k < |sorted|
    ensures sorted[k].index >= k
  {
    if k > 0 {
      IndexAtLeast(parts, sorted, whole, k - 1);
      SortedStrictly(parts, sorted, whole, k - 1, k);
    }
  }

  lemma {:induction false} IndexAtMost(parts: seq<Part>, sorted: seq<Part>, whole: seq<seq<byte>>, k: nat)
    requires IsPartial(parts, whole) && IsSorting(parts, sorted) && k < |sorted| == |whole|
    ensures sorted[k].index <= k
    decreases |sorted| - k
  {
    InWhole(parts, sorted, whole, k);
    if k < |sorted| - 1 {
      IndexAtMost(parts, sorted, whole, k + 1);
      SortedStrictly(parts, sorted, whole, k, k + 1);
    }
  }

  /** Whatever order the chunks came in, sorting them restores the message. */
  lemma SortingRestores(parts: seq<Part>, sorted: seq<Part>, whole: seq<seq<byte>>)
    requires IsPartial(parts, whole) && IsSorting(parts, sorted) && |parts| == |whole|
    ensures PartDatas(sorted) == whole
  {
    assert |sorted| == |multiset(sorted)| == |multiset(parts)| == |parts|;
    forall k | 0 <= k < |sorted|
      ensures PartDatas(sorted)[k] == whole[k]
    {
      InWhole(parts, sorted, whole, k);
      IndexAtLeast(parts, sorted, whole, k);
      IndexAtMost(parts, sorted, whole, k);
    }
  }

  // Interleaved arrivals

  lemma {:induction false} PartsArePartial(messages: Messages, arrivals: seq<ChunkHeader>, id: Id)
    requires Interleaves(messages, arrivals) && id in messages
    ensures IsPartial(Of(arrivals, id), messages[id])
  {
    if arrivals != [] {
      var n := |arrivals| - 1;
      PrefixInterleaves(messages, arrivals);
      PartsArePartial(messages, arrivals[..n], id);
    }
  }

  lemma FrontAndLast<T>(s: seq<T>)
    requires s != []
    ensures s == s[..|s| - 1] + [s[|s| - 1]]
  {
  }

  lemma PrefixInterleaves(messages: Messages, arrivals: seq<ChunkHeader>)
    requires Interleaves(messages, arrivals) && arrivals != []
    ensures Interleaves(messages, arrivals[..|arrivals| - 1])
  {
    var n := |arrivals| - 1;
    forall id | id in messages
      ensures EachOnce(Of(arrivals[..n], id))
    {
      assert Of(arrivals[..n], id) == Of(arrivals, id)[..|Of(arrivals[..n], id)|];
    }
  }

  /** One arrival, for the message it belongs to. */
  lemma ArrivalAtMessage(messages: Messages, arrivals: seq<ChunkHeader>, c: ChunkHeader, parts: seq<Part>)
    requires Interleaves(messages, arrivals + [c]) && c.messageID in messages && messages[c.messageID] != []
    requires parts == Of(arrivals, c.messageID)
    ensures Of(arrivals + [c], c.messageID) == parts + [PartOfChunk(c)]
    ensures IsPartial(parts + [PartOfChunk(c)], messages[c.messageID])
    ensures |parts| < |messages[c.messageID]|
    ensures WithChunk(ItemWith(parts, |messages[c.messageID]|), c)
            == ItemWith(parts + [PartOfChunk(c)], |messages[c.messageID]|)
    ensures IsIncomplete(ItemWith(parts + [PartOfChunk(c)], |messages[c.messageID]|))
            <==> |parts| + 1 < |messages[c.messageID]|
  {
    var all, whole := arrivals + [c], messages[c.messageID];
    var more := parts + [PartOfChunk(c)];
    assert all[..|all| - 1] == arrivals && all[|all| - 1] == c;
    PartsArePartial(messages, all, c.messageID);
    PartsFit(more, whole);
    assert IsChunkOf(all[|all| - 1], whole);
    if HasFirst(parts) {
      var k :| 0 <= k < |parts| && parts[k].index == 0;
      assert more[k].index == 0;
      assert more[k].index != more[|parts|].index;
    } else if HasFirst(more) {
      var k :| 0 <= k < |more| && more[k].index == 0;
      assert k == |parts|;
    } else {
      assert more[|parts|].index != 0;
    }
  }

  lemma OthersUnchanged(arrivals: seq<ChunkHeader>, c: ChunkHeader, id: Id)
    requires id != c.messageID
    ensures Of(arrivals + [c], id) == Of(arrivals, id)
  {
    var all := arrivals + [c];
    assert all[..|all| - 1] == arrivals && all[|all| - 1] == c;
  }

  /** m' differs from m at most at key k. */
  ghost predicate SameElsewhere<V>(m: map<Id, V>, m': map<Id, V>, k: Id) {
    forall id: Id :: id != k ==> (id in m' <==> id in m) && (id in m ==> m'[id] == m[id])
  }

  lemma OneKeyDiffers<V>(m: map<Id, V>, m': map<Id, V>, k: Id)
    requires SameElsewhere(m, m', k)
    ensures k in m' ==> m' == m[k := m'[k]]
    ensures k !in m' ==> m' == m - {k}
    ensures k !in m' && k !in m ==> m' == m
  {
  }

  lemma OthersInStore(messages: Messages, arrivals: seq<ChunkHeader>, c: ChunkHeader)
    ensures SameElsewhere(Expected(messages, arrivals).store, Expected(messages, arrivals + [c]).store, c.messageID)
  {
    forall id: Id | id != c.messageID
      ensures Of(arrivals + [c], id) == Of(arrivals, id)
    {
      OthersUnchanged(arrivals, c, id);
    }
  }

  /** How one more arrival changes the expected store. */
  lemma StoreStep(messages: Messages, arrivals: seq<ChunkHeader>, c: ChunkHeader)
    ensures var id, store := c.messageID, Expected(messages, arrivals).store;
            var parts := Of(arrivals + [c], id);
            Expected(messages, arrivals + [c]).store ==
            if id !in messages then store
            else if |parts| < |messages[id]| then store[id := ItemWith(parts, |messages[id]|)]
            else store - {id}
  {
    OthersInStore(messages, arrivals, c);
    OneKeyDiffers(Expected(messages, arrivals).store, Expected(messages, arrivals + [c]).store, c.messageID);
  }

  lemma CompletionsStep(messages: Messages, arrivals: seq<ChunkHeader>, c: ChunkHeader)
    ensures Completions(messages, arrivals + [c]) == Completions(messages, arrivals) +
            if c.messageID in messages && |Of(arrivals + [c], c.messageID)| == |messages[c.messageID]|
            then [(c.messageID, Concat(messages[c.messageID]))] else []
  {
    var all := arrivals + [c];
    assert all[..|all| - 1] == arrivals && all[|all| - 1] == c;
  }

  lemma LastArrival(s: Reception, c: ChunkHeader, s': Reception, more: seq<Part>, whole: seq<seq<byte>>)
    requires c.messageID in s.store && Processes(s, c, s')
    requires WithChunk(s.store[c.messageID], c) == ItemWith(more, |whole|)
    requires !IsIncomplete(ItemWith(more, |whole|)) && IsPartial(more, whole) && |more| == |whole|
    ensures s' == Reception(s.store - {c.messageID}, s.completed + [(c.messageID, Concat(whole))])
  {
    var sorted :| IsSorting(more, sorted) &&
      s' == Reception(s.store - {c.messageID}, s.completed + [(c.messageID, Concat(PartDatas(sorted)))]);
    SortingRestores(more, sorted, whole);
  }

  lemma OneArrival(messages: Messages, arrivals: seq<ChunkHeader>, c: ChunkHeader, s: Reception, s': Reception)
    requires Interleaves(messages, arrivals + [c]) && forall id :: id in messages ==> messages[id] != []
    requires s == Expected(messages, arrivals) && Processes(s, c, s')
    ensures s' == Expected(messages, arrivals + [c])
  {
    var id := c.messageID;
    StoreStep(messages, arrivals, c);
    CompletionsStep(messages, arrivals, c);
    if id in messages {
      var parts, whole := Of(arrivals, id), messages[id];
      ArrivalAtMessage(messages, arrivals, c, parts);
      assert s.store[id] == ItemWith(parts, |whole|);
      var more := parts + [PartOfChunk(c)];
      if |more| == |whole| {
        LastArrival(s, c, s', more, whole);
      }
    }
  }

  /** For every interleaving and every order of the chunks of the messages in flight, the
      receiver is, after every arrival, in the one expected state: each message completes
      exactly at its last-arriving chunk, with its own bytes, and chunks of unknown messages
      change nothing. */
  lemma {:induction false} DeliveryIsExact(messages: Messages, arrivals: seq<ChunkHeader>, s': Reception)
    requires Interleaves(messages, arrivals) && forall id :: id in messages ==> messages[id] != []
    requires Reaches(Start(messages), arrivals, s')
    ensures s' == Expected(messages, arrivals)
  {
    if arrivals == [] {
      assert s'.store == Expected(messages, arrivals).store;
    } else {
      var n := |arrivals| - 1;
      var m :| Reaches(Start(messages), arrivals[..n], m) && Processes(m, arrivals[n], s');
      PrefixInterleaves(messages, arrivals);
      DeliveryIsExact(messages, arrivals[..n], m);
      FrontAndLast(arrivals);
      OneArrival(messages, arrivals[..n], arrivals[n], m, s');
    }
  }

  /** The answers given to message id. */
  function AnswersTo(completed: seq<(Id, seq<byte>)>, id: Id): seq<seq<byte>> {
    if completed == [] then []
    else
      var n := |completed| - 1;
      AnswersTo(completed[..n], id) + if completed[n].0 == id then [completed[n].1] else []
  }

  lemma AnswersAppend(completed: seq<(Id, seq<byte>)>, last: (Id, seq<byte>), id: Id)
    ensures AnswersTo(completed + [last], id) == AnswersTo(completed, id) + if last.0 == id then [last.1] else []
  {
    var all := completed + [last];
    assert all[..|all| - 1] == completed && all[|all| - 1] == last;
  }

  lemma AnswerStep(messages: Messages, arrivals: seq<ChunkHeader>, c: ChunkHeader, id: Id)
    requires id in messages && |Of(arrivals + [c], id)| <= |messages[id]|
    requires AnswersTo(Completions(messages, arrivals), id)
             == if |Of(arrivals, id)| == |messages[id]| then [Concat(messages[id])] else []
    ensures AnswersTo(Completions(messages, arrivals + [c]), id)
            == if |Of(arrivals + [c], id)| == |messages[id]| then [Concat(messages[id])] else []
  {
    var all := arrivals + [c];
    assert all[..|all| - 1] == arrivals && all[|all| - 1] == c;
    CompletionsStep(messages, arrivals, c);
    var done := Completions(messages, arrivals);
    if c.messageID in messages {
      AnswersAppend(done, (c.messageID, Concat(messages[c.messageID])), id);
    }
    assert done + [] == done;
  }

  lemma NoMoreThanWhole(messages: Messages, arrivals: seq<ChunkHeader>, id: Id)
    requires Interleaves(messages, arrivals) && id in messages
    ensures |Of(arrivals, id)| <= |messages[id]|
  {
    PartsArePartial(messages, arrivals, id);
    PartsFit(Of(arrivals, id), messages[id]);
  }

  ghost predicate Answered(messages: Messages, arrivals: seq<ChunkHeader>, id: Id)
    requires id in messages
  {
    AnswersTo(Completions(messages, arrivals), id)
      == if |Of(arrivals, id)| == |messages[id]| then [Concat(messages[id])] else []
  }

  lemma NextIsAnswered(messages: Messages, before: seq<ChunkHeader>, last: ChunkHeader, id: Id)
    requires id in messages && Interleaves(messages, before + [last]) && Answered(messages, before, id)
    ensures Answered(messages, before + [last], id)
  {
    NoMoreThanWhole(messages, before + [last], id);
    AnswerStep(messages, before, last, id);
  }

  lemma {:induction false} AllAreAnswered(messages: Messages, arrivals: seq<ChunkHeader>, id: Id)
    requires Interleaves(messages, arrivals) && id in messages && messages[id] != []
    ensures Answered(messages, arrivals, id)
  {
    if arrivals != [] {
      var before, last := arrivals[..|arrivals| - 1], arrivals[|arrivals| - 1];
      PrefixInterleaves(messages, arrivals);
      AllAreAnswered(messages, before, id);
      FrontAndLast(arrivals);
      NextIsAnswered(messages, before, last, id);
    }
  }

  /** A message in flight is answered once, when all its chunks have arrived, and not before. */
  lemma AnsweredOnce(messages: Messages, arrivals: seq<ChunkHeader>, id: Id)
    requires Interleaves(messages, arrivals) && id in messages && messages[id] != []
    ensures AnswersTo(Completions(messages, arrivals), id)
            == if |Of(arrivals, id)| == |messages[id]| then [Concat(messages[id])] else []
  {
    AllAreAnswered(messages, arrivals, id);
  }

  // From parts to bytes

  /** Messages by id, each as the list of parts handed to buildChunks. */
  type Outgoing = map<uint64, seq<seq<byte>>>

  ghost predicate Sendable(maxChunkSize: uint32, outgoing: Outgoing) {
    && maxChunkSize > MAX_CHUNK_HEADER_SIZE
    && forall id :: id in outgoing ==>
         && Concat(outgoing[id]) != []
         && |MessageChunks(id, maxChunkSize, outgoing[id])| < 0x8000_0000
  }

  function Plan(maxChunkSize: uint32, outgoing: Outgoing): Messages
    requires maxChunkSize > MAX_CHUNK_HEADER_SIZE
  {
    map id | id in outgoing :: CutAll(outgoing[id], maxChunkSize - MAX_CHUNK_HEADER_SIZE)
  }

  /** Chunks of the outgoing messages in any order and mixture, none sent twice; chunks of
      other messages may be among them. */
  ghost predicate IsTraffic(maxChunkSize: uint32, outgoing: Outgoing, sent: seq<ChunkHeader>)
    requires maxChunkSize > MAX_CHUNK_HEADER_SIZE
  {
    && (forall k :: 0 <= k < |sent| && sent[k].messageID in outgoing ==>
          sent[k] in MessageChunks(sent[k].messageID, maxChunkSize, outgoing[sent[k].messageID]))
    && (forall i, j :: 0 <= i < j < |sent| && sent[i].messageID in outgoing ==> sent[i] != sent[j])
  }

  lemma SentIsChunkOf(maxChunkSize: uint32, outgoing: Outgoing, c: ChunkHeader)
    requires Sendable(maxChunkSize, outgoing) && c.messageID in outgoing
    requires c in MessageChunks(c.messageID, maxChunkSize, outgoing[c.messageID])
    ensures IsChunkOf(c, Plan(maxChunkSize, outgoing)[c.messageID])
    ensures var chunks := MessageChunks(c.messageID, maxChunkSize, outgoing[c.messageID]);
            c.Index() < |chunks| && chunks[c.Index()] == c
  {
    var chunks := MessageChunks(c.messageID, maxChunkSize, outgoing[c.messageID]);
    var k :| 0 <= k < |chunks| && chunks[k] == c;
    ChunksAreNumbered(c.messageID, maxChunkSize, outgoing[c.messageID], k);
  }

  /** Every part of message id stems from an arrival. */
  lemma {:induction false} PartHasSource(arrivals: seq<ChunkHeader>, id: Id, p: nat) returns (k: nat)
    requires p < |Of(arrivals, id)|
    ensures k < |arrivals| && arrivals[k].messageID == id && PartOfChunk(arrivals[k]) == Of(arrivals, id)[p]
  {
    var n := |arrivals| - 1;
    if p < |Of(arrivals[..n], id)| {
      k := PartHasSource(arrivals[..n], id, p);
    } else {
      k := n;
    }
  }

  lemma {:induction false} TrafficArrivesOnce(maxChunkSize: uint32, outgoing: Outgoing, sent: seq<ChunkHeader>, id: uint64)
    requires Sendable(maxChunkSize, outgoing) && IsTraffic(maxChunkSize, outgoing, sent) && id in outgoing
    ensures EachOnce(Of(sent, id))
  {
    if sent != [] {
      var n := |sent| - 1;
      TrafficArrivesOnce(maxChunkSize, outgoing, sent[..n], id);
      if sent[n].messageID == id {
        var before := Of(sent[..n], id);
        forall p | 0 <= p < |before|
          ensures before[p].index != sent[n].Index()
        {
          var k := PartHasSource(sent[..n], id, p);
          SentIsChunkOf(maxChunkSize, outgoing, sent[k]);
          SentIsChunkOf(maxChunkSize, outgoing, sent[n]);
        }
      }
    }
  }

  lemma TrafficInterleaves(maxChunkSize: uint32, outgoing: Outgoing, sent: seq<ChunkHeader>)
    requires Sendable(maxChunkSize, outgoing) && IsTraffic(maxChunkSize, outgoing, sent)
    ensures Interleaves(Plan(maxChunkSize, outgoing), sent)
  {
    forall k | 0 <= k < |sent| && sent[k].messageID in outgoing
      ensures IsChunkOf(sent[k], Plan(maxChunkSize, outgoing)[sent[k].messageID])
    {
      SentIsChunkOf(maxChunkSize, outgoing, sent[k]);
    }
    forall id: uint64 | id in outgoing
      ensures EachOnce(Of(sent, id))
    {
      TrafficArrivesOnce(maxChunkSize, outgoing, sent, id);
    }
  }

  /** The fields that a format drops do not matter for reassembly. */
  lemma {:induction false} SameParts(v: VSTVersion, sent: seq<ChunkHeader>, id: Id)
    requires AllEncodable(v, sent)
    ensures Of(ReceivedAll(v, sent), id) == Of(sent, id)
  {
    if sent != [] {
      var n := |sent| - 1;
      SameParts(v, sent[..n], id);
      assert ReceivedAll(v, sent)[..n] == ReceivedAll(v, sent[..n]);
    }
  }

  lemma ReceivedInterleaves(v: VSTVersion, messages: Messages, sent: seq<ChunkHeader>)
    requires AllEncodable(v, sent) && Interleaves(messages, sent)
    ensures Interleaves(messages, ReceivedAll(v, sent))
  {
    var got := ReceivedAll(v, sent);
    forall k | 0 <= k < |got| && got[k].messageID in messages
      ensures IsChunkOf(got[k], messages[got[k].messageID])
    {
      assert IsChunkOf(sent[k], messages[sent[k].messageID]);
    }
    forall id | id in messages
      ensures EachOnce(Of(got, id))
    {
      SameParts(v, sent, id);
    }
  }

  lemma PartsOfTraffic(maxChunkSize: uint32, outgoing: Outgoing, sent: seq<ChunkHeader>, id: uint64)
    requires Sendable(maxChunkSize, outgoing) && IsTraffic(maxChunkSize, outgoing, sent) && id in outgoing
    ensures var chunks := MessageChunks(id, maxChunkSize, outgoing[id]);
            && |Indices(Of(sent, id))| == |Of(sent, id)|
            && Indices(Of(sent, id)) <= UpTo(|chunks|)
  {
    TrafficInterleaves(maxChunkSize, outgoing, sent);
    PartsArePartial(Plan(maxChunkSize, outgoing), sent, id);
    IndexCount(Of(sent, id));
  }

  lemma AllThereAllSent(maxChunkSize: uint32, outgoing: Outgoing, sent: seq<ChunkHeader>, id: uint64, c: ChunkHeader)
    requires Sendable(maxChunkSize, outgoing) && IsTraffic(maxChunkSize, outgoing, sent) && id in outgoing
    requires |Of(sent, id)| == |MessageChunks(id, maxChunkSize, outgoing[id])|
    requires c in MessageChunks(id, maxChunkSize, outgoing[id])
    ensures c in sent
  {
    var chunks, parts := MessageChunks(id, maxChunkSize, outgoing[id]), Of(sent, id);
    PartsOfTraffic(maxChunkSize, outgoing, sent, id);
    FullSubset(Indices(parts), UpTo(|chunks|));
    SentIsChunkOf(maxChunkSize, outgoing, c);
    assert c.Index() in Indices(parts);
    var p :| 0 <= p < |parts| && parts[p].index == c.Index();
    var k := PartHasSource(sent, id, p);
    SentIsChunkOf(maxChunkSize, outgoing, sent[k]);
    assert sent[k] == c;
  }

  lemma AllSentAllThere(maxChunkSize: uint32, outgoing: Outgoing, sent: seq<ChunkHeader>, id: uint64)
    requires Sendable(maxChunkSize, outgoing) && IsTraffic(maxChunkSize, outgoing, sent) && id in outgoing
    requires forall c :: c in MessageChunks(id, maxChunkSize, outgoing[id]) ==> c in sent
    ensures |Of(sent, id)| == |MessageChunks(id, maxChunkSize, outgoing[id])|
  {
    var chunks, parts := MessageChunks(id, maxChunkSize, outgoing[id]), Of(sent, id);
    PartsOfTraffic(maxChunkSize, outgoing, sent, id);
    forall i | i in UpTo(|chunks|)
      ensures i in Indices(parts)
    {
      ChunksAreNumbered(id, maxChunkSize, outgoing[id], i);
      assert chunks[i] in chunks;
      var k :| 0 <= k < |sent| && sent[k] == chunks[i];
      var p := SourceHasPart(sent, k);
    }
    SubsetCount(UpTo(|chunks|), Indices(parts));
    SubsetCount(Indices(parts), UpTo(|chunks|));
  }

  lemma {:induction false} SourceHasPart(arrivals: seq<ChunkHeader>, k: nat) returns (p: nat)
    requires k < |arrivals|
    ensures var parts := Of(arrivals, arrivals[k].messageID);
            p < |parts| && parts[p] == PartOfChunk(arrivals[k]) && arrivals[k].Index() in Indices(parts)
  {
    var n := |arrivals| - 1;
    var parts := Of(arrivals, arrivals[k].messageID);
    if k < n {
      p := SourceHasPart(arrivals[..n], k);
    } else {
      p := |parts| - 1;
    }
    assert parts[p].index in Indices(parts);
  }

  /** End to end, for both formats, any chunk size above the header size, any mixture of the
      chunks of any messages and any cut of the byte stream: the receiver answers a message
      once, with the concatenation of its parts, when all its chunks have been sent; until
      then the message stays in flight without an answer. */
  lemma {:induction false} EndToEnd(v: VSTVersion, maxChunkSize: uint32, outgoing: Outgoing, sent: seq<ChunkHeader>,
                 pieces: seq<seq<byte>>, s': Reception, id: uint64)
    requires Sendable(maxChunkSize, outgoing) && IsTraffic(maxChunkSize, outgoing, sent) && AllEncodable(v, sent)
    requires Concat(pieces) == Stream(v, sent)
    requires Reaches(Start(Plan(maxChunkSize, outgoing)), Feed(v, [], pieces).0, s')
    requires id in outgoing
    ensures var complete := forall c :: c in MessageChunks(id, maxChunkSize, outgoing[id]) ==> c in sent;
            && AnswersTo(s'.completed, id) == (if complete then [Concat(outgoing[id])] else [])
            && (id in s'.store <==> !complete)
  {
    var messages := Plan(maxChunkSize, outgoing);
    var got := ReceivedAll(v, sent);
    StreamRoundTrip(v, sent, pieces);
    TrafficInterleaves(maxChunkSize, outgoing, sent);
    ReceivedInterleaves(v, messages, sent);
    PlanIsFull(maxChunkSize, outgoing);
    DeliveryIsExact(messages, got, s');
    AnsweredOnce(messages, got, id);
    SameParts(v, sent, id);
    var chunks := MessageChunks(id, maxChunkSize, outgoing[id]);
    if |Of(sent, id)| == |chunks| {
      forall c | c in chunks
        ensures c in sent
      {
        AllThereAllSent(maxChunkSize, outgoing, sent, id, c);
      }
    } else if forall c :: c in chunks ==> c in sent {
      AllSentAllThere(maxChunkSize, outgoing, sent, id);
    }
    PartsArePartial(messages, got, id);
    PartsFit(Of(got, id), messages[id]);
  }

  lemma PlanIsFull(maxChunkSize: uint32, outgoing: Outgoing)
    requires Sendable(maxChunkSize, outgoing)
    ensures forall id :: id in outgoing ==>
              Plan(maxChunkSize, outgoing)[id] != [] && Concat(Plan(maxChunkSize, outgoing)[id]) == Concat(outgoing[id])
  {
    forall id | id in outgoing
      ensures Concat(CutAll(outgoing[id], maxChunkSize - MAX_CHUNK_HEADER_SIZE)) == Concat(outgoing[id])
    {
      CutAllIsPartition(outgoing[id], maxChunkSize - MAX_CHUNK_HEADER_SIZE);
    }
  }
}
