/** The receiving side: the read loop feeds chunks to the requests in flight. */
module VstDelivery {
  import opened Bytes
  import opened MessageIds
  import opened VstChunk
  import opened VstFraming
  import opened VstRequestItem

  /** The requests in flight, and the completed ones with their bytes, oldest first. */
  datatype Reception = Reception(store: map<Id, Item>, completed: seq<(Id, seq<byte>)>)

  /** What processing chunk c may make of s. */
  ghost predicate Processes(s: Reception, c: ChunkHeader, s': Reception) {
    if c.messageID !in s.store then s' == s
    else
      var item := WithChunk(s.store[c.messageID], c);
      if IsIncomplete(item) then s' == s.(store := s.store[c.messageID := item])
      else exists sorted :: IsSorting(item.parts, sorted) &&
             s' == Reception(s.store - {c.messageID}, s.completed + [(c.messageID, Concat(PartDatas(sorted)))])
  }

  /** s' is reached from s by processing the chunks in order. */
  ghost predicate Reaches(s: Reception, chunks: seq<ChunkHeader>, s': Reception) {
    if chunks == [] then s' == s
    else
      var n := |chunks| - 1;
      exists m :: Reaches(s, chunks[..n], m) && Processes(m, chunks[n], s')
  }

  lemma ReachesOneMore(s: Reception, chunks: seq<ChunkHeader>, m: Reception, c: ChunkHeader, s': Reception)
    requires Reaches(s, chunks, m) && Processes(m, c, s')
    ensures Reaches(s, chunks + [c], s')
  {
    var more := chunks + [c];
    assert more[..|more| - 1] == chunks && more[|more| - 1] == c;
  }

  lemma {:induction false} ReachesAll(s: Reception, first: seq<ChunkHeader>, m: Reception, others: seq<ChunkHeader>, s': Reception)
    requires Reaches(s, first, m) && Reaches(m, others, s')
    ensures Reaches(s, first + others, s')
    decreases |others|
  {
    if others == [] {
      assert first + others == first;
    } else {
      var n := |others| - 1;
      var t :| Reaches(m, others[..n], t) && Processes(t, others[n], s');
      ReachesAll(s, first, m, others[..n], t);
      ReachesOneMore(s, first + others[..n], t, others[n], s');
      assert first + others == first + others[..n] + [others[n]];
    }
  }

  class Receiver {
    var messageStore: map<Id, ItemBuffers>
    var completed: seq<(Id, seq<byte>)>
    ghost var items: set<ItemBuffers>  // all items that ever were in the store

    ghost predicate Valid()
      reads this, items
    {
      forall id :: id in messageStore ==>
        messageStore[id] in items && messageStore[id].messageID == id && messageStore[id].Valid()
    }

    ghost function Contents(): Reception
      requires Valid()
      reads this, items
    {
      Reception(map id | id in messageStore :: messageStore[id].State(), completed)
    }

    /** Adds the chunk to its request. */
    method AddChunkTo(item: ItemBuffers, c: ChunkHeader)
      requires Valid() && item.messageID in messageStore && messageStore[item.messageID] == item
      modifies items
      ensures Valid()
      ensures Contents() == old(Contents()).(store :=
                old(Contents()).store[item.messageID := WithChunk(old(Contents()).store[item.messageID], c)])
    {
      item.AddChunk(c);
    }

    /** Takes a finished request out of the store and answers it. */
    method Complete(item: ItemBuffers, bytes: seq<byte>)
      requires Valid() && item.messageID in messageStore
      modifies this`messageStore, this`completed
      ensures Valid() && messageStore == old(messageStore) - {item.messageID}
      ensures Contents() == Reception(old(Contents()).store - {item.messageID},
                                  old(Contents()).completed + [(item.messageID, bytes)])
    {
      messageStore := messageStore - {item.messageID};
      completed := completed + [(item.messageID, bytes)];
    }

    /** The bytes of a request if all of its chunks are there. */
    method AssembleItem(item: ItemBuffers) returns (completeBuffer: Option<seq<byte>>)
      requires Valid() && item.messageID in messageStore && messageStore[item.messageID] == item
      modifies items
      ensures Valid() && Contents().completed == old(Contents()).completed
      ensures Contents().store - {item.messageID} == old(Contents()).store - {item.messageID}
      ensures completeBuffer == None <==> IsIncomplete(old(Contents()).store[item.messageID])
      ensures completeBuffer == None ==> Contents() == old(Contents())
      ensures completeBuffer.Some? ==>
                var sorted := Contents().store[item.messageID].parts;
                && IsSorting(old(Contents()).store[item.messageID].parts, sorted)
                && completeBuffer.value == Concat(PartDatas(sorted))
    {
      completeBuffer := item.Assemble();
    }

    /** Hands a chunk to its request, and completes the request if it was the last one. */
    method ProcessChunk(c: ChunkHeader)
      requires Valid()
      modifies this`messageStore, this`completed, items
      ensures Valid()
      ensures Processes(old(Contents()), c, Contents())
    {
      if c.messageID !in messageStore {
        return;
      }
      var item := messageStore[c.messageID];
      ghost var was := Contents();
      AddChunkTo(item, c);
      var completeBuffer := AssembleItem(item);
      if completeBuffer.Some? {
        ghost var sorted := Contents().store[c.messageID].parts;
        Complete(item, completeBuffer.value);
        ProcessesLast(was, c, sorted, Contents());
      }
    }
  }

  lemma ProcessesLast(s: Reception, c: ChunkHeader, sorted: seq<Part>, s': Reception)
    requires c.messageID in s.store && !IsIncomplete(WithChunk(s.store[c.messageID], c))
    requires IsSorting(WithChunk(s.store[c.messageID], c).parts, sorted)
    requires s'.store == s.store - {c.messageID}
    requires s'.completed == s.completed + [(c.messageID, Concat(PartDatas(sorted)))]
    ensures Processes(s, c, s')
  {
  }

  lemma Shift(all: seq<ChunkHeader>, done: seq<ChunkHeader>, c: ChunkHeader, rest: seq<ChunkHeader>)
    requires all == done + ([c] + rest)
    ensures all == (done + [c]) + rest
  {
  }

  class ReadLoop {
    const vstVersion: VSTVersion
    const connection: Receiver
    var receiveBuffer: seq<byte>

    constructor (v: VSTVersion, connection: Receiver)
      ensures vstVersion == v && this.connection == connection && receiveBuffer == []
    {
      vstVersion, this.connection, receiveBuffer := v, connection, [];
    }

    /** Takes the bytes of one read: processes every chunk that is now complete. False if the next
        chunk is shorter than its own header, so that reading it leads outside of what has been
        received; nothing is said of what happens then. */
    method AsyncReadCallback(bytes: seq<byte>) returns (inside: bool)
      requires connection.Valid()
      modifies this, connection`messageStore, connection`completed, connection.items
      ensures connection.Valid()
      ensures inside <==> Sound(vstVersion, old(receiveBuffer) + bytes)
      ensures Reaches(old(connection.Contents()), Frame(vstVersion, old(receiveBuffer) + bytes).0, connection.Contents())
      ensures receiveBuffer == Frame(vstVersion, old(receiveBuffer) + bytes).1
    {
      receiveBuffer := receiveBuffer + bytes;
      ghost var start, all := connection.Contents(), Frame(vstVersion, receiveBuffer);
      ghost var sound := Sound(vstVersion, receiveBuffer);
      ghost var processed: seq<ChunkHeader> := [];
      while IsChunkComplete(receiveBuffer) > 0
        invariant connection.Valid()
        invariant sound <==> Sound(vstVersion, receiveBuffer)
        invariant Reaches(start, processed, connection.Contents())
        invariant all.0 == processed + Frame(vstVersion, receiveBuffer).0
        invariant all.1 == Frame(vstVersion, receiveBuffer).1
        decreases |receiveBuffer|
      {
        if !Readable(vstVersion, receiveBuffer) {
          assert processed + [] == processed;
          return false;
        }
        ghost var before := connection.Contents();
        ghost var chunk := TakeChunk();
        ReachesOneMore(start, processed, before, chunk, connection.Contents());
        Shift(all.0, processed, chunk, Frame(vstVersion, receiveBuffer).0);
        processed := processed + [chunk];
      }
      assert processed + [] == processed;
      return true;
    }

    /** One round of the loop: processes the chunk at the head of the buffer and consumes it. */
    method TakeChunk() returns (ghost chunk: ChunkHeader)
      requires connection.Valid() && Readable(vstVersion, receiveBuffer)
      modifies this, connection`messageStore, connection`completed, connection.items
      ensures connection.Valid()
      ensures Sound(vstVersion, receiveBuffer) <==> Sound(vstVersion, old(receiveBuffer))
      ensures |receiveBuffer| < |old(receiveBuffer)|
      ensures Processes(old(connection.Contents()), chunk, connection.Contents())
      ensures Frame(vstVersion, old(receiveBuffer)).0 == [chunk] + Frame(vstVersion, receiveBuffer).0
      ensures Frame(vstVersion, old(receiveBuffer)).1 == Frame(vstVersion, receiveBuffer).1
    {
      var c := ReadChunkHeader(vstVersion, receiveBuffer);
      FrameStep(vstVersion, receiveBuffer, receiveBuffer[IsChunkComplete(receiveBuffer)..]);
      connection.ProcessChunk(c);
      receiveBuffer := receiveBuffer[c.chunkLength.value..];
      chunk := c;
    }

    /** One read after the other: each callback arms the next one. */
    method ReadAll(pieces: seq<seq<byte>>) returns (inside: bool)
      requires connection.Valid() && IsChunkComplete(receiveBuffer) == 0
      modifies this, connection`messageStore, connection`completed, connection.items
      ensures connection.Valid()
      ensures inside <==> Sound(vstVersion, old(receiveBuffer) + Concat(pieces))
      ensures Reaches(old(connection.Contents()), Feed(vstVersion, old(receiveBuffer), pieces).0, connection.Contents())
      ensures inside ==> receiveBuffer == Feed(vstVersion, old(receiveBuffer), pieces).1
      decreases pieces
    {
      if pieces == [] {
        assert receiveBuffer + Concat(pieces) == receiveBuffer;
        return true;
      }
      ghost var v, buffer, a := vstVersion, receiveBuffer, receiveBuffer + pieces[0];
      ghost var others := Feed(v, Frame(v, a).1, pieces[1..]).0;
      SoundByPieces(v, buffer, pieces);
      ghost var start := connection.Contents();
      inside := AsyncReadCallback(pieces[0]);
      ghost var middle := connection.Contents();
      if !inside {
        UnsoundLeavesComplete(v, a);
        NothingBehind(v, Frame(v, a).1, pieces[1..]);
        ReachesAll(start, Frame(v, a).0, middle, [], middle);
        return false;
      }
      SoundLeavesIncomplete(v, a);
      inside := ReadAll(pieces[1..]);
      ReachesAll(start, Frame(v, a).0, middle, others, connection.Contents());
    }
  }

  lemma SoundByPieces(v: VSTVersion, buf: seq<byte>, pieces: seq<seq<byte>>)
    requires pieces != []
    ensures var a := buf + pieces[0];
            Sound(v, buf + Concat(pieces)) <==> Sound(v, a) && Sound(v, Frame(v, a).1 + Concat(pieces[1..]))
  {
    var a, b := buf + pieces[0], Concat(pieces[1..]);
    assert buf + Concat(pieces) == a + b;
    CutOnce(v, a, b);
    if Sound(v, a + b) {
      SoundPrefix(v, a, b);
    }
  }

  lemma {:induction false} SoundLeavesIncomplete(v: VSTVersion, buf: seq<byte>)
    requires Sound(v, buf)
    ensures IsChunkComplete(Frame(v, buf).1) == 0
    decreases |buf|
  {
    if IsChunkComplete(buf) > 0 {
      SoundLeavesIncomplete(v, buf[IsChunkComplete(buf)..]);
    }
  }

  /** A complete chunk that cannot be read stays in the way of all that follows. */
  lemma {:induction false} NothingBehind(v: VSTVersion, buf: seq<byte>, pieces: seq<seq<byte>>)
    requires IsChunkComplete(buf) > 0 && !Readable(v, buf)
    ensures Feed(v, buf, pieces).0 == []
    decreases |pieces|
  {
    if pieces != [] {
      var more := buf + pieces[0];
      CompleteIsStable(buf, pieces[0]);
      if Readable(v, more) {
        ReadableIsStable(v, buf, pieces[0]);
      }
      NothingBehind(v, more, pieces[1..]);
    }
  }

  lemma {:induction false} UnsoundLeavesComplete(v: VSTVersion, buf: seq<byte>)
    requires !Sound(v, buf)
    ensures IsChunkComplete(Frame(v, buf).1) > 0 && !Readable(v, Frame(v, buf).1)
    decreases |buf|
  {
    if Readable(v, buf) {
      UnsoundLeavesComplete(v, buf[IsChunkComplete(buf)..]);
    }
  }
}
