/** A request in flight: the buffers it is sent from and the chunks of its response. */
module VstRequestItem {
  import opened Bytes
  import opened VstChunk
  import opened VstBuildChunks
  import opened VstFraming

  /** The part of a received chunk that assembling a message needs. */
  datatype Part = Part(index: uint32, data: seq<byte>)

  /** What an item knows of its response: the parts in the order kept, and the number of
      chunks to expect, 0 until the first chunk has arrived. */
  datatype Item = Item(parts: seq<Part>, expected: nat)

  const EMPTY_ITEM := Item([], 0)

  function WithChunk(item: Item, c: ChunkHeader): Item {
    Item(item.parts + [Part(c.Index(), c.data)], if c.IsFirst() then c.NumberOfChunks() else item.expected)
  }

  predicate IsIncomplete(item: Item) {
    item.expected == 0 || |item.parts| < item.expected
  }

  function PartDatas(parts: seq<Part>): seq<seq<byte>> {
    seq(|parts|, k requires 0 <= k < |parts| => parts[k].data)
  }

  /** Sorting by index promises an ordered permutation; equal indices come in any order. */
  ghost predicate IsSorting(parts: seq<Part>, sorted: seq<Part>) {
    && multiset(sorted) == multiset(parts)
    && forall i, j :: 0 <= i < j < |sorted| ==> sorted[i].index <= sorted[j].index
  }

  /** An entry of the list of received chunks: where its content lies in the side buffer. */
  datatype StoredChunk = StoredChunk(index: uint32, offset: nat, length: nat)

  predicate InRange(chunks: seq<StoredChunk>, content: seq<byte>) {
    forall k :: 0 <= k < |chunks| ==> chunks[k].offset + chunks[k].length <= |content|
  }

  function PartOf(c: StoredChunk, content: seq<byte>): Part
    requires c.offset + c.length <= |content|
  {
    Part(c.index, content[c.offset..c.offset + c.length])
  }

  /** The parts read through the side buffer. */
  function PartsOf(chunks: seq<StoredChunk>, content: seq<byte>): (parts: seq<Part>)
    requires InRange(chunks, content)
    ensures |parts| == |chunks|
  {
    seq(|chunks|, k requires 0 <= k < |chunks| => PartOf(chunks[k], content))
  }

  predicate IsOrdered(chunks: seq<StoredChunk>) {
    forall i, j :: 0 <= i < j < |chunks| ==> chunks[i].index <= chunks[j].index
  }

  /** Stands for the library sort; only order and permutation are promised. */
  method SortByIndex(chunks: seq<StoredChunk>, ghost content: seq<byte>) returns (sorted: seq<StoredChunk>)
    requires InRange(chunks, content)
    ensures InRange(sorted, content) && IsSorting(PartsOf(chunks, content), PartsOf(sorted, content))
  {
    sorted := [];
    ghost var parts := PartsOf(chunks, content);
    for k := 0 to |chunks|
      invariant InRange(sorted, content) && IsOrdered(sorted)
      invariant multiset(PartsOf(sorted, content)) == multiset(parts[..k])
    {
      assert parts[..k + 1] == parts[..k] + [parts[k]];
      sorted := Insert(sorted, chunks[k], content);
    }
    assert parts[..|chunks|] == parts;
  }

  method Insert(sorted: seq<StoredChunk>, c: StoredChunk, ghost content: seq<byte>) returns (r: seq<StoredChunk>)
    requires InRange(sorted, content) && c.offset + c.length <= |content| && IsOrdered(sorted)
    ensures InRange(r, content) && IsOrdered(r)
    ensures multiset(PartsOf(r, content)) == multiset(PartsOf(sorted, content)) + multiset{PartOf(c, content)}
  {
    var p := |sorted|;
    while p > 0 && sorted[p - 1].index > c.index
      invariant 0 <= p <= |sorted|
      invariant p < |sorted| ==> c.index < sorted[p].index
    {
      p := p - 1;
    }
    InsertedIsOrdered(sorted, p, c);
    InsertedParts(sorted, p, c, content);
    r := sorted[..p] + [c] + sorted[p..];
  }

  lemma InsertedParts(sorted: seq<StoredChunk>, p: nat, c: StoredChunk, content: seq<byte>)
    requires InRange(sorted, content) && c.offset + c.length <= |content| && p <= |sorted|
    ensures var r := sorted[..p] + [c] + sorted[p..];
            && InRange(r, content)
            && multiset(PartsOf(r, content)) == multiset(PartsOf(sorted, content)) + multiset{PartOf(c, content)}
  {
    var parts := PartsOf(sorted, content);
    assert parts == parts[..p] + parts[p..];
    assert PartsOf(sorted[..p] + [c] + sorted[p..], content) == parts[..p] + [PartOf(c, content)] + parts[p..];
  }

  lemma InsertedIsOrdered(sorted: seq<StoredChunk>, p: nat, c: StoredChunk)
    requires IsOrdered(sorted) && p <= |sorted|
    requires p > 0 ==> sorted[p - 1].index <= c.index
    requires p < |sorted| ==> c.index < sorted[p].index
    ensures IsOrdered(sorted[..p] + [c] + sorted[p..])
  {
    forall i | 0 <= i < |sorted|
      ensures i < p ==> sorted[i].index <= c.index
      ensures i >= p ==> c.index <= sorted[i].index
    {
      if i < p {
        assert i == p - 1 || sorted[i].index <= sorted[p - 1].index;
      } else {
        assert i == p || sorted[p].index <= sorted[i].index;
      }
    }
  }

  /** Appending to the side buffer leaves the parts read through it alone. */
  lemma PartsGrow(chunks: seq<StoredChunk>, content: seq<byte>, index: uint32, data: seq<byte>)
    requires InRange(chunks, content)
    ensures var more := chunks + [StoredChunk(index, |content|, |data|)];
            && InRange(more, content + data)
            && PartsOf(more, content + data) == PartsOf(chunks, content) + [Part(index, data)]
  {
    assert (content + data)[|content|..|content| + |data|] == data;
    forall k | 0 <= k < |chunks|
      ensures PartOf(chunks[k], content + data) == PartOf(chunks[k], content)
    {
    }
  }

  const DEFAULT_MAX_CHUNK_SIZE: uint32 := 30000

  /** A buffer handed to the socket: a stretch of the header buffer, remembered by address,
      or a stretch of the message itself. */
  datatype ConstBuffer = HeaderPointer(offset: nat, length: nat, generation: nat) | DataPointer(data: seq<byte>)

  /** Every pointer into the header buffer was taken after its last move. */
  predicate PointersValid(buffers: seq<ConstBuffer>, headers: seq<byte>, generation: nat) {
    forall k :: 0 <= k < |buffers| && buffers[k].HeaderPointer? ==>
      buffers[k].generation == generation && buffers[k].offset + buffers[k].length <= |headers|
  }

  function Pointee(b: ConstBuffer, headers: seq<byte>): seq<byte>
    requires b.HeaderPointer? ==> b.offset + b.length <= |headers|
  {
    match b
    case HeaderPointer(offset, length, _) => headers[offset..offset + length]
    case DataPointer(data) => data
  }

  /** What the socket sends: the stretches the buffers point to, one after the other. */
  function Gather(buffers: seq<ConstBuffer>, headers: seq<byte>, generation: nat): seq<byte>
    requires PointersValid(buffers, headers, generation)
  {
    if buffers == [] then []
    else Gather(buffers[..|buffers| - 1], headers, generation) + Pointee(buffers[|buffers| - 1], headers)
  }

  lemma {:induction false} GatherIsStable(buffers: seq<ConstBuffer>, headers: seq<byte>, more: seq<byte>, generation: nat)
    requires PointersValid(buffers, headers, generation)
    ensures PointersValid(buffers, headers + more, generation)
    ensures Gather(buffers, headers + more, generation) == Gather(buffers, headers, generation)
  {
    if buffers != [] {
      GatherIsStable(buffers[..|buffers| - 1], headers, more, generation);
    }
  }

  /** A header appended to the buffer, a pointer to it and one to its data: the socket sends
      one more piece. */
  lemma GatherChunk(buffers: seq<ConstBuffer>, headers: seq<byte>, header: seq<byte>, data: seq<byte>, generation: nat)
    requires PointersValid(buffers, headers, generation)
    ensures var one := buffers + [HeaderPointer(|headers|, |header|, generation)];
            && PointersValid(one + [DataPointer(data)], headers + header, generation)
            && Gather(one + [DataPointer(data)], headers + header, generation)
               == Gather(buffers, headers, generation) + (header + data)
  {
    GatherIsStable(buffers, headers, header, generation);
    var one := buffers + [HeaderPointer(|headers|, |header|, generation)];
    var two := one + [DataPointer(data)];
    assert one[..|buffers|] == buffers && two[..|one|] == one;
    assert (headers + header)[|headers|..|headers| + |header|] == header;
  }

  /** The part of a request item that faces the network; what it owes the user is the class
      RequestItem of MessageStores. */
  class ItemBuffers {
    const messageID: uint64
    // sending
    const requestChunkBuffer: VBuffer
    var requestBuffers: seq<ConstBuffer>
    // receiving
    var responseChunks: seq<StoredChunk>
    var responseChunkContent: seq<byte>
    var responseNumberOfChunks: uint32

    ghost predicate Valid()
      reads this
    {
      InRange(responseChunks, responseChunkContent)
    }

    /** What the item knows of its response. */
    ghost function State(): (item: Item)
      requires Valid()
      reads this
    {
      Item(PartsOf(responseChunks, responseChunkContent), responseNumberOfChunks)
    }

    constructor (messageID: uint64)
      ensures this.messageID == messageID && Valid() && State() == EMPTY_ITEM
      ensures fresh(requestChunkBuffer) && requestChunkBuffer.Valid() && requestChunkBuffer.data == []
      ensures requestBuffers == []
    {
      this.messageID := messageID;
      requestChunkBuffer := new VBuffer();
      requestBuffers := [];
      responseChunks := [];
      responseChunkContent := [];
      responseNumberOfChunks := 0;
    }

    /** The header buffer and the list of buffers to send describe `bytes`. */
    ghost predicate Sends(bytes: seq<byte>)
      reads this, requestChunkBuffer
    {
      && requestChunkBuffer.Valid()
      && PointersValid(requestBuffers, requestChunkBuffer.data, requestChunkBuffer.generation)
      && Gather(requestBuffers, requestChunkBuffer.data, requestChunkBuffer.generation) == bytes
    }

    /** Cuts the message into chunks and lists the buffers to send. The header buffer is
        reserved up front, so the pointers into it stay valid while it fills. */
    method PrepareForNetwork(v: VSTVersion, msgHdr: seq<byte>, slices: seq<seq<byte>>)
      requires requestChunkBuffer.Valid() && requestChunkBuffer.data == [] && requestBuffers == []
      requires msgHdr != []
      modifies this`requestBuffers, requestChunkBuffer
      ensures AllEncodable(v, MessageChunks(messageID, DEFAULT_MAX_CHUNK_SIZE, [msgHdr] + slices))
      ensures Sends(Stream(v, MessageChunks(messageID, DEFAULT_MAX_CHUNK_SIZE, [msgHdr] + slices)))
    {
      var parts := [msgHdr] + slices;
      HeaderComesFirst(v, messageID, msgHdr, parts);
      var chunks := BuildChunks(messageID, DEFAULT_MAX_CHUNK_SIZE, parts);
      SendChunks(v, chunks);
    }

    /** The loop over the chunks. */
    method SendChunks(v: VSTVersion, chunks: seq<ChunkHeader>)
      requires requestChunkBuffer.Valid() && requestChunkBuffer.data == [] && requestBuffers == []
      requires AllEncodable(v, chunks)
      modifies this`requestBuffers, requestChunkBuffer
      ensures Sends(Stream(v, chunks))
    {
      requestChunkBuffer.Reserve(|chunks| * MAX_CHUNK_HEADER_SIZE);
      ghost var wires := Wires(v, chunks);
      var k := 0;
      while k < |chunks|
        invariant 0 <= k <= |chunks|
        invariant Sends(Concat(wires[..k]))
        invariant |requestChunkBuffer.data| <= k * MAX_CHUNK_HEADER_SIZE
        invariant requestChunkBuffer.capacity >= |chunks| * MAX_CHUNK_HEADER_SIZE
      {
        ConcatStep(wires, k);
        AddChunkBuffers(v, chunks[k], Concat(wires[..k]));
        k := k + 1;
      }
      assert wires[..|chunks|] == wires;
    }

    /** Writes the header of c and lists it and the data of c. */
    method AddChunkBuffers(v: VSTVersion, c: ChunkHeader, ghost bytes: seq<byte>)
      requires c.messageLength.Some? && Sends(bytes)
      requires |requestChunkBuffer.data| + MAX_CHUNK_HEADER_SIZE <= requestChunkBuffer.capacity
      modifies this`requestBuffers, requestChunkBuffer
      ensures Sends(bytes + Wire(v, c))
      ensures |requestChunkBuffer.data| <= |old(requestChunkBuffer.data)| + MAX_CHUNK_HEADER_SIZE
      ensures requestChunkBuffer.capacity == old(requestChunkBuffer.capacity)
    {
      ghost var headers, header := requestChunkBuffer.data, WireHeader(v, c);
      GatherChunk(requestBuffers, headers, header, c.data, requestChunkBuffer.generation);
      var chunkOffset := |requestChunkBuffer.data|;
      var chunkHdrLen;
      match v {
        case VST1_0 => chunkHdrLen := WriteHeaderToVST1_0(c, requestChunkBuffer);
        case VST1_1 => chunkHdrLen := WriteHeaderToVST1_1(c, requestChunkBuffer);
      }
      requestBuffers := requestBuffers + [HeaderPointer(chunkOffset, chunkHdrLen, requestChunkBuffer.generation)];
      requestBuffers := requestBuffers + [DataPointer(c.data)];
    }

    /** Copies the content of the chunk to the side buffer and lists it. */
    method AddChunk(c: ChunkHeader)
      requires Valid()
      modifies this`responseChunks, this`responseChunkContent, this`responseNumberOfChunks
      ensures Valid() && State() == WithChunk(old(State()), c)
    {
      PartsGrow(responseChunks, responseChunkContent, c.Index(), c.data);
      var offset := |responseChunkContent|;
      responseChunkContent := responseChunkContent + c.data;
      responseChunks := responseChunks + [StoredChunk(c.Index(), offset, |c.data|)];
      if c.IsFirst() {
        responseNumberOfChunks := c.NumberOfChunks();
      }
    }

    /** The message, once all chunks are there. */
    method Assemble() returns (buffer: Option<seq<byte>>)
      requires Valid()
      modifies this`responseChunks
      ensures Valid()
      ensures buffer == None <==> IsIncomplete(old(State()))
      ensures buffer == None ==> State() == old(State())
      ensures buffer.Some? ==>
                && IsSorting(old(State().parts), State().parts)
                && buffer.value == Concat(PartDatas(State().parts))
    {
      if responseNumberOfChunks == 0 {
        return None;
      }
      if |responseChunks| < responseNumberOfChunks {
        return None;
      }
      SortChunks();
      var bytes := CombineContent();
      return Some(bytes);
    }

    /** Combines the content of the chunks in the order listed. */
    method CombineContent() returns (bytes: seq<byte>)
      requires Valid()
      ensures bytes == Concat(PartDatas(State().parts))
    {
      bytes := [];
      ghost var datas := PartDatas(State().parts);
      for k := 0 to |responseChunks|
        invariant bytes == Concat(datas[..k])
      {
        var c := responseChunks[k];
        ConcatStep(datas, k);
        bytes := bytes + responseChunkContent[c.offset..c.offset + c.length];
      }
      assert datas[..|responseChunks|] == datas;
    }

    /** Sorts the list of chunks by index. */
    method SortChunks()
      requires Valid()
      modifies this`responseChunks
      ensures Valid() && State().expected == old(State().expected)
      ensures IsSorting(old(State().parts), State().parts)
    {
      var sorted := SortByIndex(responseChunks, responseChunkContent);
      responseChunks := sorted;
    }
  }

  lemma ConcatStep(wires: seq<seq<byte>>, k: nat)
    requires k < |wires|
    ensures Concat(wires[..k + 1]) == Concat(wires[..k]) + wires[k]
  {
    ConcatAppend(wires[..k], [wires[k]]);
    ConcatOne(wires[k]);
    assert wires[..k + 1] == wires[..k] + [wires[k]];
  }

  lemma HeaderComesFirst(v: VSTVersion, messageID: uint64, msgHdr: seq<byte>, parts: seq<seq<byte>>)
    requires msgHdr != [] && |parts| > 0 && parts[0] == msgHdr
    ensures Concat(parts) != []
    ensures AllEncodable(v, MessageChunks(messageID, DEFAULT_MAX_CHUNK_SIZE, parts))
  {
    ChunksPartitionMessage(v, messageID, DEFAULT_MAX_CHUNK_SIZE, parts);
  }
}
