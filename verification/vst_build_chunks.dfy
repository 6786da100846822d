/** Cutting a message into numbered chunks. */
module VstBuildChunks {
  import opened Arithmetic
  import opened Bytes
  import opened VstChunk

  /** part in pieces of n bytes, the last one possibly shorter. */
  function Cut(part: seq<byte>, n: nat): seq<seq<byte>>
    requires n > 0
  {
    if part == [] then []
    else if |part| <= n then [part]
    else [part[..n]] + Cut(part[n..], n)
  }

  function CutAll(parts: seq<seq<byte>>, n: nat): seq<seq<byte>>
    requires n > 0
  {
    if parts == [] then [] else Cut(parts[0], n) + CutAll(parts[1..], n)
  }

  /** The chunkX field of chunk k out of n, as far as it fits in 32 bits. */
  function ChunkX(k: nat, n: nat): uint32 {
    if k == 0 then (2 * n + 1) % 0x1_0000_0000 else IndexX(k)
  }

  /** The chunkX field of a chunk that is not the first. */
  function IndexX(k: nat): uint32 {
    (2 * Counter(k)) % 0x1_0000_0000
  }

  /** A 32-bit counter after k increments. */
  function Counter(k: nat): uint32 {
    if k == 0 then 0 else (Counter(k - 1) + 1) % 0x1_0000_0000
  }

  lemma {:induction false} CounterBelowLimit(k: nat)
    requires k < 0x1_0000_0000
    ensures Counter(k) == k
  {
    if k > 0 {
      CounterBelowLimit(k - 1);
    }
  }

  function MessageChunk(messageID: uint64, messageLength: nat, data: seq<byte>, chunkX: uint32): ChunkHeader {
    ChunkHeader(None, chunkX, messageID, Some(messageLength % 0x1_0000_0000_0000_0000), data)
  }

  function MessageChunks(messageID: uint64, maxChunkSize: uint32, parts: seq<seq<byte>>): (s: seq<ChunkHeader>)
    requires maxChunkSize > MAX_CHUNK_HEADER_SIZE
  {
    var pieces := CutAll(parts, maxChunkSize - MAX_CHUNK_HEADER_SIZE);
    seq(|pieces|, k requires 0 <= k < |pieces| =>
      MessageChunk(messageID, |Concat(parts)|, pieces[k], ChunkX(k, |pieces|)))
  }

  function Datas(chunks: seq<ChunkHeader>): seq<seq<byte>> {
    seq(|chunks|, k requires 0 <= k < |chunks| => chunks[k].data)
  }

  /** Rounded-up quotient. */
  function CeilDiv(m: nat, n: nat): nat
    requires n > 0
  {
    (m + n - 1) / n
  }

  lemma CeilDivSteps(m: nat, n: nat)
    requires n > 0
    ensures CeilDiv(0, n) == 0
    ensures 0 < m <= n ==> CeilDiv(m, n) == 1
    ensures m > n ==> CeilDiv(m, n) == CeilDiv(m - n, n) + 1
  {
    QuotientIsUnique(n - 1, n, 0);
    if 0 < m <= n {
      QuotientIsUnique(m + n - 1, n, 1);
    } else if m > n {
      QuotientStep(m - 1, n);
    }
  }

  lemma {:induction false} CutIsPartition(part: seq<byte>, n: nat)
    requires n > 0
    ensures Concat(Cut(part, n)) == part
    ensures |Cut(part, n)| == CeilDiv(|part|, n)
    ensures forall k :: 0 <= k < |Cut(part, n)| ==> 0 < |Cut(part, n)[k]| <= n
    ensures forall k :: 0 <= k < |Cut(part, n)| - 1 ==> |Cut(part, n)[k]| == n
  {
    CeilDivSteps(|part|, n);
    if |part| > n {
      CutIsPartition(part[n..], n);
    } else if part != [] {
      ConcatOne(part);
    }
  }

  /** The sum of the rounded-up quotients of the part lengths. */
  function ChunkCount(parts: seq<seq<byte>>, n: nat): nat
    requires n > 0
  {
    if parts == [] then 0 else CeilDiv(|parts[0]|, n) + ChunkCount(parts[1..], n)
  }

  lemma {:induction false} CutAllIsPartition(parts: seq<seq<byte>>, n: nat)
    requires n > 0
    ensures Concat(CutAll(parts, n)) == Concat(parts)
    ensures |CutAll(parts, n)| == ChunkCount(parts, n)
    ensures forall k :: 0 <= k < |CutAll(parts, n)| ==> 0 < |CutAll(parts, n)[k]| <= n
  {
    if parts != [] {
      CutIsPartition(parts[0], n);
      CutAllIsPartition(parts[1..], n);
      ConcatAppend(Cut(parts[0], n), CutAll(parts[1..], n));
    }
  }

  lemma {:induction false} CutAllAppend(a: seq<seq<byte>>, b: seq<seq<byte>>, n: nat)
    requires n > 0
    ensures CutAll(a + b, n) == CutAll(a, n) + CutAll(b, n)
  {
    if a == [] {
      assert a + b == b;
    } else {
      CutAllAppend(a[1..], b, n);
      assert (a + b)[1..] == a[1..] + b;
      Regrouped(Cut(a[0], n), CutAll(a[1..], n), CutAll(b, n));
    }
  }

  lemma Regrouped<T>(x: seq<T>, y: seq<T>, z: seq<T>)
    ensures x + (y + z) == x + y + z
  {
  }

  /** Each part is cut by itself, behind the parts in front of it: into pieces of n bytes, of which
      only the last one may be shorter. */
  lemma PartIsCutByItself(before: seq<seq<byte>>, part: seq<byte>, after: seq<seq<byte>>, n: nat) returns (pieces: seq<seq<byte>>)
    requires n > 0
    ensures CutAll(before + [part] + after, n) == CutAll(before, n) + pieces + CutAll(after, n)
    ensures Concat(pieces) == part && |pieces| == CeilDiv(|part|, n)
    ensures forall k :: 0 <= k < |pieces| ==> 0 < |pieces[k]| && |pieces[k]| <= n && (k < |pieces| - 1 ==> |pieces[k]| == n)
  {
    pieces := Cut(part, n);
    CutAllAppend(before + [part], after, n);
    CutAllAppend(before, [part], n);
    assert CutAll([part], n) == Cut(part, n) + CutAll([part][1..], n);
    CutIsPartition(part, n);
  }

  lemma {:induction false} PiecesHoldAtMost(pieces: seq<seq<byte>>, n: nat)
    requires forall k :: 0 <= k < |pieces| ==> |pieces[k]| <= n
    ensures |Concat(pieces)| <= |pieces| * n
    ensures pieces != [] && (forall k :: 0 <= k < |pieces| ==> |pieces[k]| > 0) ==> Concat(pieces) != []
  {
    if pieces != [] {
      PiecesHoldAtMost(pieces[1..], n);
      assert |pieces| * n == n + |pieces[1..]| * n;
    }
  }

  /** The arithmetic of buildChunks: the count is the sum of the rounded-up quotients and no
      less than the estimate messageLength / maxChunkSize, every chunk carries data and fits
      maxChunkSize on the wire, and the data of the chunks is the message. */
  lemma ChunksPartitionMessage(v: VSTVersion, messageID: uint64, maxChunkSize: uint32, parts: seq<seq<byte>>)
    requires maxChunkSize > MAX_CHUNK_HEADER_SIZE
    ensures var chunks := MessageChunks(messageID, maxChunkSize, parts);
            && Concat(Datas(chunks)) == Concat(parts)
            && |chunks| == ChunkCount(parts, maxChunkSize - MAX_CHUNK_HEADER_SIZE)
            && |chunks| >= |Concat(parts)| / maxChunkSize
            && (chunks == [] <==> Concat(parts) == [])
            && forall k :: 0 <= k < |chunks| ==>
                 && Encodable(v, chunks[k]) && chunks[k].data != []
                 && |Wire(v, chunks[k])| <= maxChunkSize
  {
    var n := maxChunkSize - MAX_CHUNK_HEADER_SIZE;
    var chunks := MessageChunks(messageID, maxChunkSize, parts);
    CutAllIsPartition(parts, n);
    assert Datas(chunks) == CutAll(parts, n);
    PiecesHoldAtMost(Datas(chunks), n);
    PiecesHoldAtMost(Datas(chunks), maxChunkSize);
    QuotientAtMost(|Concat(parts)|, |chunks|, maxChunkSize);
  }

  /** chunkX serves as sort key and, on the first chunk, as count. Both can be read back as
      long as there are fewer than 2^31 chunks. */
  lemma ChunksAreNumbered(messageID: uint64, maxChunkSize: uint32, parts: seq<seq<byte>>, k: nat)
    requires maxChunkSize > MAX_CHUNK_HEADER_SIZE
    requires k < |MessageChunks(messageID, maxChunkSize, parts)| < 0x8000_0000
    ensures var chunks := MessageChunks(messageID, maxChunkSize, parts);
            && (chunks[k].IsFirst() <==> k == 0)
            && chunks[k].Index() == k
            && chunks[k].NumberOfChunks() == (if k == 0 then |chunks| else 0)
            && chunks[k].chunkX == (if k == 0 then 2 * |chunks| + 1 else 2 * k)
  {
    CounterBelowLimit(k);
  }

  /** Every chunk names its message and tells the length of it, as far as that fits in 64 bits. */
  lemma ChunksNameTheirMessage(messageID: uint64, maxChunkSize: uint32, parts: seq<seq<byte>>, k: nat)
    requires maxChunkSize > MAX_CHUNK_HEADER_SIZE && k < |MessageChunks(messageID, maxChunkSize, parts)|
    ensures var c := MessageChunks(messageID, maxChunkSize, parts)[k];
            && c.messageID == messageID
            && c.messageLength.Some?
            && (|Concat(parts)| < 0x1_0000_0000_0000_0000 ==> c.messageLength == Some(|Concat(parts)|))
  {
  }

  lemma CountField(n: nat)
    ensures ChunkX(0, n) % 2 == 1
    ensures ChunkX(0, n) / 2 == n <==> n < 0x8000_0000
  {
  }

  /** The count can be read back exactly when the sum of the rounded-up quotients is below 2^31. */
  lemma CountFitsBelowLimit(messageID: uint64, maxChunkSize: uint32, parts: seq<seq<byte>>)
    requires maxChunkSize > MAX_CHUNK_HEADER_SIZE && Concat(parts) != []
    ensures var chunks := MessageChunks(messageID, maxChunkSize, parts);
            && chunks != []
            && (chunks[0].NumberOfChunks() == |chunks| <==>
                ChunkCount(parts, maxChunkSize - MAX_CHUNK_HEADER_SIZE) < 0x8000_0000)
  {
    ChunksPartitionMessage(VST1_0, messageID, maxChunkSize, parts);
    CountField(|MessageChunks(messageID, maxChunkSize, parts)|);
  }

  /** One part of 2^31 bytes in chunks of one byte each: the first chunk tells that there are none. */
  lemma CountMayNotFit(messageID: uint64)
    ensures var parts: seq<seq<byte>> := [seq(0x8000_0000, _ => 0)];
            var chunks := MessageChunks(messageID, MAX_CHUNK_HEADER_SIZE + 1, parts);
            |chunks| == 0x8000_0000 && chunks[0].IsFirst() && chunks[0].NumberOfChunks() == 0
  {
    var part: seq<byte> := seq(0x8000_0000, _ => 0);
    assert ChunkCount([part], 1) == CeilDiv(|part|, 1) + ChunkCount([part][1..], 1);
    ChunksPartitionMessage(VST1_0, messageID, MAX_CHUNK_HEADER_SIZE + 1, [part]);
  }

  /** The length of the message, in 64-bit arithmetic. */
  method TotalByteSize(messageParts: seq<seq<byte>>) returns (messageLength: uint64)
    ensures messageLength == |Concat(messageParts)| % 0x1_0000_0000_0000_0000
  {
    messageLength := 0;
    for i := 0 to |messageParts|
      invariant messageLength == |Concat(messageParts[..i])| % 0x1_0000_0000_0000_0000
    {
      ConcatAppend(messageParts[..i], [messageParts[i]]);
      ConcatOne(messageParts[i]);
      assert messageParts[..i + 1] == messageParts[..i] + [messageParts[i]];
      messageLength := (messageLength + |messageParts[i]|) % 0x1_0000_0000_0000_0000;
    }
    assert messageParts[..|messageParts|] == messageParts;
  }

  method BuildChunks(messageID: uint64, maxChunkSize: uint32, messageParts: seq<seq<byte>>) returns (result: seq<ChunkHeader>)
    requires maxChunkSize > MAX_CHUNK_HEADER_SIZE
    requires Concat(messageParts) != []
    ensures result == MessageChunks(messageID, maxChunkSize, messageParts)
  {
    var messageLength := TotalByteSize(messageParts);
    result := [];
    var maxDataLength: nat := maxChunkSize - MAX_CHUNK_HEADER_SIZE;
    var chunkIndex: uint32 := 0;
    ghost var all := CutAll(messageParts, maxDataLength);
    ghost var todo := messageParts;
    for i := 0 to |messageParts|
      invariant chunkIndex == Counter(|result|)
      invariant todo == messageParts[i..]
      invariant Cutting(result, messageID, messageLength, CutAll(todo, maxDataLength), all)
    {
      todo := todo[1..];
      result, chunkIndex := AddPart(result, chunkIndex, messageID, messageLength, messageParts[i], maxDataLength,
                                    CutAll(todo, maxDataLength), all);
    }
    CutIsMessage(result, messageID, maxChunkSize, messageParts);
    result := MarkFirst(result);
  }

  /** The inner loop: adds the chunks of one part. */
  method AddPart(chunks: seq<ChunkHeader>, index: uint32, messageID: uint64, messageLength: uint64, part: seq<byte>,
                 maxDataLength: nat, ghost later: seq<seq<byte>>, ghost all: seq<seq<byte>>)
    returns (result: seq<ChunkHeader>, chunkIndex: uint32)
    requires maxDataLength > 0 && index == Counter(|chunks|)
    requires Cutting(chunks, messageID, messageLength, Cut(part, maxDataLength) + later, all)
    ensures chunkIndex == Counter(|result|)
    ensures Cutting(result, messageID, messageLength, later, all)
  {
    result, chunkIndex := chunks, index;
    var offset := 0;
    var remaining := |part|;
    ghost var rest := part;
    while remaining > 0
      invariant 0 <= offset == |part| - remaining <= |part| && rest == part[offset..]
      invariant chunkIndex == Counter(|result|)
      invariant Cutting(result, messageID, messageLength, Cut(rest, maxDataLength) + later, all)
    {
      var dataLength := remaining;
      if dataLength > maxDataLength {
        dataLength := maxDataLength;
      }
      var chunkX: uint32 := (2 * chunkIndex) % 0x1_0000_0000;
      var chunk := ChunkHeader(None, chunkX, messageID, Some(messageLength), part[offset..offset + dataLength]);
      assert chunk.data == rest[..dataLength];
      NextChunk(result, chunk, messageID, messageLength, rest, maxDataLength, later, all);
      rest := rest[dataLength..];
      result := result + [chunk];
      remaining := remaining - dataLength;
      offset := offset + dataLength;
      chunkIndex := (chunkIndex + 1) % 0x1_0000_0000;
    }
    assert Cut(rest, maxDataLength) + later == later;
  }

  /** Gives the first chunk the number of chunks. */
  method MarkFirst(chunks: seq<ChunkHeader>) returns (result: seq<ChunkHeader>)
    requires chunks != []
    ensures result == chunks[0 := chunks[0].(chunkX := ChunkX(0, |chunks|))]
  {
    if |chunks| == 1 {
      result := chunks[0 := chunks[0].(chunkX := 3)];
    } else {
      result := chunks[0 := chunks[0].(chunkX := (2 * |chunks| + 1) % 0x1_0000_0000)];
    }
  }

  /** The chunks built so far, before the first one learns the count: one for each of `all`
      the pieces of the message but those in `todo`. */
  ghost predicate Cutting(chunks: seq<ChunkHeader>, messageID: uint64, messageLength: uint64,
                          todo: seq<seq<byte>>, all: seq<seq<byte>>) {
    && |chunks| <= |all| && all[|chunks|..] == todo
    && (forall k :: 0 <= k < |chunks| ==>
          chunks[k] == ChunkHeader(None, IndexX(k), messageID, Some(messageLength), all[k]))
  }

  lemma CutHead(part: seq<byte>, m: nat, n: nat, later: seq<seq<byte>>)
    requires n > 0 && part != [] && m == if |part| > n then n else |part|
    ensures Cut(part, n) + later == [part[..m]] + (Cut(part[m..], n) + later)
  {
    if |part| <= n {
      assert part[..m] == part && part[m..] == [];
    }
  }

  lemma NextChunk(chunks: seq<ChunkHeader>, chunk: ChunkHeader, messageID: uint64, messageLength: uint64,
                  rest: seq<byte>, n: nat, later: seq<seq<byte>>, all: seq<seq<byte>>)
    requires n > 0 && rest != []
    requires Cutting(chunks, messageID, messageLength, Cut(rest, n) + later, all)
    requires chunk == ChunkHeader(None, IndexX(|chunks|), messageID, Some(messageLength), chunk.data)
    requires |chunk.data| == (if |rest| > n then n else |rest|) && chunk.data == rest[..|chunk.data|]
    ensures Cutting(chunks + [chunk], messageID, messageLength, Cut(rest[|chunk.data|..], n) + later, all)
  {
    CutHead(rest, |chunk.data|, n, later);
    var k := |chunks|;
    assert all[k] == all[k..][0] && all[k + 1..] == all[k..][1..];
  }

  lemma CutIsMessage(chunks: seq<ChunkHeader>, messageID: uint64, maxChunkSize: uint32, parts: seq<seq<byte>>)
    requires maxChunkSize > MAX_CHUNK_HEADER_SIZE && Concat(parts) != []
    requires Cutting(chunks, messageID, |Concat(parts)| % 0x1_0000_0000_0000_0000, [],
                     CutAll(parts, maxChunkSize - MAX_CHUNK_HEADER_SIZE))
    ensures chunks != []
    ensures chunks[0 := chunks[0].(chunkX := ChunkX(0, |chunks|))] == MessageChunks(messageID, maxChunkSize, parts)
  {
    CutAllIsPartition(parts, maxChunkSize - MAX_CHUNK_HEADER_SIZE);
  }
}
