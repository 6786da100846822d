/** Re-framing a byte stream: however the stream is cut into reads, the same chunks come
    out of it in the same order. */
module VstFraming {
  import opened Bytes
  import opened VstChunk

  /** The chunks at the head of buf and what is left behind them. */
  function Frame(v: VSTVersion, buf: seq<byte>): (r: (seq<ChunkHeader>, seq<byte>)) {
    if Readable(v, buf) then
      var (chunks, rest) := Frame(v, buf[IsChunkComplete(buf)..]);
      ([ReadChunkHeader(v, buf)] + chunks, rest)
    else ([], buf)
  }

  /** Framing never meets a complete chunk shorter than its own header. */
  predicate Sound(v: VSTVersion, buf: seq<byte>) {
    IsChunkComplete(buf) > 0 ==> Readable(v, buf) && Sound(v, buf[IsChunkComplete(buf)..])
  }

  /** What one read after the other makes of an incoming stream. */
  function Feed(v: VSTVersion, buf: seq<byte>, pieces: seq<seq<byte>>): (seq<ChunkHeader>, seq<byte>)
    decreases pieces
  {
    if pieces == [] then ([], buf)
    else
      var (first, rest) := Frame(v, buf + pieces[0]);
      var (others, last) := Feed(v, rest, pieces[1..]);
      (first + others, last)
  }

  /** More bytes behind a complete chunk change nothing about it. */
  lemma HeadIsStable(v: VSTVersion, a: seq<byte>, b: seq<byte>)
    requires Readable(v, a)
    ensures IsChunkComplete(a + b) == IsChunkComplete(a)
    ensures Readable(v, a + b) && ReadChunkHeader(v, a + b) == ReadChunkHeader(v, a)
    ensures (a + b)[IsChunkComplete(a)..] == a[IsChunkComplete(a)..] + b
  {
    WordIsStable(a, b, 0);
    WordIsStable(a, b, 4);
    LongWordIsStable(a, b, 8);
    if IsChunkComplete(a) >= MAX_CHUNK_HEADER_SIZE {
      LongWordIsStable(a, b, 16);
      assert (a + b)[MAX_CHUNK_HEADER_SIZE..Word32(a)] == a[MAX_CHUNK_HEADER_SIZE..Word32(a)];
    }
    assert (a + b)[MIN_CHUNK_HEADER_SIZE..Word32(a)] == a[MIN_CHUNK_HEADER_SIZE..Word32(a)];
  }

  lemma WordIsStable(a: seq<byte>, b: seq<byte>, i: nat)
    requires i + 4 <= |a|
    ensures Word32((a + b)[i..]) == Word32(a[i..])
    ensures i == 0 ==> Word32(a + b) == Word32(a)
  {
    assert (a + b)[i..][..4] == a[i..][..4];
    assert (a + b)[..4] == (a + b)[0..][..4] && a[..4] == a[0..][..4];
  }

  lemma LongWordIsStable(a: seq<byte>, b: seq<byte>, i: nat)
    requires i + 8 <= |a|
    ensures Word64((a + b)[i..]) == Word64(a[i..])
  {
    WordIsStable(a, b, i);
    WordIsStable(a, b, i + 4);
    assert (a + b)[i..][4..] == (a + b)[i + 4..] && a[i..][4..] == a[i + 4..];
  }

  lemma FrameStep(v: VSTVersion, w: seq<byte>, tail: seq<byte>)
    requires Readable(v, w) && w[IsChunkComplete(w)..] == tail
    ensures Frame(v, w).0 == [ReadChunkHeader(v, w)] + Frame(v, tail).0 && Frame(v, w).1 == Frame(v, tail).1
    ensures Sound(v, w) <==> Sound(v, tail)
  {
  }

  lemma Regrouped(c: ChunkHeader, chunks: seq<ChunkHeader>, others: seq<ChunkHeader>)
    ensures [c] + (chunks + others) == [c] + chunks + others
  {
  }

  /** One cut of the stream makes no difference, not even for a malformed stream. */
  lemma {:induction false} CutOnce(v: VSTVersion, a: seq<byte>, b: seq<byte>)
    ensures Frame(v, a + b).0 == Frame(v, a).0 + Frame(v, Frame(v, a).1 + b).0
    ensures Frame(v, a + b).1 == Frame(v, Frame(v, a).1 + b).1
    ensures Sound(v, a + b) <==> Sound(v, Frame(v, a).1 + b)
    decreases |a|
  {
    if Readable(v, a) {
      HeadIsStable(v, a, b);
      var tail := a[IsChunkComplete(a)..];
      CutOnce(v, tail, b);
      FrameStep(v, a, tail);
      FrameStep(v, a + b, tail + b);
      Regrouped(ReadChunkHeader(v, a), Frame(v, tail).0, Frame(v, Frame(v, tail).1 + b).0);
    } else {
      assert Frame(v, a) == ([], a);
    }
  }

  lemma {:induction false} SoundPrefix(v: VSTVersion, a: seq<byte>, b: seq<byte>)
    requires Sound(v, a + b)
    ensures Sound(v, a)
    decreases |a|
  {
    if IsChunkComplete(a) > 0 {
      CompleteIsStable(a, b);
      var n := IsChunkComplete(a);
      assert (a + b)[n..] == a[n..] + b;
      SoundPrefix(v, a[n..], b);
      ReadableIsStable(v, a, b);
    }
  }

  lemma CompleteIsStable(a: seq<byte>, b: seq<byte>)
    requires IsChunkComplete(a) > 0
    ensures IsChunkComplete(a + b) == IsChunkComplete(a)
  {
    WordIsStable(a, b, 0);
  }

  lemma ReadableIsStable(v: VSTVersion, a: seq<byte>, b: seq<byte>)
    requires IsChunkComplete(a) > 0 && Readable(v, a + b)
    ensures Readable(v, a)
  {
    CompleteIsStable(a, b);
    WordIsStable(a, b, 4);
  }

  /** For every cut of a stream into pieces, the chunks and the bytes left over are those of the
      stream read in one piece. */
  lemma {:induction false} CutsDoNotMatter(v: VSTVersion, buf: seq<byte>, pieces: seq<seq<byte>>)
    requires !Readable(v, buf)
    ensures Feed(v, buf, pieces) == Frame(v, buf + Concat(pieces))
    decreases pieces
  {
    if pieces == [] {
      assert buf + Concat(pieces) == buf;
    } else {
      var a, b := buf + pieces[0], Concat(pieces[1..]);
      assert buf + Concat(pieces) == a + b;
      CutOnce(v, a, b);
      FrameLeavesNoChunk(v, a);
      CutsDoNotMatter(v, Frame(v, a).1, pieces[1..]);
    }
  }

  lemma {:induction false} FrameLeavesNoChunk(v: VSTVersion, buf: seq<byte>)
    ensures !Readable(v, Frame(v, buf).1)
  {
    if Readable(v, buf) {
      FrameLeavesNoChunk(v, buf[IsChunkComplete(buf)..]);
    }
  }

  // What the readers touch

  /** The content length as the readers compute it, in size_t. */
  function ContentLength(chunkLength: uint32, hdrLen: nat): nat {
    (chunkLength - hdrLen) % (SIZE_MAX + 1)
  }

  /** All the header fields read and the data found by the reader lie within buf. */
  predicate ReaderStaysInside(v: VSTVersion, buf: seq<byte>)
    requires IsChunkComplete(buf) > 0
  {
    match v
    case VST1_0 =>
      && |buf| >= MIN_CHUNK_HEADER_SIZE
      && var long := Word32(buf[4..]) % 2 == 1 && Word32(buf[4..]) / 2 > 1;
      && var hdrLen := if long then MAX_CHUNK_HEADER_SIZE else MIN_CHUNK_HEADER_SIZE;
      && |buf| >= hdrLen && hdrLen + ContentLength(Word32(buf), hdrLen) <= |buf|
    case VST1_1 =>
      && |buf| >= MAX_CHUNK_HEADER_SIZE
      && MAX_CHUNK_HEADER_SIZE + ContentLength(Word32(buf), MAX_CHUNK_HEADER_SIZE) <= |buf|
  }

  /** The framing loop stays within the bytes received. */
  predicate FramingStaysInside(v: VSTVersion, buf: seq<byte>) {
    IsChunkComplete(buf) > 0 ==> ReaderStaysInside(v, buf) && FramingStaysInside(v, buf[IsChunkComplete(buf)..])
  }

  lemma InsideMeansReadable(v: VSTVersion, buf: seq<byte>)
    requires 0 < IsChunkComplete(buf) && |buf| <= SIZE_MAX
    ensures ReaderStaysInside(v, buf) <==> Readable(v, buf)
  {
  }

  /** For every byte stream that fits in memory: the loop stays within the bytes received if and
      only if no complete chunk is shorter than its own header. */
  lemma {:induction false} InsideExactlyWhenSound(v: VSTVersion, buf: seq<byte>)
    requires |buf| <= SIZE_MAX
    ensures FramingStaysInside(v, buf) <==> Sound(v, buf)
    decreases |buf|
  {
    if IsChunkComplete(buf) > 0 {
      InsideMeansReadable(v, buf);
      InsideExactlyWhenSound(v, buf[IsChunkComplete(buf)..]);
    }
  }

  /** Four bytes that announce a chunk of four bytes take either reader out of bounds. */
  lemma ShortChunkLeadsOutside(v: VSTVersion)
    ensures var buf: seq<byte> := [4, 0, 0, 0];
            IsChunkComplete(buf) == 4 && !Sound(v, buf) && !FramingStaysInside(v, buf)
  {
    var buf: seq<byte> := [4, 0, 0, 0];
    FromFourBytes(4, 0, 0, 0);
    assert buf[..4] == buf;
    InsideExactlyWhenSound(v, buf);
  }

  predicate AllEncodable(v: VSTVersion, chunks: seq<ChunkHeader>) {
    forall k :: 0 <= k < |chunks| ==> Encodable(v, chunks[k])
  }

  function Wires(v: VSTVersion, chunks: seq<ChunkHeader>): seq<seq<byte>>
    requires AllEncodable(v, chunks)
  {
    seq(|chunks|, k requires 0 <= k < |chunks| => Wire(v, chunks[k]))
  }

  /** Chunks on the wire, one behind the other. */
  function Stream(v: VSTVersion, chunks: seq<ChunkHeader>): seq<byte>
    requires AllEncodable(v, chunks)
  {
    Concat(Wires(v, chunks))
  }

  function ReceivedAll(v: VSTVersion, chunks: seq<ChunkHeader>): (s: seq<ChunkHeader>)
    requires AllEncodable(v, chunks)
    ensures |s| == |chunks| && forall k :: 0 <= k < |s| ==> s[k] == Received(v, chunks[k])
  {
    seq(|chunks|, k requires 0 <= k < |chunks| => Received(v, chunks[k]))
  }

  lemma StreamHead(v: VSTVersion, chunks: seq<ChunkHeader>)
    requires AllEncodable(v, chunks) && chunks != []
    ensures Stream(v, chunks) == Wire(v, chunks[0]) + Stream(v, chunks[1..])
    ensures ReceivedAll(v, chunks) == [Received(v, chunks[0])] + ReceivedAll(v, chunks[1..])
  {
    assert Wires(v, chunks)[1..] == Wires(v, chunks[1..]);
  }

  lemma {:induction false} FrameOfStream(v: VSTVersion, chunks: seq<ChunkHeader>)
    requires AllEncodable(v, chunks)
    ensures Sound(v, Stream(v, chunks))
    ensures Frame(v, Stream(v, chunks)) == (ReceivedAll(v, chunks), [])
  {
    if chunks == [] {
      assert Stream(v, chunks) == [];
    } else {
      var tail := Stream(v, chunks[1..]);
      StreamHead(v, chunks);
      FrameOfStream(v, chunks[1..]);
      HeaderRoundTrip(v, chunks[0], tail);
      FrameStep(v, Stream(v, chunks), tail);
    }
  }

  /** Encoding chunks and reading the bytes back in arbitrary pieces yields the chunks. */
  lemma StreamRoundTrip(v: VSTVersion, chunks: seq<ChunkHeader>, pieces: seq<seq<byte>>)
    requires AllEncodable(v, chunks) && Concat(pieces) == Stream(v, chunks)
    ensures Feed(v, [], pieces) == (ReceivedAll(v, chunks), [])
  {
    var w := Concat(pieces);
    assert [] + w == w;
    FrameOfStream(v, chunks);
    CutsDoNotMatter(v, [], pieces);
  }
}
