/** VelocyStream chunks: header layout, writers and readers of both wire formats. */
module VstChunk {
  import opened Bytes

  datatype VSTVersion = VST1_0 | VST1_1

  const MIN_CHUNK_HEADER_SIZE: nat := 16
  const MAX_CHUNK_HEADER_SIZE: nat := 24

  /** A chunk. The optional fields are the ones that some constructor of a chunk leaves
      uninitialised: buildChunks never sets chunkLength, and the VST 1.0 reader sets
      messageLength only when the wire carries it. */
  datatype ChunkHeader = ChunkHeader(
    chunkLength: Option<uint32>,
    chunkX: uint32,
    messageID: uint64,
    messageLength: Option<uint64>,
    data: seq<byte>)
  {
    predicate IsFirst() {
      chunkX % 2 == 1
    }

    function Index(): uint32 {
      if IsFirst() then 0 else chunkX / 2
    }

    /** Known for first chunks only. */
    function NumberOfChunks(): uint32 {
      if IsFirst() then chunkX / 2 else 0
    }
  }

  /** The header length both ends agree on (vst.h). */
  function ChunkHeaderLength(v: VSTVersion, isFirst: bool, isSingle: bool): nat {
    match v
    case VST1_0 => if isFirst && !isSingle then MAX_CHUNK_HEADER_SIZE else MIN_CHUNK_HEADER_SIZE
    case VST1_1 => MAX_CHUNK_HEADER_SIZE
  }

  function HeaderLength(v: VSTVersion, c: ChunkHeader): nat {
    ChunkHeaderLength(v, c.IsFirst(), c.NumberOfChunks() <= 1)
  }

  /** The bytes of chunk c on the wire; the length field keeps 32 bits. */
  function WireHeader(v: VSTVersion, c: ChunkHeader): (s: seq<byte>)
    requires c.messageLength.Some?
    ensures |s| == HeaderLength(v, c)
  {
    Bytes32((HeaderLength(v, c) + |c.data|) % 0x1_0000_0000)
    + Bytes32(c.chunkX)
    + Bytes64(c.messageID)
    + if HeaderLength(v, c) == MAX_CHUNK_HEADER_SIZE then Bytes64(c.messageLength.value) else []
  }

  function Wire(v: VSTVersion, c: ChunkHeader): seq<byte>
    requires c.messageLength.Some?
  {
    WireHeader(v, c) + c.data
  }

  /** A growable buffer. Growing past the capacity moves the bytes and thereby invalidates
      every pointer into the buffer; `generation` counts these moves. */
  class VBuffer {
    var data: seq<byte>
    var capacity: nat
    var generation: nat

    ghost predicate Valid()
      reads this
    {
      |data| <= capacity
    }

    constructor ()
      ensures Valid() && data == []
    {
      data, capacity, generation := [], 0, 0;
    }

    /** Makes room for n more bytes. */
    method Reserve(n: nat)
      requires Valid()
      modifies this
      ensures Valid() && data == old(data) && capacity >= |data| + n
    {
      if capacity < |data| + n {
        capacity := |data| + n;
        generation := generation + 1;
      }
    }

    method Append(bytes: seq<byte>)
      requires Valid()
      modifies this
      ensures Valid() && data == old(data) + bytes
      ensures old(|data| + |bytes| <= capacity) ==> capacity == old(capacity) && generation == old(generation)
    {
      if capacity < |data| + |bytes| {
        capacity := |data| + |bytes|;
        generation := generation + 1;
      }
      data := data + bytes;
    }
  }

  method WriteHeaderToVST1_0(c: ChunkHeader, buffer: VBuffer) returns (hdrLength: nat)
    requires c.messageLength.Some? && buffer.Valid()
    modifies buffer
    ensures buffer.Valid() && buffer.data == old(buffer.data) + WireHeader(VST1_0, c)
    ensures hdrLength == |WireHeader(VST1_0, c)|
    ensures old(|buffer.data| + hdrLength <= buffer.capacity) ==>
              buffer.capacity == old(buffer.capacity) && buffer.generation == old(buffer.generation)
  {
    var hdr := new byte[MAX_CHUNK_HEADER_SIZE];
    if c.IsFirst() && c.NumberOfChunks() > 1 {
      hdrLength := MAX_CHUNK_HEADER_SIZE;
      Store(hdr, 16, Bytes64(c.messageLength.value));
    } else {
      hdrLength := MIN_CHUNK_HEADER_SIZE;
    }
    ghost var tail := hdr[16..];
    StoreCommonFields(hdr, hdrLength, c);
    assert hdr[16..hdrLength] == tail[..hdrLength - 16];
    assert hdr[..hdrLength] == hdr[..16] + hdr[16..hdrLength];
    buffer.Append(hdr[..hdrLength]);
  }

  /** The fields that start a header in either format. */
  method StoreCommonFields(hdr: array<byte>, hdrLength: nat, c: ChunkHeader)
    requires hdr.Length == MAX_CHUNK_HEADER_SIZE
    modifies hdr
    ensures hdr[..16] == Bytes32((hdrLength + |c.data|) % 0x1_0000_0000) + Bytes32(c.chunkX) + Bytes64(c.messageID)
    ensures hdr[16..] == old(hdr[16..])
  {
    ghost var tail := hdr[16..];
    Store(hdr, 8, Bytes64(c.messageID));
    assert hdr[8..16] == Bytes64(c.messageID) && hdr[16..] == tail;
    ghost var eight := hdr[8..];
    Store(hdr, 4, Bytes32(c.chunkX));
    assert hdr[8..] == eight;
    ghost var four := hdr[4..];
    Store(hdr, 0, Bytes32((hdrLength + |c.data|) % 0x1_0000_0000));
    assert hdr[4..] == four;
    assert hdr[16..] == eight[8..] == tail;
    assert hdr[..16] == hdr[0..4] + hdr[4..8] + hdr[8..16];
    assert hdr[4..8] == four[..4] && hdr[8..16] == eight[..8];
  }

  method WriteHeaderToVST1_1(c: ChunkHeader, buffer: VBuffer) returns (hdrLength: nat)
    requires c.messageLength.Some? && buffer.Valid()
    modifies buffer
    ensures buffer.Valid() && buffer.data == old(buffer.data) + WireHeader(VST1_1, c)
    ensures hdrLength == |WireHeader(VST1_1, c)|
    ensures old(|buffer.data| + hdrLength <= buffer.capacity) ==>
              buffer.capacity == old(buffer.capacity) && buffer.generation == old(buffer.generation)
  {
    hdrLength := MAX_CHUNK_HEADER_SIZE;
    var hdr := new byte[MAX_CHUNK_HEADER_SIZE];
    StoreCommonFields(hdr, hdrLength, c);
    Store(hdr, 16, Bytes64(c.messageLength.value));
    assert hdr[..hdrLength] == hdr[..16] + hdr[16..24];
    buffer.Append(hdr[..hdrLength]);
  }

  /** The length of the chunk at the head of buf if all of it is there, 0 otherwise. */
  function IsChunkComplete(buf: seq<byte>): (n: nat)
    ensures n <= |buf| && (n > 0 ==> |buf| >= 4)
  {
    if |buf| < 4 then 0
    else if |buf| < Word32(buf) then 0
    else Word32(buf)
  }

  /** The chunk at the head of buf is complete and at least as long as its own header, so
      the readers below stay inside it. */
  predicate Readable(v: VSTVersion, buf: seq<byte>) {
    var n := IsChunkComplete(buf);
    match v
    case VST1_0 =>
      && n >= MIN_CHUNK_HEADER_SIZE
      && (Word32(buf[4..]) % 2 == 1 && Word32(buf[4..]) / 2 > 1 ==> n >= MAX_CHUNK_HEADER_SIZE)
    case VST1_1 => n >= MAX_CHUNK_HEADER_SIZE
  }

  function ReadChunkHeaderVST1_0(buf: seq<byte>): ChunkHeader
    requires Readable(VST1_0, buf)
  {
    var chunkX := Word32(buf[4..]);
    var long := chunkX % 2 == 1 && chunkX / 2 > 1;
    var hdrLen := if long then MAX_CHUNK_HEADER_SIZE else MIN_CHUNK_HEADER_SIZE;
    ChunkHeader(Some(Word32(buf)), chunkX, Word64(buf[8..]),
                if long then Some(Word64(buf[16..])) else None,
                buf[hdrLen..Word32(buf)])
  }

  function ReadChunkHeaderVST1_1(buf: seq<byte>): ChunkHeader
    requires Readable(VST1_1, buf)
  {
    ChunkHeader(Some(Word32(buf)), Word32(buf[4..]), Word64(buf[8..]), Some(Word64(buf[16..])),
                buf[MAX_CHUNK_HEADER_SIZE..Word32(buf)])
  }

  function ReadChunkHeader(v: VSTVersion, buf: seq<byte>): ChunkHeader
    requires Readable(v, buf)
  {
    match v
    case VST1_0 => ReadChunkHeaderVST1_0(buf)
    case VST1_1 => ReadChunkHeaderVST1_1(buf)
  }

  /** A chunk as the writer takes it, short enough for the 32-bit length field. */
  predicate Encodable(v: VSTVersion, c: ChunkHeader) {
    c.messageLength.Some? && HeaderLength(v, c) + |c.data| < 0x1_0000_0000
  }

  /** What the reader should make of c: everything but a messageLength that its format
      does not carry. */
  function Received(v: VSTVersion, c: ChunkHeader): ChunkHeader
    requires Encodable(v, c)
  {
    c.(chunkLength := Some(HeaderLength(v, c) + |c.data|),
       messageLength := if HeaderLength(v, c) == MAX_CHUNK_HEADER_SIZE then c.messageLength else None)
  }

  /** The fields of a header are found where the reader looks for them. */
  lemma FieldsAtHead(w: seq<byte>, n: uint32, chunkX: uint32, messageID: uint64)
    requires |w| >= 16 && w[..16] == Bytes32(n) + Bytes32(chunkX) + Bytes64(messageID)
    ensures Word32(w) == n && Word32(w[4..]) == chunkX && Word64(w[8..]) == messageID
  {
    assert w[..4] == w[..16][..4] && w[4..][..4] == w[..16][4..8] && w[8..][..8] == w[..16][8..16];
    Word32RoundTrip(n, w);
    Word32RoundTrip(chunkX, w[4..]);
    Word64RoundTrip(messageID, w[8..]);
  }

  /** w starts with the fields and the data of chunk c. */
  ghost predicate Holds(v: VSTVersion, c: ChunkHeader, w: seq<byte>) {
    var n := HeaderLength(v, c);
    && n + |c.data| <= |w|
    && Word32(w) == n + |c.data|
    && Word32(w[4..]) == c.chunkX
    && Word64(w[8..]) == c.messageID
    && (n == MAX_CHUNK_HEADER_SIZE ==> c.messageLength == Some(Word64(w[16..])))
    && w[n..n + |c.data|] == c.data
  }

  lemma WireHolds(v: VSTVersion, c: ChunkHeader, rest: seq<byte>)
    requires Encodable(v, c)
    ensures Holds(v, c, Wire(v, c) + rest)
  {
    var w := Wire(v, c) + rest;
    FieldsAtHead(w, HeaderLength(v, c) + |c.data|, c.chunkX, c.messageID);
    if HeaderLength(v, c) == MAX_CHUNK_HEADER_SIZE {
      assert w[16..][..8] == Bytes64(c.messageLength.value);
      Word64RoundTrip(c.messageLength.value, w[16..]);
    }
  }

  lemma ReadHeld(v: VSTVersion, c: ChunkHeader, w: seq<byte>)
    requires Encodable(v, c) && Holds(v, c, w)
    ensures IsChunkComplete(w) == HeaderLength(v, c) + |c.data|
    ensures Readable(v, w) && ReadChunkHeader(v, w) == Received(v, c)
  {
  }

  /** Whatever follows it on the stream, an encoded chunk is recognised as complete, its
      extent is found, and the reader recovers every field the format carries. */
  lemma {:induction false} HeaderRoundTrip(v: VSTVersion, c: ChunkHeader, rest: seq<byte>)
    requires Encodable(v, c)
    ensures var w := Wire(v, c) + rest;
            && IsChunkComplete(w) == |Wire(v, c)|
            && Readable(v, w)
            && ReadChunkHeader(v, w) == Received(v, c)
            && w[|Wire(v, c)|..] == rest
  {
    WireHolds(v, c, rest);
    ReadHeld(v, c, Wire(v, c) + rest);
  }

  /** The length field tells the extent of a chunk exactly when the chunk stays below 2^32
      bytes; a longer one is cut short by the truncation. */
  lemma ExtentNeedsThirtyTwoBits(v: VSTVersion, c: ChunkHeader)
    requires c.messageLength.Some?
    ensures IsChunkComplete(Wire(v, c)) == |Wire(v, c)| <==> |Wire(v, c)| < 0x1_0000_0000
  {
    if Encodable(v, c) {
      HeaderRoundTrip(v, c, []);
      assert Wire(v, c) + [] == Wire(v, c);
    }
  }

  /** The header on the wire, byte by byte: 24 bytes long in the VST 1.1 format and for the first
      chunk out of several, 16 bytes otherwise; its fields are, in this order, the extent of the
      chunk, chunkX, the message id and, in a long header, the message length. */
  lemma HeaderLayout(v: VSTVersion, c: ChunkHeader)
    requires c.messageLength.Some?
    ensures var w := WireHeader(v, c);
            && |w| == (if v == VST1_1 || (c.chunkX % 2 == 1 && c.chunkX / 2 > 1) then 24 else 16)
            && FromLittleEndian(w[..4]) == (|w| + |c.data|) % 0x1_0000_0000
            && FromLittleEndian(w[4..8]) == c.chunkX
            && FromLittleEndian(w[8..16]) == c.messageID
            && (|w| == 24 ==> FromLittleEndian(w[16..]) == c.messageLength.value)
            && Wire(v, c) == w + c.data
  {
    var w := WireHeader(v, c);
    var n := (HeaderLength(v, c) + |c.data|) % 0x1_0000_0000;
    assert w[..4] == Bytes32(n) && w[4..8] == Bytes32(c.chunkX) && w[8..16] == Bytes64(c.messageID);
    BytesAreLittleEndian(n, c.messageID);
    BytesAreLittleEndian(c.chunkX, c.messageLength.value);
    assert |w| == 24 ==> w[16..] == Bytes64(c.messageLength.value);
  }
}
