/** Bytes, fixed-width unsigned integers and their little-endian form. */
module Bytes {

  datatype Option<+T> = None | Some(value: T)

  type byte = x: int | 0 <= x < 0x100
  type uint32 = x: int | 0 <= x < 0x1_0000_0000
  type uint64 = x: int | 0 <= x < 0x1_0000_0000_0000_0000

  /** The largest size of anything in memory. */
  const SIZE_MAX: nat := 0x1_0000_0000_0000_0000 - 1

  /** The four bytes of n, least significant first. */
  function Bytes32(n: uint32): (s: seq<byte>)
    ensures |s| == 4
  {
    var n1 := n / 0x100;
    var n2 := n1 / 0x100;
    [n % 0x100, n1 % 0x100, n2 % 0x100, n2 / 0x100]
  }

  function Bytes64(n: uint64): (s: seq<byte>)
    ensures |s| == 8
  {
    Bytes32(n % 0x1_0000_0000) + Bytes32(n / 0x1_0000_0000)
  }

  /** The number whose bytes, least significant first, are s. */
  function FromLittleEndian(s: seq<byte>): nat {
    if s == [] then 0 else s[0] + 0x100 * FromLittleEndian(s[1..])
  }

  lemma FromFourBytes(a: byte, b: byte, c: byte, d: byte)
    ensures FromLittleEndian([a, b, c, d]) == a + 0x100 * (b + 0x100 * (c + 0x100 * d))
  {
    assert [d][1..] == [] && [c, d][1..] == [d] && [b, c, d][1..] == [c, d] && [a, b, c, d][1..] == [b, c, d];
    assert FromLittleEndian([d]) == d;
    assert FromLittleEndian([c, d]) == c + 0x100 * d;
  }

  /** The 32-bit word at the head of s. */
  function Word32(s: seq<byte>): uint32
    requires |s| >= 4
  {
    assert s[..4] == [s[0], s[1], s[2], s[3]];
    FromFourBytes(s[0], s[1], s[2], s[3]);
    FromLittleEndian(s[..4])
  }

  /** The 64-bit word at the head of s. */
  function Word64(s: seq<byte>): uint64
    requires |s| >= 8
  {
    Word32(s) + 0x1_0000_0000 * Word32(s[4..])
  }

  lemma Word32RoundTrip(n: uint32, s: seq<byte>)
    requires |s| >= 4 && s[..4] == Bytes32(n)
    ensures Word32(s) == n
  {
    var n1 := n / 0x100;
    var n2 := n1 / 0x100;
    FromFourBytes(n % 0x100, n1 % 0x100, n2 % 0x100, n2 / 0x100);
  }

  lemma Word64RoundTrip(n: uint64, s: seq<byte>)
    requires |s| >= 8 && s[..8] == Bytes64(n)
    ensures Word64(s) == n
  {
    assert s[..4] == s[..8][..4] == Bytes32(n % 0x1_0000_0000);
    assert s[4..][..4] == s[..8][4..] == Bytes32(n / 0x1_0000_0000);
    Word32RoundTrip(n % 0x1_0000_0000, s);
    Word32RoundTrip(n / 0x1_0000_0000, s[4..]);
  }

  lemma FirstByteLowest(x: byte, rest: seq<byte>)
    ensures FromLittleEndian([x] + rest) == x + 0x100 * FromLittleEndian(rest)
  {
    assert ([x] + rest)[1..] == rest;
  }

  lemma LowBytesFirst(a: seq<byte>, b: seq<byte>)
    requires |a| == 4
    ensures FromLittleEndian(a + b) == FromLittleEndian(a) + 0x1_0000_0000 * FromLittleEndian(b)
  {
    assert a == [a[0], a[1], a[2], a[3]];
    FromFourBytes(a[0], a[1], a[2], a[3]);
    assert a + b == [a[0]] + ([a[1]] + ([a[2]] + ([a[3]] + b)));
    FirstByteLowest(a[3], b);
    FirstByteLowest(a[2], [a[3]] + b);
    FirstByteLowest(a[1], [a[2]] + ([a[3]] + b));
    FirstByteLowest(a[0], [a[1]] + ([a[2]] + ([a[3]] + b)));
  }

  /** The bytes of a number stand for it, least significant first. */
  lemma BytesAreLittleEndian(n: uint32, m: uint64)
    ensures FromLittleEndian(Bytes32(n)) == n
    ensures FromLittleEndian(Bytes64(m)) == m
  {
    Word32RoundTrip(n, Bytes32(n));
    assert Bytes32(n)[..4] == Bytes32(n);
    var low, high := m % 0x1_0000_0000, m / 0x1_0000_0000;
    Word32RoundTrip(low, Bytes32(low));
    Word32RoundTrip(high, Bytes32(high));
    assert Bytes32(low)[..4] == Bytes32(low) && Bytes32(high)[..4] == Bytes32(high);
    LowBytesFirst(Bytes32(low), Bytes32(high));
  }

  /** A word read is what its bytes stand for. */
  lemma WordsAreLittleEndian(s: seq<byte>)
    requires |s| >= 8
    ensures Word32(s) == FromLittleEndian(s[..4])
    ensures Word64(s) == FromLittleEndian(s[..8])
  {
    LowBytesFirst(s[..4], s[4..][..4]);
    assert s[..8] == s[..4] + s[4..][..4];
  }

  function Concat<T>(parts: seq<seq<T>>): seq<T> {
    if parts == [] then [] else parts[0] + Concat(parts[1..])
  }

  lemma {:induction false} ConcatAppend<T>(a: seq<seq<T>>, b: seq<seq<T>>)
    ensures Concat(a + b) == Concat(a) + Concat(b)
  {
    if a == [] {
      assert a + b == b;
    } else {
      ConcatAppend(a[1..], b);
      assert (a + b)[1..] == a[1..] + b;
    }
  }

  lemma ConcatOne<T>(a: seq<T>)
    ensures Concat([a]) == a
  {
  }

  /** Copies bytes into a, starting at index at. */
  method Store(a: array<byte>, at: nat, bytes: seq<byte>)
    requires at + |bytes| <= a.Length
    modifies a
    ensures a[..at] == old(a[..at]) && a[at..at + |bytes|] == bytes
    ensures a[at + |bytes|..] == old(a[at + |bytes|..])
  {
    for k := 0 to |bytes|
      invariant a[..at] == old(a[..at]) && a[at..at + k] == bytes[..k]
      invariant a[at + |bytes|..] == old(a[at + |bytes|..])
    {
      a[at + k] := bytes[k];
      assert a[at..at + k + 1] == a[at..at + k] + [bytes[k]];
    }
  }
}
