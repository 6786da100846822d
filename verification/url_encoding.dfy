/** Percent-encoding of byte strings, and its decoder, which accepts any string. */
module UrlEncoding {
  import opened Bytes

  /** A byte, written as a character. */
  type Octet = c: char | (c as int) < 0x100

  // Encoding

  predicate IsUnescaped(c: Octet) {
    '0' <= c <= '9' || 'a' <= c <= 'z' || 'A' <= c <= 'Z' || c == '-' || c == '_' || c == '~'
  }

  const HEX_CHARS: seq<Octet> := ['0', '1', '2', '3', '4', '5', '6', '7', '8', '9', 'A', 'B', 'C', 'D', 'E', 'F']

  function HexChar(n: nat): (c: Octet)
    requires n < 16
    ensures IsUnescaped(c) && Hex2Int(c, -1) == n
  {
    HEX_CHARS[n]
  }

  function EncodeOctet(c: Octet): seq<Octet> {
    if IsUnescaped(c) then [c] else ['%', HexChar((c as int) / 16), HexChar((c as int) % 16)]
  }

  function Encoded(src: seq<Octet>): seq<Octet> {
    if src == [] then [] else EncodeOctet(src[0]) + Encoded(src[1..])
  }

  function EscapedCount(src: seq<Octet>): nat {
    if src == [] then 0 else (if IsUnescaped(src[0]) then 0 else 1) + EscapedCount(src[1..])
  }

  lemma {:induction false} EncodedAppend(a: seq<Octet>, c: Octet)
    ensures Encoded(a + [c]) == Encoded(a) + EncodeOctet(c)
  {
    if a == [] {
      assert Encoded([c]) == EncodeOctet(c) + Encoded([c][1..]);
    } else {
      assert (a + [c])[1..] == a[1..] + [c];
      EncodedAppend(a[1..], c);
    }
  }

  /** The length of the encoding, which is below the limit when the guard passes. */
  lemma {:induction false} EncodedLength(src: seq<Octet>)
    ensures |Encoded(src)| == |src| + 2 * EscapedCount(src) <= 3 * |src|
  {
    if src != [] {
      EncodedLength(src[1..]);
    }
  }

  /** None stands for the exception that is thrown for a string whose encoding might not fit. */
  method UrlEncode(src: seq<Octet>) returns (result: Option<seq<Octet>>)
    ensures result == if |src| >= (SIZE_MAX - 1) / 3 then None else Some(Encoded(src))
    ensures result.Some? ==> |result.value| < SIZE_MAX
  {
    if |src| >= (SIZE_MAX - 1) / 3 {
      return None;
    }
    var r: seq<Octet> := [];
    var i := 0;
    while i < |src|
      invariant i <= |src| && r == Encoded(src[..i])
    {
      assert src[..i + 1] == src[..i] + [src[i]];
      EncodedAppend(src[..i], src[i]);
      var c := src[i];
      if '0' <= c <= '9' {
        r := r + [c];
      } else if 'a' <= c <= 'z' {
        r := r + [c];
      } else if 'A' <= c <= 'Z' {
        r := r + [c];
      } else if c == '-' || c == '_' || c == '~' {
        r := r + [c];
      } else {
        var n := c as int;
        var n1 := n / 16;
        var n2 := n % 16;
        r := r + ['%', HexChar(n1), HexChar(n2)];
      }
      i := i + 1;
    }
    assert src[..i] == src;
    EncodedLength(src);
    return Some(r);
  }

  // Decoding

  function Hex2Int(ch: Octet, errorValue: int): int {
    if '0' <= ch <= '9' then (ch - '0') as int
    else if 'A' <= ch <= 'F' then (ch - 'A') as int + 10
    else if 'a' <= ch <= 'f' then (ch - 'a') as int + 10
    else errorValue
  }

  function Plain(c: Octet): Octet {
    if c == '+' then ' ' else c
  }

  /** A '%' with two hexadecimal digits stands for a byte, with one for the value of the digit,
      without any for nothing. */
  function Decoded(s: seq<Octet>): seq<Octet>
    decreases |s|
  {
    if s == [] then []
    else if s[0] != '%' then [Plain(s[0])] + Decoded(s[1..])
    else if |s| == 1 || Hex2Int(s[1], -1) == -1 then Decoded(s[1..])
    else if |s| == 2 || Hex2Int(s[2], -1) == -1 then [Hex2Int(s[1], -1) as char] + Decoded(s[2..])
    else [(16 * Hex2Int(s[1], -1) + Hex2Int(s[2], -1)) as char] + Decoded(s[3..])
  }

  lemma {:induction false} DecodedIsNoLonger(s: seq<Octet>)
    ensures |Decoded(s)| <= |s|
    decreases |s|
  {
    if s != [] {
      DecodedIsNoLonger(s[1..]);
      if |s| > 1 {
        DecodedIsNoLonger(s[2..]);
      }
      if |s| > 2 {
        DecodedIsNoLonger(s[3..]);
      }
    }
  }

  /** Copies up to the next '%'. */
  method CopyPlain(str: seq<Octet>, from: nat, result: seq<Octet>) returns (to: nat, r: seq<Octet>)
    requires from <= |str|
    ensures from <= to <= |str| && (to < |str| ==> str[to] == '%')
    ensures r + Decoded(str[to..]) == result + Decoded(str[from..])
  {
    to, r := from, result;
    while to < |str| && str[to] != '%'
      invariant from <= to <= |str|
      invariant r + Decoded(str[to..]) == result + Decoded(str[from..])
    {
      assert str[to..][1..] == str[to + 1..];
      if str[to] == '+' {
        r := r + [' '];
      } else {
        r := r + [str[to]];
      }
      to := to + 1;
    }
  }

  /** Decodes what starts with the '%' at `from`. */
  method DecodeEscape(str: seq<Octet>, from: nat, result: seq<Octet>) returns (src: nat, r: seq<Octet>)
    requires from < |str| && str[from] == '%'
    ensures from < src <= |str|
    ensures r + Decoded(str[src..]) == result + Decoded(str[from..])
  {
    src, r := from, result;
    ghost var s := str[from..];
    assert s[1..] == str[from + 1..];
    if src + 2 < |str| {
      assert s[2..] == str[from + 2..] && s[3..] == str[from + 3..];
      var h1, h2 := Hex2Int(str[src + 1], -1), Hex2Int(str[src + 2], -1);
      if h1 == -1 {
        src := src + 1;
      } else {
        if h2 == -1 {
          r := r + [h1 as char];
          src := src + 2;
        } else {
          r := r + [(16 * h1 + h2) as char];
          src := src + 3;
        }
      }
    } else if src + 1 < |str| {
      assert s[2..] == str[from + 2..];
      var h1 := Hex2Int(str[src + 1], -1);
      if h1 == -1 {
        src := src + 1;
      } else {
        r := r + [h1 as char];
        src := src + 2;
      }
    } else {
      src := src + 1;
    }
  }

  method UrlDecode(str: seq<Octet>) returns (result: seq<Octet>)
    ensures result == Decoded(str)
  {
    assert str[0..] == str;
    var src: nat;
    src, result := CopyPlain(str, 0, []);
    while src < |str|
      invariant src <= |str| && (src < |str| ==> str[src] == '%')
      invariant result + Decoded(str[src..]) == Decoded(str)
    {
      src, result := DecodeEscape(str, src, result);
      src, result := CopyPlain(str, src, result);
    }
  }

  // Round trip

  lemma DecodedOctet(c: Octet, more: seq<Octet>, rest: seq<Octet>)
    ensures Decoded(EncodeOctet(c) + more + rest) == [c] + Decoded(more + rest)
  {
    var e := EncodeOctet(c);
    assert (e + more + rest)[|e|..] == more + rest;
  }

  lemma Regroup(s: seq<Octet>, rest: seq<Octet>)
    requires s != []
    ensures [s[0]] + (s[1..] + rest) == s + rest
  {
  }

  /** Decoding what has been encoded, in front of anything, gives it back. */
  lemma {:induction false} DecodeEncoded(src: seq<Octet>, rest: seq<Octet>)
    ensures Decoded(Encoded(src) + rest) == src + Decoded(rest)
  {
    if src == [] {
      assert Encoded(src) + rest == rest;
    } else {
      DecodeEncoded(src[1..], rest);
      DecodedOctet(src[0], Encoded(src[1..]), rest);
      Regroup(src, Decoded(rest));
    }
  }

  lemma {:induction false} UrlRoundTrip(src: seq<Octet>)
    ensures Decoded(Encoded(src)) == src
  {
    DecodeEncoded(src, []);
    assert Encoded(src) + [] == Encoded(src);
  }

  /** An encoding holds letters, digits, '-', '_', '~' and '%' only. */
  lemma {:induction false} EncodedCharacters(src: seq<Octet>, c: Octet)
    requires c in Encoded(src)
    ensures 'a' <= c <= 'z' || 'A' <= c <= 'Z' || '0' <= c <= '9' || c in {'-', '_', '~', '%'}
  {
    if src != [] && c in Encoded(src[1..]) {
      EncodedCharacters(src[1..], c);
    }
  }

  /** The strings that are encoded as they are: those of letters, digits, '-', '_' and '~'. */
  lemma {:induction false} EncodedAsItIs(src: seq<Octet>)
    ensures Encoded(src) == src <==>
            forall c :: c in src ==> 'a' <= c <= 'z' || 'A' <= c <= 'Z' || '0' <= c <= '9' || c in {'-', '_', '~'}
  {
    if src != [] {
      EncodedAsItIs(src[1..]);
      EncodedLength(src);
      assert src == [src[0]] + src[1..];
      assert IsUnescaped(src[0]) ==> Encoded(src)[1..] == Encoded(src[1..]);
      assert forall c :: c in src <==> c == src[0] || c in src[1..];
      assert src[0] in src;
    }
  }

  /** Any other byte becomes a '%' and its two hexadecimal digits, in upper case; the encoding of a
      string is put together from those of its bytes. */
  lemma {:induction false} EncodedBytes(c: Octet, more: seq<Octet>)
    ensures Encoded([c] + more) == Encoded([c]) + Encoded(more)
    ensures 'a' <= c <= 'z' || 'A' <= c <= 'Z' || '0' <= c <= '9' || c in {'-', '_', '~'} || (
              exists i, j :: 0 <= i < 16 && 0 <= j < 16 && c as int == 16 * i + j
                             && Encoded([c]) == ['%', "0123456789ABCDEF"[i], "0123456789ABCDEF"[j]])
  {
    assert ([c] + more)[1..] == more && [c][1..] == [];
    assert Encoded([c]) == EncodeOctet(c);
    var i, j := c as int / 16, c as int % 16;
    assert "0123456789ABCDEF"[i] == HEX_CHARS[i] && "0123456789ABCDEF"[j] == HEX_CHARS[j];
  }

  // The decoder, token by token

  /** A plus sign decodes to a blank, any other character but '%' to itself. */
  lemma DecodedCharacter(c: Octet, rest: seq<Octet>)
    requires c != '%'
    ensures Decoded([c] + rest) == (if c == '+' then [' '] else [c]) + Decoded(rest)
  {
    assert ([c] + rest)[1..] == rest;
  }

  /** c is the hexadecimal digit for i, in either case. */
  predicate IsDigitFor(c: Octet, i: nat) {
    i < 16 && (c == "0123456789ABCDEF"[i] || c == "0123456789abcdef"[i])
  }

  lemma DigitValue(c: Octet)
    ensures forall i :: IsDigitFor(c, i) ==> Hex2Int(c, -1) == i
    ensures Hex2Int(c, -1) == -1 <==> forall i :: !IsDigitFor(c, i)
  {
    var n := Hex2Int(c, -1);
    if n != -1 {
      assert IsDigitFor(c, n);
    }
  }

  /** A '%' with two hexadecimal digits, in upper or lower case, decodes to the byte they name. */
  lemma DecodedEscape(c: Octet, d: Octet, i: nat, j: nat, rest: seq<Octet>)
    requires IsDigitFor(c, i) && IsDigitFor(d, j)
    ensures Decoded(['%', c, d] + rest) == [(16 * i + j) as char] + Decoded(rest)
  {
    DigitValue(c);
    DigitValue(d);
    assert (['%', c, d] + rest)[3..] == rest;
  }

  /** A '%' with one digit decodes to the value of the digit, and without any it is dropped. */
  lemma DecodedMalformed(c: Octet, i: nat, rest: seq<Octet>)
    requires rest == [] || forall j :: !IsDigitFor(rest[0], j)
    ensures Decoded(['%'] + rest) == Decoded(rest)
    ensures IsDigitFor(c, i) ==> Decoded(['%', c] + rest) == [i as char] + Decoded(rest)
  {
    DigitValue(c);
    if rest != [] {
      DigitValue(rest[0]);
    }
    assert (['%'] + rest)[1..] == rest && (['%', c] + rest)[2..] == rest;
  }
}
