/** The URLs of HTTP requests: their query strings, and the protection of single-dot segments. */
module HttpUrls {
  import opened Bytes
  import opened UrlEncoding

  // Dot segments

  /** A segment ends in front of index i. */
  predicate EndsAt(s: seq<Octet>, i: nat) {
    i == |s| || (i < |s| && s[i] in {'/', '#', '?'})
  }

  /** The complete segment ".". */
  predicate SingleDotAt(s: seq<Octet>, i: nat) {
    i + 1 < |s| && s[i] == '/' && s[i + 1] == '.' && EndsAt(s, i + 2)
  }

  /** The complete segment "..". */
  predicate DoubleDotAt(s: seq<Octet>, i: nat) {
    i + 2 < |s| && s[i] == '/' && s[i + 1] == '.' && s[i + 2] == '.' && EndsAt(s, i + 3)
  }

  ghost predicate HasSingleDot(s: seq<Octet>) {
    exists i :: SingleDotAt(s, i)
  }

  ghost predicate HasDoubleDot(s: seq<Octet>) {
    exists i :: DoubleDotAt(s, i)
  }

  /** What stands in front of the query and the fragment. */
  function PathOf(s: seq<Octet>): (path: seq<Octet>)
    ensures path <= s && '?' !in path && '#' !in path
    ensures |path| == |s| || s[|path|] in {'?', '#'}
  {
    if s == [] || s[0] in {'?', '#'} then [] else [s[0]] + PathOf(s[1..])
  }

  /** The dot segments that section 5.2.4 of RFC 3986 removes: those of the path. */
  ghost predicate HasDotSegment(s: seq<Octet>) {
    HasSingleDot(PathOf(s)) || HasDoubleDot(PathOf(s))
  }

  predicate SlashDot(s: seq<Octet>) {
    |s| > 1 && s[0] == '/' && s[1] == '.'
  }

  const PROTECTED: seq<Octet> := ['/', '%', '2', 'E']

  function SafeDotted(s: seq<Octet>): seq<Octet>
    decreases |s|
  {
    if s == [] then []
    else if SingleDotAt(s, 0) then PROTECTED + SafeDotted(s[2..])
    else if SlashDot(s) then ['/', '.'] + SafeDotted(s[2..])
    else [s[0]] + SafeDotted(s[1..])
  }

  /** The first "/." from `from` on. */
  method FindSlashDot(s: seq<Octet>, from: nat) returns (found: Option<nat>)
    requires from <= |s|
    ensures found.Some? ==> from <= found.value < |s| && SlashDot(s[found.value..])
    ensures forall k :: from <= k < (if found.Some? then found.value else |s|) ==> !SlashDot(s[k..])
  {
    var i := from;
    while i < |s|
      invariant from <= i <= |s|
      invariant forall k :: from <= k < i ==> !SlashDot(s[k..])
    {
      assert s[i..][0] == s[i];
      if i + 1 < |s| && s[i] == '/' && s[i + 1] == '.' {
        return Some(i);
      }
      i := i + 1;
    }
    return None;
  }

  lemma {:induction false} NothingBefore(s: seq<Octet>, from: nat, end: nat)
    requires from <= end <= |s|
    requires forall k :: from <= k < end ==> !SlashDot(s[k..])
    ensures SafeDotted(s[from..]) == s[from..end] + SafeDotted(s[end..])
    decreases end - from
  {
    if from < end {
      assert !SlashDot(s[from..]);
      NothingBefore(s, from + 1, end);
      assert s[from..][1..] == s[from + 1..];
      assert s[from..end] == [s[from]] + s[from + 1..end];
    }
  }

  /** What stands for the "/." at index `at`. */
  function SlashDotFor(s: seq<Octet>, at: nat): seq<Octet> {
    if SingleDotAt(s, at) then PROTECTED else ['/', '.']
  }

  lemma NextSlashDot(s: seq<Octet>, from: nat, at: nat)
    requires from <= at < |s| && SlashDot(s[at..])
    requires forall k :: from <= k < at ==> !SlashDot(s[k..])
    ensures at + 2 <= |s|
    ensures SafeDotted(s[from..]) == s[from..at] + SlashDotFor(s, at) + SafeDotted(s[at + 2..])
  {
    NothingBefore(s, from, at);
    var rest := s[at..];
    assert rest[2..] == s[at + 2..];
    assert SafeDotted(rest) == SlashDotFor(s, at) + SafeDotted(rest[2..]);
  }

  lemma Regrouped(a: seq<Octet>, b: seq<Octet>, c: seq<Octet>, d: seq<Octet>)
    ensures a + (b + c) + d == a + (b + c + d) == a + (b + (c + d))
  {
  }

  lemma NothingBehind(s: seq<Octet>, from: nat)
    requires from <= |s| && forall k :: from <= k < |s| ==> !SlashDot(s[k..])
    ensures SafeDotted(s[from..]) == s[from..]
  {
    NothingBefore(s, from, |s|);
  }

  /** One round of the loop below. */
  lemma OneProtected(s: seq<Octet>, url: seq<Octet>, from: nat, at: nat)
    requires from <= at < |s| && SlashDot(s[at..]) && forall k :: from <= k < at ==> !SlashDot(s[k..])
    ensures url + (s[from..at] + SlashDotFor(s, at)) + SafeDotted(s[at + 2..]) == url + SafeDotted(s[from..])
  {
    NextSlashDot(s, from, at);
    Regrouped(url, s[from..at], SlashDotFor(s, at), SafeDotted(s[at + 2..]));
  }

  method CreateSafeDottedCurlUrl(originalUrl: seq<Octet>) returns (url: seq<Octet>)
    ensures url == SafeDotted(originalUrl)
  {
    url := [];
    var currentFind := 0;
    assert originalUrl[0..] == originalUrl;
    var found := FindSlashDot(originalUrl, currentFind);
    while found.Some?
      invariant currentFind <= |originalUrl|
      invariant found.Some? ==> currentFind <= found.value < |originalUrl| && SlashDot(originalUrl[found.value..])
      invariant forall k :: currentFind <= k < (if found.Some? then found.value else |originalUrl|) ==>
        !SlashDot(originalUrl[k..])
      invariant url + SafeDotted(originalUrl[currentFind..]) == SafeDotted(originalUrl)
      decreases |originalUrl| - currentFind
    {
      var at := found.value;
      var replacement: seq<Octet>;
      if at + 2 == |originalUrl| {
        replacement := PROTECTED;
      } else if originalUrl[at + 2] in {'/', '#', '?'} {
        replacement := PROTECTED;
      } else {
        replacement := ['/', '.'];
      }
      assert replacement == SlashDotFor(originalUrl, at);
      OneProtected(originalUrl, url, currentFind, at);
      url := url + (originalUrl[currentFind..at] + replacement);
      currentFind := at + 2;
      found := FindSlashDot(originalUrl, currentFind);
    }
    NothingBehind(originalUrl, currentFind);
    url := url + originalUrl[currentFind..];
  }

  lemma {:induction false} SafeDottedIsSafe(s: seq<Octet>)
    ensures !HasSingleDot(SafeDotted(s))
    ensures s != [] ==> SafeDotted(s) != [] && SafeDotted(s)[0] == s[0]
    ensures s == [] ==> SafeDotted(s) == []
    decreases |s|
  {
    if s != [] {
      var t := SafeDotted(s);
      var n := if SlashDot(s) then 2 else 1;
      var m := if SingleDotAt(s, 0) then 4 else n;
      SafeDottedIsSafe(s[n..]);
      forall i: nat
        ensures !SingleDotAt(t, i)
      {
        if i >= m {
          assert !SingleDotAt(SafeDotted(s[n..]), i - m);
        }
      }
    }
  }

  lemma {:induction false} SafeStays(s: seq<Octet>)
    requires !HasSingleDot(s)
    ensures SafeDotted(s) == s
    decreases |s|
  {
    if s != [] {
      var n := if SlashDot(s) then 2 else 1;
      forall i: nat
        ensures !SingleDotAt(s[n..], i)
      {
        assert !SingleDotAt(s, i + n);
      }
      assert !SingleDotAt(s, 0);
      SafeStays(s[n..]);
      assert s == s[..n] + s[n..];
    }
  }

  /** The protected URL holds no single-dot segment; protecting it again changes nothing, and
      protection changes exactly the URLs that hold one. */
  lemma ProtectionIsFinal(s: seq<Octet>)
    ensures !HasSingleDot(SafeDotted(s))
    ensures SafeDotted(SafeDotted(s)) == SafeDotted(s)
    ensures !HasSingleDot(s) <==> SafeDotted(s) == s
  {
    SafeDottedIsSafe(s);
    SafeStays(SafeDotted(s));
    if !HasSingleDot(s) {
      SafeStays(s);
    }
  }

  /** The dot at index i is a segment of its own. */
  predicate IsLoneDot(s: seq<Octet>, i: nat) {
    0 < i < |s| && s[i - 1] == '/' && s[i] == '.' && (i + 1 == |s| || s[i + 1] in {'/', '#', '?'})
  }

  /** s from index k on, with "%2E" for every dot that is a segment of its own. */
  function WithDotsEscaped(s: seq<Octet>, k: nat): seq<Octet>
    decreases |s| - k
  {
    if k >= |s| then []
    else (if IsLoneDot(s, k) then ['%', '2', 'E'] else [s[k]]) + WithDotsEscaped(s, k + 1)
  }

  lemma {:induction false} ProtectedFrom(s: seq<Octet>, k: nat)
    requires k <= |s| && !IsLoneDot(s, k)
    ensures SafeDotted(s[k..]) == WithDotsEscaped(s, k)
    decreases |s| - k
  {
    if k < |s| {
      var t := s[k..];
      if SlashDot(t) {
        assert SingleDotAt(t, 0) <==> IsLoneDot(s, k + 1);
        assert t[2..] == s[k + 2..];
        ProtectedFrom(s, k + 2);
        assert WithDotsEscaped(s, k) == ['/'] + WithDotsEscaped(s, k + 1);
      } else {
        assert t[1..] == s[k + 1..];
        ProtectedFrom(s, k + 1);
      }
    }
  }

  lemma {:induction false} EscapedDotsLength(s: seq<Octet>, k: nat)
    requires k <= |s|
    ensures |WithDotsEscaped(s, k)| == |s| - k + 2 * |set i | k <= i < |s| && IsLoneDot(s, i)|
    decreases |s| - k
  {
    if k < |s| {
      EscapedDotsLength(s, k + 1);
      var later := set i | k + 1 <= i < |s| && IsLoneDot(s, i);
      assert (set i | k <= i < |s| && IsLoneDot(s, i)) == if IsLoneDot(s, k) then later + {k} else later;
    }
  }

  /** Protection writes "%2E" for every dot that is a segment of its own, which adds two characters,
      and leaves everything else as it is. */
  lemma ProtectionEscapesLoneDots(s: seq<Octet>)
    ensures SafeDotted(s) == WithDotsEscaped(s, 0)
    ensures |SafeDotted(s)| == |s| + 2 * |set i | 0 <= i < |s| && IsLoneDot(s, i)|
  {
    assert s[0..] == s;
    ProtectedFrom(s, 0);
    EscapedDotsLength(s, 0);
  }

  lemma DoubleDotBehind(head: seq<Octet>, rest: seq<Octet>)
    requires head != [] && '/' !in head[1..]
    ensures HasDoubleDot(head + rest) <==> DoubleDotAt(head + rest, 0) || HasDoubleDot(rest)
  {
    var s := head + rest;
    forall i | 0 < i < |head|
      ensures head[i] != '/'
    {
      assert head[i] == head[1..][i - 1];
    }
    if i: nat :| DoubleDotAt(s, i) && i > 0 {
      assert DoubleDotAt(rest, i - |head|);
    }
    if i: nat :| DoubleDotAt(rest, i) {
      assert DoubleDotAt(s, i + |head|);
    }
  }

  lemma {:induction false} DoubleDotsStay(s: seq<Octet>)
    ensures HasDoubleDot(SafeDotted(s)) <==> HasDoubleDot(s)
    decreases |s|
  {
    if s != [] {
      var n := if SlashDot(s) then 2 else 1;
      var head := if SlashDot(s) then SlashDotFor(s, 0) else s[..1];
      DoubleDotsStay(s[n..]);
      DoubleDotAtHead(s);
      assert s == s[..n] + s[n..];
      DoubleDotBehind(s[..n], s[n..]);
      assert SafeDotted(s) == head + SafeDotted(s[n..]);
      DoubleDotBehind(head, SafeDotted(s[n..]));
    }
  }

  lemma DoubleDotAtHead(s: seq<Octet>)
    ensures DoubleDotAt(SafeDotted(s), 0) <==> DoubleDotAt(s, 0)
  {
    if s != [] {
      var n := if SlashDot(s) then 2 else 1;
      SafeDottedIsSafe(s[n..]);
      if SlashDot(s) && !SingleDotAt(s, 0) && s[2] == '.' {
        SafeDottedIsSafe(s[3..]);
        assert s[2..][1..] == s[3..];
        assert SafeDotted(s[2..]) == [s[2]] + SafeDotted(s[3..]);
      }
    }
  }

  /** How much of s the next round of protection looks at, and what it makes of it. */
  function HeadLength(s: seq<Octet>): (n: nat)
    requires s != []
    ensures 0 < n <= |s|
  {
    if SlashDot(s) then 2 else 1
  }

  function ProtectedHead(s: seq<Octet>): seq<Octet>
    requires s != []
  {
    if SlashDot(s) then SlashDotFor(s, 0) else s[..1]
  }

  lemma ProtectionStep(s: seq<Octet>)
    requires s != []
    ensures SafeDotted(s) == ProtectedHead(s) + SafeDotted(s[HeadLength(s)..])
  {
  }

  lemma HeadIsKept(base: seq<Octet>, tail: seq<Octet>)
    requires base != [] && (tail == [] || tail[0] in {'?', '#'})
    ensures HeadLength(base + tail) == HeadLength(base) && ProtectedHead(base + tail) == ProtectedHead(base)
    ensures (base + tail)[HeadLength(base)..] == base[HeadLength(base)..] + tail
  {
    var s := base + tail;
    assert s[0] == base[0] && (|base| > 1 ==> s[1] == base[1]);
  }

  lemma Grouped(a: seq<Octet>, b: seq<Octet>, c: seq<Octet>)
    ensures a + (b + c) == a + b + c
  {
  }

  /** Protection works on the parts in front of and behind the first of '?' and '#' separately. */
  lemma {:induction false} ProtectionSplits(base: seq<Octet>, tail: seq<Octet>)
    requires tail == [] || tail[0] in {'?', '#'}
    ensures SafeDotted(base + tail) == SafeDotted(base) + SafeDotted(tail)
    decreases |base|
  {
    if base == [] {
      assert base + tail == tail;
    } else {
      var rest := base[HeadLength(base)..];
      HeadIsKept(base, tail);
      ProtectionSplits(rest, tail);
      ProtectionStep(base);
      ProtectionStep(base + tail);
      Grouped(ProtectedHead(base), SafeDotted(rest), SafeDotted(tail));
    }
  }

  lemma {:induction false} NothingBehindAppears(s: seq<Octet>)
    requires '?' !in s && '#' !in s
    ensures '?' !in SafeDotted(s) && '#' !in SafeDotted(s)
    decreases |s|
  {
    if s != [] {
      var n := if SlashDot(s) then 2 else 1;
      assert forall c :: c in s[n..] ==> c in s;
      NothingBehindAppears(s[n..]);
    }
  }

  lemma {:induction false} PathInFront(path: seq<Octet>, tail: seq<Octet>)
    requires '?' !in path && '#' !in path && (tail == [] || tail[0] in {'?', '#'})
    ensures PathOf(path + tail) == path
    decreases |path|
  {
    if path == [] {
      assert path + tail == tail;
    } else {
      assert (path + tail)[1..] == path[1..] + tail;
      PathInFront(path[1..], tail);
    }
  }

  lemma ProtectionOfPath(s: seq<Octet>)
    ensures PathOf(SafeDotted(s)) == SafeDotted(PathOf(s))
  {
    var path, tail := PathOf(s), s[|PathOf(s)|..];
    assert s == path + tail;
    ProtectionSplits(path, tail);
    NothingBehindAppears(path);
    SafeDottedIsSafe(tail);
    PathInFront(SafeDotted(path), SafeDotted(tail));
  }

  /** The dot segments of RFC 3986 are all gone exactly when the path holds no segment "..", which
      protection leaves alone. */
  lemma NoDotSegmentExactlyWithoutDoubleDots(s: seq<Octet>)
    ensures HasDotSegment(SafeDotted(s)) <==> HasDoubleDot(PathOf(s))
  {
    ProtectionOfPath(s);
    SafeDottedIsSafe(PathOf(s));
    DoubleDotsStay(PathOf(s));
  }

  /** For instance "/../b". */
  lemma DoubleDotsAreNotProtected()
    ensures var url: seq<Octet> := ['/', '.', '.', '/', 'b'];
            SafeDotted(url) == url && HasDotSegment(SafeDotted(url))
  {
    var url: seq<Octet> := ['/', '.', '.', '/', 'b'];
    PathInFront(url, []);
    assert url + [] == url;
    assert DoubleDotAt(url, 0);
    assert forall i :: !SingleDotAt(url, i);
    ProtectionIsFinal(url);
    NoDotSegmentExactlyWithoutDoubleDots(url);
  }

  /** Protection does not change what a URL decodes to, however malformed its escapes are. */
  lemma {:induction false} ProtectionKeepsMeaning(s: seq<Octet>)
    ensures Decoded(SafeDotted(s)) == Decoded(s)
    decreases |s|
  {
    if s == [] {
    } else if SingleDotAt(s, 0) {
      ProtectionKeepsMeaning(s[2..]);
      DecodedProtected(SafeDotted(s[2..]));
      DecodedSlashDot(s[2..]);
      assert s == ['/', '.'] + s[2..];
    } else if SlashDot(s) {
      ProtectionKeepsMeaning(s[2..]);
      DecodedSlashDot(s[2..]);
      DecodedSlashDot(SafeDotted(s[2..]));
      assert s == ['/', '.'] + s[2..];
    } else if s[0] != '%' {
      ProtectionKeepsMeaning(s[1..]);
      assert SafeDotted(s)[1..] == SafeDotted(s[1..]);
    } else {
      ProtectedEscape(s);
    }
  }

  lemma DecodedSlashDot(rest: seq<Octet>)
    ensures Decoded(['/', '.'] + rest) == ['/', '.'] + Decoded(rest)
  {
    assert (['/', '.'] + rest)[1..] == ['.'] + rest;
    assert (['.'] + rest)[1..] == rest;
  }

  lemma DecodedProtected(rest: seq<Octet>)
    ensures Decoded(PROTECTED + rest) == ['/', '.'] + Decoded(rest)
  {
    assert (PROTECTED + rest)[1..] == ['%', '2', 'E'] + rest;
    assert (['%', '2', 'E'] + rest)[3..] == rest;
  }

  /** At a '%', the two characters behind it are kept as far as they are digits. */
  lemma {:induction false} ProtectedEscape(s: seq<Octet>)
    requires s != [] && s[0] == '%'
    ensures Decoded(SafeDotted(s)) == Decoded(s)
    decreases |s|, 1
  {
    if |s| > 1 {
      SafeDottedIsSafe(s[1..]);
      if Hex2Int(s[1], -1) == -1 {
        ProtectionKeepsMeaning(s[1..]);
        assert SafeDotted(s)[1..] == SafeDotted(s[1..]);
      } else {
        ProtectedDigits(s);
      }
    }
  }

  lemma {:induction false} ProtectedDigits(s: seq<Octet>)
    requires |s| > 1 && s[0] == '%' && Hex2Int(s[1], -1) != -1
    ensures Decoded(SafeDotted(s)) == Decoded(s)
    decreases |s|, 0
  {
    var t := SafeDotted(s);
    assert s[1..][1..] == s[2..];
    assert SafeDotted(s[1..]) == [s[1]] + SafeDotted(s[2..]);
    assert t == ['%'] + SafeDotted(s[1..]);
    SafeDottedIsSafe(s[2..]);
    if |s| > 2 && Hex2Int(s[2], -1) != -1 {
      ProtectionKeepsMeaning(s[3..]);
      assert s[2..][1..] == s[3..];
      assert t[3..] == SafeDotted(s[3..]);
    } else {
      ProtectionKeepsMeaning(s[2..]);
      assert t[2..] == SafeDotted(s[2..]);
    }
  }

  // Query strings

  datatype Parameter = Parameter(key: seq<Octet>, value: seq<Octet>)

  function Field(p: Parameter): seq<Octet> {
    Encoded(p.key) + ['='] + Encoded(p.value)
  }

  /** The parameters, each behind a separator: the first behind the given one. */
  function Query(parameters: seq<Parameter>, sep: Octet): seq<Octet> {
    if parameters == [] then [] else [sep] + (Field(parameters[0]) + Query(parameters[1..], '&'))
  }

  /** The encoding of s is known to fit into a string. */
  predicate Fits(s: seq<Octet>) {
    |s| < (SIZE_MAX - 1) / 3
  }

  ghost predicate AllFit(parameters: seq<Parameter>) {
    forall p :: p in parameters ==> Fits(p.key) && Fits(p.value)
  }

  lemma {:induction false} QueryAppend(parameters: seq<Parameter>, p: Parameter, sep: Octet)
    ensures Query(parameters + [p], sep) == Query(parameters, sep) + ([if parameters == [] then sep else '&'] + Field(p))
  {
    if parameters == [] {
      assert [p][1..] == [];
      assert parameters + [p] == [p];
    } else {
      QueryAppend(parameters[1..], p, '&');
      assert (parameters + [p])[1..] == parameters[1..] + [p];
      Regrouped([sep], Field(parameters[0]), Query(parameters[1..], '&'), ['&'] + Field(p));
    }
  }

  /** The text of a query: a '?' in front of the first parameter and a '&' in front of every other,
      and a '=' between a key and its value. */
  lemma QueryText(parameters: seq<Parameter>, p: Parameter)
    ensures Query([], '?') == []
    ensures Query(parameters + [p], '?')
            == Query(parameters, '?')
               + ([if parameters == [] then '?' else '&'] + (Encoded(p.key) + ['='] + Encoded(p.value)))
  {
    QueryAppend(parameters, p, '?');
  }

  lemma DestinationAppend(base: seq<Octet>, parameters: seq<Parameter>, p: Parameter)
    ensures base + Query(parameters + [p], '?')
            == base + Query(parameters, '?') + ([if parameters == [] then '?' else '&'] + Field(p))
  {
    QueryAppend(parameters, p, '?');
  }

  /** The destination of a request, from its part in front of the query and its parameters in
      the order of their keys; None if the encoding of a parameter might not fit. */
  method BuildDestination(base: seq<Octet>, parameters: seq<Parameter>) returns (destination: Option<seq<Octet>>)
    ensures destination.Some? <==> AllFit(parameters)
    ensures destination.Some? ==> destination.value == base + Query(parameters, '?')
  {
    var result := base;
    if parameters != [] {
      var sep: Octet := '?';
      var i := 0;
      while i < |parameters|
        invariant i <= |parameters| && AllFit(parameters[..i])
        invariant sep == if i == 0 then '?' else '&'
        invariant result == base + Query(parameters[..i], '?')
      {
        var p := parameters[i];
        assert parameters[..i + 1] == parameters[..i] + [p];
        var key := UrlEncode(p.key);
        var value := UrlEncode(p.value);
        if key == None || value == None {
          return None;
        }
        DestinationAppend(base, parameters[..i], p);
        result := result + ([sep] + (key.value + ['='] + value.value));
        sep := '&';
        i := i + 1;
      }
      assert parameters[..i] == parameters;
    }
    return Some(result);
  }

  // Reading a query string

  function Split(s: seq<Octet>, c: Octet): (parts: seq<seq<Octet>>)
    ensures parts != []
  {
    if s == [] then [[]]
    else if s[0] == c then [[]] + Split(s[1..], c)
    else
      var parts := Split(s[1..], c);
      [[s[0]] + parts[0]] + parts[1..]
  }

  /** The length of s in front of the first c. */
  function LengthUpTo(s: seq<Octet>, c: Octet): (n: nat)
    ensures n <= |s|
  {
    if s == [] || s[0] == c then 0 else 1 + LengthUpTo(s[1..], c)
  }

  function ParseField(f: seq<Octet>): Parameter {
    var n := LengthUpTo(f, '=');
    Parameter(Decoded(f[..n]), if n < |f| then Decoded(f[n + 1..]) else [])
  }

  function ParseFields(fields: seq<seq<Octet>>): seq<Parameter> {
    if fields == [] then [] else [ParseField(fields[0])] + ParseFields(fields[1..])
  }

  function ParseQuery(query: seq<Octet>): seq<Parameter> {
    if query == [] then [] else ParseFields(Split(query[1..], '&'))
  }

  lemma {:induction false} SplitAtFirst(a: seq<Octet>, c: Octet, more: seq<Octet>)
    requires c !in a && (more != [] ==> more[0] == c)
    ensures Split(a + more, c) == [a] + if more == [] then [] else Split(more[1..], c)
  {
    if a == [] {
      assert a + more == more;
    } else {
      assert (a + more)[1..] == a[1..] + more;
      SplitAtFirst(a[1..], c, more);
      assert [a[0]] + a[1..] == a;
    }
  }

  lemma {:induction false} LengthUpToFirst(a: seq<Octet>, c: Octet, rest: seq<Octet>)
    requires c !in a
    ensures LengthUpTo(a + ([c] + rest), c) == |a|
  {
    if a != [] {
      assert (a + ([c] + rest))[1..] == a[1..] + ([c] + rest);
      LengthUpToFirst(a[1..], c, rest);
    }
  }

  lemma NoSeparator(p: Parameter)
    ensures '=' !in Encoded(p.key) && '&' !in Field(p)
  {
    if '=' in Encoded(p.key) {
      EncodedCharacters(p.key, '=');
    }
    if '&' in Field(p) {
      EncodedCharacters(if '&' in Encoded(p.key) then p.key else p.value, '&');
    }
  }

  lemma ParseOneField(p: Parameter)
    ensures ParseField(Field(p)) == p
  {
    NoSeparator(p);
    var key, value := Encoded(p.key), Encoded(p.value);
    assert Field(p) == key + (['='] + value);
    LengthUpToFirst(key, '=', value);
    assert Field(p)[..|key|] == key && Field(p)[|key| + 1..] == value;
    UrlRoundTrip(p.key);
    UrlRoundTrip(p.value);
  }

  function Fields(parameters: seq<Parameter>): seq<seq<Octet>> {
    if parameters == [] then [] else [Field(parameters[0])] + Fields(parameters[1..])
  }

  lemma {:induction false} QuerySplits(parameters: seq<Parameter>, sep: Octet)
    requires parameters != []
    ensures Split(Query(parameters, sep)[1..], '&') == Fields(parameters)
  {
    var p, rest := parameters[0], parameters[1..];
    var more := Query(rest, '&');
    NoSeparator(p);
    assert Query(parameters, sep)[1..] == Field(p) + more;
    SplitAtFirst(Field(p), '&', more);
    if rest != [] {
      QuerySplits(rest, '&');
    }
  }

  lemma {:induction false} ParseAllFields(parameters: seq<Parameter>)
    ensures ParseFields(Fields(parameters)) == parameters
  {
    if parameters != [] {
      ParseOneField(parameters[0]);
      ParseAllFields(parameters[1..]);
      assert Fields(parameters)[1..] == Fields(parameters[1..]);
    }
  }

  /** A query splits at its separators, and decodes to the parameters it was built from, in
      their order. */
  lemma QueryRoundTrip(parameters: seq<Parameter>, sep: Octet)
    ensures ParseQuery(Query(parameters, sep)) == parameters
  {
    if parameters != [] {
      QuerySplits(parameters, sep);
      ParseAllFields(parameters);
    }
  }

  // The URL handed to curl

  lemma {:induction false} NoSlashIn(parameters: seq<Parameter>, sep: Octet)
    requires sep != '/'
    ensures '/' !in Query(parameters, sep)
  {
    if parameters != [] {
      var p := parameters[0];
      NoSlashIn(parameters[1..], '&');
      if '/' in Encoded(p.key) {
        EncodedCharacters(p.key, '/');
      }
      if '/' in Encoded(p.value) {
        EncodedCharacters(p.value, '/');
      }
    }
  }

  lemma ProtectionOfPrefix(base: seq<Octet>, query: seq<Octet>)
    requires '/' !in query && (query != [] ==> query[0] == '?')
    ensures SafeDotted(base + query) == SafeDotted(base) + query
  {
    ProtectionSplits(base, query);
    SafeStays(query);
  }

  /** Protection leaves the query alone, whatever the path ends with; so different parameters
      give different URLs even after protection. */
  lemma ParametersSurviveProtection(base: seq<Octet>, parameters: seq<Parameter>, others: seq<Parameter>)
    ensures SafeDotted(base + Query(parameters, '?')) == SafeDotted(base) + Query(parameters, '?')
    ensures SafeDotted(base + Query(parameters, '?')) == SafeDotted(base + Query(others, '?')) ==> parameters == others
  {
    NoSlashIn(parameters, '?');
    NoSlashIn(others, '?');
    ProtectionOfPrefix(base, Query(parameters, '?'));
    ProtectionOfPrefix(base, Query(others, '?'));
    if SafeDotted(base + Query(parameters, '?')) == SafeDotted(base + Query(others, '?')) {
      DestinationsDiffer(SafeDotted(base), parameters, others);
    }
  }

  /** Different parameters give different destinations. */
  lemma DestinationsDiffer(base: seq<Octet>, parameters: seq<Parameter>, others: seq<Parameter>)
    requires base + Query(parameters, '?') == base + Query(others, '?')
    ensures parameters == others
  {
    assert Query(parameters, '?') == (base + Query(parameters, '?'))[|base|..];
    assert Query(others, '?') == (base + Query(others, '?'))[|base|..];
    QueryRoundTrip(parameters, '?');
    QueryRoundTrip(others, '?');
  }
}
