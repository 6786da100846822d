/** The simple regular expressions of googletest. A C string is a sequence of characters other
    than '\0', with a '\0' behind its end. */
module SimpleRegex {
  import opened Bytes

  const NUL := '\0'
  const FORM_FEED := '\U{000C}'
  const VERTICAL_TAB := '\U{000B}'

  ghost predicate IsCString(s: string) {
    NUL !in s && |s| < SIZE_MAX
  }

  /** The character at index i of a C string. */
  function At(s: string, i: nat): char
    requires i <= |s|
  {
    if i < |s| then s[i] else NUL
  }

  // Characters

  predicate IsAsciiDigit(ch: char) {
    '0' <= ch <= '9'
  }

  predicate IsAsciiPunct(ch: char) {
    ch in {'^', '-', '!', '"', '#', '$', '%', '&', '\'', '(', ')', '*', '+', ',', '.', '/', ':', ';', '<', '=', '>', '?', '@', '[', '\\', ']', '_', '`', '{', '|', '}', '~'}
  }

  predicate IsRepeat(ch: char) {
    ch in {'?', '*', '+'}
  }

  predicate IsAsciiWhiteSpace(ch: char) {
    ch in {' ', '\n', '\r', '\t'} || ch == FORM_FEED || ch == VERTICAL_TAB
  }

  predicate IsAsciiWordChar(ch: char) {
    'a' <= ch <= 'z' || 'A' <= ch <= 'Z' || '0' <= ch <= '9' || ch == '_'
  }

  predicate IsValidEscape(c: char) {
    IsAsciiPunct(c) || c in {'d', 'D', 'f', 'n', 'r', 's', 'S', 't', 'v', 'w', 'W'}
  }

  predicate AtomMatchesChar(escaped: bool, pattern: char, ch: char) {
    if !escaped then (pattern == '.' && ch != '\n') || pattern == ch
    else match pattern
      case 'd' => IsAsciiDigit(ch)
      case 'D' => !IsAsciiDigit(ch)
      case 'f' => ch == FORM_FEED
      case 'n' => ch == '\n'
      case 'r' => ch == '\r'
      case 's' => IsAsciiWhiteSpace(ch)
      case 'S' => !IsAsciiWhiteSpace(ch)
      case 't' => ch == '\t'
      case 'v' => ch == VERTICAL_TAB
      case 'w' => IsAsciiWordChar(ch)
      case 'W' => !IsAsciiWordChar(ch)
      case _ => IsAsciiPunct(pattern) && pattern == ch
  }

  // Syntax

  datatype Quantifier = Once | Optional | Star | Plus

  datatype Piece = Piece(escaped: bool, c: char, quantifier: Quantifier)

  /** Pieces one after the other, up to the end of the string if there is a '$'. */
  datatype Tail = Tail(pieces: seq<Piece>, endAnchor: bool)

  datatype Regex = Regex(startAnchor: bool, tail: Tail)

  /** An ordinary character, which stands for itself (or, the dot, for any but a newline). */
  predicate IsOrdinary(c: char) {
    c !in {'\\', '^', '$', '(', ')', '[', ']', '{', '}', '|', '?', '*', '+'} && c != NUL
  }

  predicate IsPiece(p: Piece) {
    if p.escaped then IsValidEscape(p.c) else IsOrdinary(p.c)
  }

  ghost predicate IsTail(t: Tail) {
    forall p :: p in t.pieces ==> IsPiece(p)
  }

  function PrintQuantifier(q: Quantifier): string {
    match q
    case Once => ""
    case Optional => "?"
    case Star => "*"
    case Plus => "+"
  }

  function PrintAtom(escaped: bool, c: char): string {
    if escaped then ['\\', c] else [c]
  }

  function PrintTail(t: Tail): string
    decreases |t.pieces|
  {
    if t.pieces == [] then (if t.endAnchor then "$" else "")
    else
      var p := t.pieces[0];
      PrintAtom(p.escaped, p.c) + (PrintQuantifier(p.quantifier) + PrintTail(t.(pieces := t.pieces[1..])))
  }

  function Print(re: Regex): string {
    (if re.startAnchor then "^" else "") + PrintTail(re.tail)
  }

  // Validation

  /** What may follow: at the start of the expression, or after a repeatable token or another. */
  predicate ValidFrom(r: string, atStart: bool, repeatable: bool)
    decreases |r|
  {
    if r == "" then true
    else if r[0] == '\\' then |r| > 1 && IsValidEscape(r[1]) && ValidFrom(r[2..], false, true)
    else
      && !(r[0] == '^' && !atStart)
      && !(r[0] == '$' && |r| > 1)
      && r[0] !in {'(', ')', '[', ']', '{', '}', '|'}
      && !(IsRepeat(r[0]) && !repeatable)
      && ValidFrom(r[1..], false, r[0] !in {'^', '$', '?', '*', '+'})
  }

  method ValidateRegex(regex: Option<string>) returns (valid: bool)
    requires regex.Some? ==> IsCString(regex.value)
    ensures valid <==> regex.Some? && ValidFrom(regex.value, true, false)
  {
    if regex == None {
      return false;
    }
    var r := regex.value;
    var isValid := true;
    var prevRepeatable := false;
    var i := 0;
    while At(r, i) != NUL
      invariant i <= |r|
      invariant if isValid then ValidFrom(r, true, false) <==> ValidFrom(r[i..], i == 0, prevRepeatable)
                else !ValidFrom(r, true, false)
      decreases |r| - i
    {
      assert r[i..][1..] == r[i + 1..];
      if r[i] == '\\' {
        i := i + 1;
        if At(r, i) == NUL {
          assert i == |r|;
          return false;
        }
        assert r[i - 1..][2..] == r[i + 1..];
        if !IsValidEscape(r[i]) {
          isValid := false;
        }
        prevRepeatable := true;
      } else {
        var ch := r[i];
        if ch == '^' && i > 0 {
          isValid := false;
        } else if ch == '$' && At(r, i + 1) != NUL {
          isValid := false;
        } else if ch in {'(', ')', '[', ']', '{', '}', '|'} {
          isValid := false;
        } else if IsRepeat(ch) && !prevRepeatable {
          isValid := false;
        }
        prevRepeatable := ch !in {'^', '$', '?', '*', '+'};
      }
      i := i + 1;
    }
    assert i == |r|;
    return isValid;
  }

  // Validation, character by character

  /** Behind a backslash that is not escaped itself. */
  predicate IsEscaped(r: string, i: nat)
    requires i <= |r|
  {
    i > 0 && r[i - 1] == '\\' && !IsEscaped(r, i - 1)
  }

  /** What a '?', '*' or '+' at index i can repeat. */
  predicate IsRepeatable(r: string, i: nat)
    requires i <= |r|
  {
    i > 0 && (IsEscaped(r, i - 1) || r[i - 1] !in {'^', '$', '?', '*', '+'})
  }

  /** Escaped are the ASCII punctuation marks and eleven letters. Otherwise a '^' stands at the start
      only, a '$' at the end only, a backslash not at the end, a quantifier behind what it can repeat,
      and brackets and bars nowhere. */
  predicate IsAllowedAt(r: string, i: nat)
    requires i < |r|
  {
    var c := r[i];
    if IsEscaped(r, i) then
      || '!' <= c <= '/' || ':' <= c <= '@' || '[' <= c <= '`' || '{' <= c <= '~'
      || c in {'d', 'D', 'f', 'n', 'r', 's', 'S', 't', 'v', 'w', 'W'}
    else if c == '^' then i == 0
    else if c == '$' then i == |r| - 1
    else if c == '\\' then i < |r| - 1
    else if c in {'?', '*', '+'} then IsRepeatable(r, i)
    else c !in {'(', ')', '[', ']', '{', '}', '|'}
  }

  ghost predicate IsAllowedFrom(r: string, k: nat) {
    forall i :: k <= i < |r| ==> IsAllowedAt(r, i)
  }

  lemma {:induction false} ValidRest(r: string, k: nat)
    requires k <= |r| && !IsEscaped(r, k)
    ensures ValidFrom(r[k..], k == 0, IsRepeatable(r, k)) <==> IsAllowedFrom(r, k)
    decreases |r| - k
  {
    if k == |r| {
    } else if r[k] != '\\' {
      ValidRest(r, k + 1);
      assert r[k..][1..] == r[k + 1..];
      assert IsAllowedFrom(r, k) <==> IsAllowedAt(r, k) && IsAllowedFrom(r, k + 1);
    } else if k + 1 == |r| {
      assert !IsAllowedAt(r, k);
    } else {
      ValidRest(r, k + 2);
      EscapesInRanges(r[k + 1]);
      assert r[k..][2..] == r[k + 2..];
      assert IsEscaped(r, k + 1) && IsRepeatable(r, k + 2);
      assert IsAllowedFrom(r, k) <==> IsAllowedAt(r, k) && IsAllowedAt(r, k + 1) && IsAllowedFrom(r, k + 2);
    }
  }

  lemma EscapesInRanges(c: char)
    ensures IsAsciiPunct(c) <==> '!' <= c <= '/' || ':' <= c <= '@' || '[' <= c <= '`' || '{' <= c <= '~'
  {
  }

  /** A pattern is accepted if and only if each of its characters is allowed where it stands. */
  lemma ValidExactlyWhenAllowed(r: string)
    ensures ValidFrom(r, true, false) <==> forall i :: 0 <= i < |r| ==> IsAllowedAt(r, i)
  {
    ValidRest(r, 0);
    assert r[0..] == r;
  }

  /** The quantifier a string starts with. */
  function QuantifierOf(r: string): Quantifier {
    if r == "" then Once
    else if r[0] == '?' then Optional
    else if r[0] == '*' then Star
    else if r[0] == '+' then Plus
    else Once
  }

  function ParseTail(r: string): Tail
    decreases |r|
  {
    if r == "" then Tail([], false)
    else if r[0] == '$' then Tail([], true)
    else
      var escaped := r[0] == '\\' && |r| > 1;
      var rest := if escaped then r[2..] else r[1..];
      var q := QuantifierOf(rest);
      var t := ParseTail(rest[|PrintQuantifier(q)|..]);
      t.(pieces := [Piece(escaped, if escaped then r[1] else r[0], q)] + t.pieces)
  }

  function Parse(r: string): Regex {
    if r != "" && r[0] == '^' then Regex(true, ParseTail(r[1..])) else Regex(false, ParseTail(r))
  }

  lemma QuantifierOfPrefix(r: string)
    ensures PrintQuantifier(QuantifierOf(r)) <= r
    ensures r != "" && IsRepeat(r[0]) <==> QuantifierOf(r) != Once
  {
  }

  lemma AtomIsValid(p: Piece, w: string, repeatable: bool)
    requires IsPiece(p)
    ensures ValidFrom(PrintAtom(p.escaped, p.c) + w, false, repeatable) <==> ValidFrom(w, false, true)
    ensures (PrintAtom(p.escaped, p.c) + w)[0] != '^' && (PrintAtom(p.escaped, p.c) + w)[0] != '$'
    ensures QuantifierOf(PrintAtom(p.escaped, p.c) + w) == Once
  {
    var atom := PrintAtom(p.escaped, p.c);
    assert (atom + w)[|atom|..] == w;
  }

  lemma AtomOfValid(r: string)
    requires NUL !in r && r != "" && r[0] != '$' && ValidFrom(r, false, false)
    ensures r[0] == '\\' ==> |r| > 1 && IsValidEscape(r[1]) && ValidFrom(r[2..], false, true)
    ensures r[0] != '\\' ==> IsOrdinary(r[0]) && ValidFrom(r[1..], false, true)
  {
    assert r[0] in r;
  }

  lemma QuantifierIsValid(q: Quantifier, w: string)
    requires QuantifierOf(w) == Once
    ensures ValidFrom(PrintQuantifier(q) + w, false, true) <==> ValidFrom(w, false, false)
    ensures QuantifierOf(PrintQuantifier(q) + w) == q
  {
    if q == Once {
      assert PrintQuantifier(q) + w == w;
    } else {
      assert (PrintQuantifier(q) + w)[1..] == w;
    }
  }

  lemma AfterQuantifier(r: string)
    requires ValidFrom(r, false, true)
    ensures ValidFrom(r[|PrintQuantifier(QuantifierOf(r))|..], false, false)
  {
  }

  lemma ParsePiece(p: Piece, w: string)
    requires IsPiece(p)
    ensures var r := PrintAtom(p.escaped, p.c) + w;
            var q := QuantifierOf(w);
            var t := ParseTail(w[|PrintQuantifier(q)|..]);
            ParseTail(r) == t.(pieces := [Piece(p.escaped, p.c, q)] + t.pieces)
  {
    var atom := PrintAtom(p.escaped, p.c);
    assert (atom + w)[|atom|..] == w;
    QuantifierOfPrefix(w);
  }

  lemma {:induction false} ParseTailIsRight(r: string)
    requires NUL !in r && ValidFrom(r, false, false)
    ensures IsTail(ParseTail(r)) && PrintTail(ParseTail(r)) == r
    decreases |r|
  {
    if r != "" && r[0] != '$' {
      AtomOfValid(r);
      var escaped := r[0] == '\\';
      var p := Piece(escaped, if escaped then r[1] else r[0], Once);
      var atom := PrintAtom(p.escaped, p.c);
      var rest := r[|atom|..];
      assert r == atom + rest;
      ParsePiece(p, rest);
      AfterQuantifier(rest);
      QuantifierOfPrefix(rest);
      var q := PrintQuantifier(QuantifierOf(rest));
      ParseTailIsRight(rest[|q|..]);
      PrintParsed(p.(quantifier := QuantifierOf(rest)), ParseTail(rest[|q|..]), rest);
    }
  }

  lemma PrintParsed(p: Piece, t: Tail, rest: string)
    requires PrintQuantifier(p.quantifier) <= rest
    requires IsPiece(p) && IsTail(t) && PrintTail(t) == rest[|PrintQuantifier(p.quantifier)|..]
    ensures IsTail(t.(pieces := [p] + t.pieces))
    ensures PrintTail(t.(pieces := [p] + t.pieces)) == PrintAtom(p.escaped, p.c) + rest
  {
    assert ([p] + t.pieces)[1..] == t.pieces;
    assert rest == PrintQuantifier(p.quantifier) + PrintTail(t);
  }

  lemma {:induction false} PrintedTailIsValid(t: Tail)
    requires IsTail(t)
    ensures ValidFrom(PrintTail(t), false, false)
    ensures QuantifierOf(PrintTail(t)) == Once
    ensures PrintTail(t) != "" ==> PrintTail(t)[0] != '^'
    decreases |t.pieces|
  {
    if t.pieces != [] {
      var p, rest := t.pieces[0], t.(pieces := t.pieces[1..]);
      PrintedTailIsValid(rest);
      QuantifierIsValid(p.quantifier, PrintTail(rest));
      AtomIsValid(p, PrintQuantifier(p.quantifier) + PrintTail(rest), false);
    }
  }

  lemma {:induction false} ParsePrintedTail(t: Tail)
    requires IsTail(t)
    ensures ParseTail(PrintTail(t)) == t
    decreases |t.pieces|
  {
    if t.pieces == [] {
      ParseNoPiece(t);
    } else {
      var rest := t.(pieces := t.pieces[1..]);
      ParsePrintedTail(rest);
      PrintedTailIsValid(rest);
      ParsePrintedPiece(t.pieces[0], PrintTail(rest));
      FirstPiece(t);
    }
  }

  lemma ParseNoPiece(t: Tail)
    requires t.pieces == []
    ensures ParseTail(PrintTail(t)) == t
  {
  }

  lemma FirstPiece(t: Tail)
    requires t.pieces != []
    ensures var p, rest := t.pieces[0], t.(pieces := t.pieces[1..]);
            && t == rest.(pieces := [p] + rest.pieces)
            && PrintTail(t) == PrintAtom(p.escaped, p.c) + (PrintQuantifier(p.quantifier) + PrintTail(rest))
  {
  }

  lemma ParsePrintedPiece(p: Piece, w: string)
    requires IsPiece(p) && QuantifierOf(w) == Once
    ensures var t := ParseTail(w);
            ParseTail(PrintAtom(p.escaped, p.c) + (PrintQuantifier(p.quantifier) + w)) == t.(pieces := [p] + t.pieces)
  {
    var q := PrintQuantifier(p.quantifier);
    QuantifierIsValid(p.quantifier, w);
    ParsePiece(p, q + w);
    assert (q + w)[|q|..] == w;
  }

  /** Exactly the patterns that are printed regular expressions pass validation, and each of
      them is printed from one expression only. */
  lemma ValidMeansPrinted(r: string)
    requires NUL !in r
    ensures ValidFrom(r, true, false) <==> exists re: Regex :: IsTail(re.tail) && Print(re) == r
    ensures ValidFrom(r, true, false) ==> IsTail(Parse(r).tail) && Print(Parse(r)) == r
  {
    if ValidFrom(r, true, false) {
      StartOfValid(r);
      ParseTailIsRight(if r != "" && r[0] == '^' then r[1..] else r);
      PrintAnchored(r);
      assert IsTail(Parse(r).tail) && Print(Parse(r)) == r;
    }
    if re: Regex :| IsTail(re.tail) && Print(re) == r {
      PrintIsValid(re);
    }
  }

  lemma PrintAnchored(r: string)
    requires var body := if r != "" && r[0] == '^' then r[1..] else r; PrintTail(ParseTail(body)) == body
    ensures Print(Parse(r)) == r
  {
  }

  lemma StartOfValid(r: string)
    requires NUL !in r && ValidFrom(r, true, false)
    ensures ValidFrom(if r != "" && r[0] == '^' then r[1..] else r, false, false)
  {
  }

  lemma PrintIsValid(re: Regex)
    requires IsTail(re.tail)
    ensures ValidFrom(Print(re), true, false)
    ensures Print(re) != "" && Print(re)[0] == '^' <==> re.startAnchor
    ensures re.startAnchor ==> Print(re)[1..] == PrintTail(re.tail)
  {
    PrintedTailIsValid(re.tail);
    if re.startAnchor {
      assert Print(re)[1..] == PrintTail(re.tail);
    } else {
      assert Print(re) == PrintTail(re.tail);
    }
  }

  lemma ParsePrinted(re: Regex)
    requires IsTail(re.tail)
    ensures Parse(Print(re)) == re
  {
    ParsePrintedTail(re.tail);
    PrintIsValid(re);
    if !re.startAnchor {
      assert Print(re) == PrintTail(re.tail);
    }
  }

  // Meaning

  predicate Allows(q: Quantifier, n: nat) {
    match q
    case Once => n == 1
    case Optional => n <= 1
    case Star => true
    case Plus => n >= 1
  }

  /** All characters of w match the atom of p, and there are as many as its quantifier allows. */
  ghost predicate PieceLanguage(p: Piece, w: string) {
    Allows(p.quantifier, |w|) && forall k :: 0 <= k < |w| ==> AtomMatchesChar(p.escaped, p.c, w[k])
  }

  /** w is a concatenation of words of the pieces. */
  ghost predicate Language(pieces: seq<Piece>, w: string)
    decreases |pieces|
  {
    if pieces == [] then w == ""
    else exists n :: 0 <= n <= |w| && PieceLanguage(pieces[0], w[..n]) && Language(pieces[1..], w[n..])
  }

  /** Some prefix of s, all of s if there is a '$', is in the language. */
  ghost predicate MatchesHead(t: Tail, s: string) {
    exists n :: 0 <= n <= |s| && Language(t.pieces, s[..n]) && (t.endAnchor ==> n == |s|)
  }

  /** Some substring of s is in the language, at the ends that the anchors ask for. */
  ghost predicate MatchesAnywhere(re: Regex, s: string) {
    exists i, n :: 0 <= i <= n <= |s| && Language(re.tail.pieces, s[i..n])
                   && (re.startAnchor ==> i == 0) && (re.tail.endAnchor ==> n == |s|)
  }

  lemma MatchesHeadInSteps(t: Tail, s: string)
    requires t.pieces != []
    ensures MatchesHead(t, s) <==>
            exists n :: 0 <= n <= |s| && PieceLanguage(t.pieces[0], s[..n]) && MatchesHead(t.(pieces := t.pieces[1..]), s[n..])
  {
    var rest := t.(pieces := t.pieces[1..]);
    if m :| 0 <= m <= |s| && Language(t.pieces, s[..m]) && (t.endAnchor ==> m == |s|) {
      var n :| 0 <= n <= m && PieceLanguage(t.pieces[0], s[..m][..n]) && Language(rest.pieces, s[..m][n..]);
      assert s[..m][..n] == s[..n];
      assert s[..m][n..] == s[n..][..m - n];
      assert MatchesHead(rest, s[n..]);
    }
    if n :| 0 <= n <= |s| && PieceLanguage(t.pieces[0], s[..n]) && MatchesHead(rest, s[n..]) {
      var k :| 0 <= k <= |s[n..]| && Language(rest.pieces, s[n..][..k]) && (t.endAnchor ==> k == |s[n..]|);
      var m := n + k;
      assert s[..m][..n] == s[..n];
      assert s[..m][n..] == s[n..][..k];
      assert Language(t.pieces, s[..m]);
    }
  }

  // Matching

  /** With n characters for the first piece, the rest matches behind them. */
  ghost predicate Splits(p: Piece, rest: Tail, s: string, n: nat) {
    n <= |s| && PieceLanguage(p, s[..n]) && MatchesHead(rest, s[n..])
  }

  lemma MatchesBySplit(p: Piece, rest: Tail, s: string)
    ensures MatchesHead(rest.(pieces := [p] + rest.pieces), s) <==> exists n :: Splits(p, rest, s, n)
  {
    var t := rest.(pieces := [p] + rest.pieces);
    assert t.pieces[1..] == rest.pieces;
    MatchesHeadInSteps(t, s);
    if n :| 0 <= n <= |s| && PieceLanguage(p, s[..n]) && MatchesHead(rest, s[n..]) {
      assert Splits(p, rest, s, n);
    }
  }

  lemma MatchesOnce(p: Piece, rest: Tail, s: string)
    requires p.quantifier == Once
    ensures MatchesHead(rest.(pieces := [p] + rest.pieces), s) <==>
            s != "" && AtomMatchesChar(p.escaped, p.c, s[0]) && MatchesHead(rest, s[1..])
  {
    MatchesBySplit(p, rest, s);
    if s != "" && AtomMatchesChar(p.escaped, p.c, s[0]) && MatchesHead(rest, s[1..]) {
      assert Splits(p, rest, s, 1);
    }
  }

  /** Matches the repeated atom and then the rest of the expression, trying the least number of
      characters first. */
  method MatchRepetitionAndRegexAtHead(escaped: bool, c: char, repeat: char, regex: string, str: string, ghost rest: Tail)
    returns (matches: bool)
    requires IsRepeat(repeat) && IsCString(str) && NUL !in regex
    requires IsTail(rest) && regex == PrintTail(rest)
    ensures var p := Piece(escaped, c, QuantifierOf([repeat]));
            matches <==> MatchesHead(rest.(pieces := [p] + rest.pieces), str)
    decreases |regex|, 1
  {
    ghost var p := Piece(escaped, c, QuantifierOf([repeat]));
    MatchesBySplit(p, rest, str);
    var minCount := if repeat == '+' then 1 else 0;
    var maxCount := if repeat == '?' then 1 else SIZE_MAX - 1;
    var i := 0;
    while i <= maxCount
      invariant i <= |str| && i <= maxCount + 1
      invariant forall k :: 0 <= k < i ==> AtomMatchesChar(escaped, c, str[k])
      invariant forall k :: 0 <= k < i ==> !Splits(p, rest, str, k)
    {
      if i >= minCount {
        var tail := MatchRegexAtHead(regex, str[i..], rest);
        if tail {
          assert Splits(p, rest, str, i);
          return true;
        }
      }
      if At(str, i) == NUL || !AtomMatchesChar(escaped, c, str[i]) {
        forall k | i < k <= |str|
          ensures !Splits(p, rest, str, k)
        {
          assert str[..k][i] == str[i];
        }
        return false;
      }
      i := i + 1;
    }
    return false;
  }

  lemma MatchesNothing(t: Tail, s: string)
    requires t.pieces == []
    ensures MatchesHead(t, s) <==> !t.endAnchor || s == ""
    ensures PrintTail(t) == if t.endAnchor then "$" else ""
  {
    assert Language(t.pieces, s[..0]);
  }

  method MatchRegexAtHead(regex: string, str: string, ghost t: Tail) returns (matches: bool)
    requires IsCString(str) && NUL !in regex
    requires IsTail(t) && regex == PrintTail(t)
    ensures matches <==> MatchesHead(t, str)
    decreases |regex|, 0
  {
    if t.pieces == [] {
      MatchesNothing(t, str);
    } else {
      AtomStarts(t);
    }
    if At(regex, 0) == NUL {
      return true;
    }
    if regex[0] == '$' {
      return At(str, 0) == NUL;
    }
    ghost var p, rest := t.pieces[0], t.(pieces := t.pieces[1..]);
    var escaped := regex[0] == '\\';
    var atom := if escaped then regex[1..] else regex;
    assert t.pieces == [p] + rest.pieces;
    if IsRepeat(At(atom, 1)) {
      matches := MatchRepetitionAndRegexAtHead(escaped, atom[0], atom[1], atom[2..], str, rest);
    } else {
      MatchesOnce(p, rest, str);
      if At(str, 0) == NUL || !AtomMatchesChar(escaped, atom[0], str[0]) {
        return false;
      }
      matches := MatchRegexAtHead(atom[1..], str[1..], rest);
    }
  }

  /** The parts of an expression that starts with a piece. */
  lemma AtomStarts(t: Tail)
    requires IsTail(t) && t.pieces != []
    ensures var r := PrintTail(t);
            var p := t.pieces[0];
            var rest := t.(pieces := t.pieces[1..]);
            var atom := if p.escaped then r[1..] else r;
            && r[0] != '$' && (r[0] == '\\' <==> p.escaped)
            && atom != "" && atom[0] == p.c
            && (|atom| > 1 && IsRepeat(atom[1]) <==> p.quantifier != Once)
            && (if p.quantifier == Once then atom[1..] == PrintTail(rest)
                else QuantifierOf([atom[1]]) == p.quantifier && atom[2..] == PrintTail(rest))
  {
    var p, rest := t.pieces[0], t.(pieces := t.pieces[1..]);
    var more := PrintQuantifier(p.quantifier) + PrintTail(rest);
    PrintedTailIsValid(rest);
    QuantifierStarts(p.quantifier, PrintTail(rest));
    AtomIsValid(p, more, false);
    var r := PrintTail(t);
    var atom := if p.escaped then r[1..] else r;
    assert atom == [p.c] + more;
    assert atom[1..] == more;
    assert p.quantifier != Once ==> atom[2..] == more[1..];
  }

  lemma QuantifierStarts(q: Quantifier, w: string)
    requires QuantifierOf(w) == Once
    ensures var r := PrintQuantifier(q) + w;
            && (r != "" && IsRepeat(r[0]) <==> q != Once)
            && (if q == Once then r == w else QuantifierOf([r[0]]) == q && r[1..] == w)
  {
    QuantifierIsValid(q, w);
    QuantifierOfPrefix(PrintQuantifier(q) + w);
  }

  method MatchRegexAnywhere(regex: Option<string>, str: Option<string>, ghost re: Regex) returns (matches: bool)
    requires regex.Some? ==> NUL !in regex.value && IsTail(re.tail) && Print(re) == regex.value
    requires str.Some? ==> IsCString(str.value)
    ensures matches <==> regex.Some? && str.Some? && MatchesAnywhere(re, str.value)
  {
    if regex == None || str == None {
      return false;
    }
    var r, s := regex.value, str.value;
    PrintIsValid(re);
    if At(r, 0) == '^' {
      matches := MatchRegexAtHead(r[1..], s, re.tail);
      AnywhereMeansAtSomeHead(re, s);
      assert s[0..] == s;
      return;
    }
    assert r == PrintTail(re.tail);
    AnywhereMeansAtSomeHead(re, s);
    var i := 0;
    while true
      invariant i <= |s|
      invariant forall k :: 0 <= k < i ==> !MatchesHead(re.tail, s[k..])
      decreases |s| - i
    {
      var head := MatchRegexAtHead(r, s[i..], re.tail);
      if head {
        return true;
      }
      if At(s, i) == NUL {
        return false;
      }
      i := i + 1;
    }
  }

  /** The first match starts at some head; without a '^', at any. */
  lemma AnywhereMeansAtSomeHead(re: Regex, s: string)
    ensures MatchesAnywhere(re, s) <==> exists i :: 0 <= i <= |s| && MatchesHead(re.tail, s[i..]) && (re.startAnchor ==> i == 0)
  {
    if i, n :| 0 <= i <= n <= |s| && Language(re.tail.pieces, s[i..n]) && (re.startAnchor ==> i == 0)
               && (re.tail.endAnchor ==> n == |s|) {
      assert s[i..][..n - i] == s[i..n];
      assert MatchesHead(re.tail, s[i..]);
    }
    if i :| 0 <= i <= |s| && MatchesHead(re.tail, s[i..]) && (re.startAnchor ==> i == 0) {
      var k :| 0 <= k <= |s[i..]| && Language(re.tail.pieces, s[i..][..k]) && (re.tail.endAnchor ==> k == |s[i..]|);
      assert s[i..][..k] == s[i..i + k];
      assert Language(re.tail.pieces, s[i..i + k]);
    }
  }

  // Literals

  /** The piece that matches only c: punctuation is escaped. */
  function LiteralPiece(c: char): Piece {
    Piece(IsAsciiPunct(c), c, Once)
  }

  lemma LiteralMatches(c: char, ch: char)
    requires c != NUL
    ensures IsPiece(LiteralPiece(c))
    ensures AtomMatchesChar(LiteralPiece(c).escaped, c, ch) <==> ch == c
  {
    if IsAsciiPunct(c) {
      assert c !in {'d', 'D', 'f', 'n', 'r', 's', 'S', 't', 'v', 'w', 'W'};
    } else {
      assert c != '.';
    }
  }

  function LiteralPieces(w: string): (pieces: seq<Piece>)
    ensures |pieces| == |w|
  {
    if w == "" then [] else [LiteralPiece(w[0])] + LiteralPieces(w[1..])
  }

  lemma {:induction false} LiteralsAreRegular(w: string)
    requires NUL !in w
    ensures IsTail(Tail(LiteralPieces(w), false))
  {
    if w != "" {
      assert w[0] in w;
      LiteralMatches(w[0], NUL);
      LiteralsAreRegular(w[1..]);
    }
  }

  lemma FirstLiteral(w: string, u: string)
    requires NUL !in w && w != ""
    ensures PieceLanguage(LiteralPieces(w)[0], u) <==> u == [w[0]]
  {
    assert w[0] in w;
    if |u| == 1 {
      LiteralMatches(w[0], u[0]);
    }
  }

  lemma {:induction false} LiteralIsInLanguage(w: string)
    requires NUL !in w
    ensures Language(LiteralPieces(w), w)
  {
    if w != "" {
      LiteralIsInLanguage(w[1..]);
      FirstLiteral(w, w[..1]);
      assert LiteralPieces(w)[1..] == LiteralPieces(w[1..]);
    }
  }

  lemma {:induction false} OnlyLiteralIsInLanguage(w: string, u: string)
    requires NUL !in w && Language(LiteralPieces(w), u)
    ensures u == w
  {
    if w != "" {
      var pieces := LiteralPieces(w);
      var n :| 0 <= n <= |u| && PieceLanguage(pieces[0], u[..n]) && Language(pieces[1..], u[n..]);
      assert pieces[1..] == LiteralPieces(w[1..]);
      FirstLiteral(w, u[..n]);
      OnlyLiteralIsInLanguage(w[1..], u[n..]);
      assert u == u[..n] + u[n..];
    }
  }

  lemma LiteralLanguage(w: string, u: string)
    requires NUL !in w
    ensures Language(LiteralPieces(w), u) <==> u == w
  {
    LiteralIsInLanguage(w);
    if Language(LiteralPieces(w), u) {
      OnlyLiteralIsInLanguage(w, u);
    }
  }

  ghost predicate OccursAt(w: string, s: string, i: nat) {
    i + |w| <= |s| && s[i..i + |w|] == w
  }

  /** For every string there is a valid expression that matches exactly where the string occurs:
      the one with all punctuation escaped. */
  lemma LiteralsAreFound(w: string, s: string)
    requires NUL !in w
    ensures var re := Regex(false, Tail(LiteralPieces(w), false));
            && ValidFrom(Print(re), true, false)
            && (MatchesAnywhere(re, s) <==> exists i :: OccursAt(w, s, i))
  {
    var re := Regex(false, Tail(LiteralPieces(w), false));
    LiteralsAreRegular(w);
    PrintIsValid(re);
    MatchesLiteral(false, false, w, s);
    assert forall i :: IsFoundAt(false, false, w, s, i) <==> OccursAt(w, s, i);
  }

  /** w occurs at index i, at the ends that the anchors ask for. */
  ghost predicate IsFoundAt(startAnchor: bool, endAnchor: bool, w: string, s: string, i: nat) {
    OccursAt(w, s, i) && (startAnchor ==> i == 0) && (endAnchor ==> i + |w| == |s|)
  }

  lemma MatchesLiteral(startAnchor: bool, endAnchor: bool, w: string, s: string)
    requires NUL !in w
    ensures MatchesAnywhere(Regex(startAnchor, Tail(LiteralPieces(w), endAnchor)), s) <==>
            exists i :: IsFoundAt(startAnchor, endAnchor, w, s, i)
  {
    var pieces := LiteralPieces(w);
    if i, n :| 0 <= i <= n <= |s| && Language(pieces, s[i..n]) && (startAnchor ==> i == 0) && (endAnchor ==> n == |s|) {
      LiteralLanguage(w, s[i..n]);
      assert IsFoundAt(startAnchor, endAnchor, w, s, i);
    }
    if i: nat :| IsFoundAt(startAnchor, endAnchor, w, s, i) {
      LiteralLanguage(w, s[i..i + |w|]);
      assert Language(pieces, s[i..i + |w|]);
    }
  }

  /** Between both anchors nothing but the string itself is found; with one of them, it is found at
      that end only. */
  lemma AnchoredLiterals(w: string, s: string)
    requires NUL !in w
    ensures MatchesAnywhere(Regex(true, Tail(LiteralPieces(w), true)), s) <==> s == w
    ensures MatchesAnywhere(Regex(true, Tail(LiteralPieces(w), false)), s) <==> w <= s
    ensures MatchesAnywhere(Regex(false, Tail(LiteralPieces(w), true)), s) <==> |w| <= |s| && s[|s| - |w|..] == w
  {
    MatchesLiteral(true, true, w, s);
    MatchesLiteral(true, false, w, s);
    MatchesLiteral(false, true, w, s);
    FoundAtEnds(w, s);
  }

  lemma FoundAtEnds(w: string, s: string)
    ensures (exists i :: IsFoundAt(true, true, w, s, i)) <==> s == w
    ensures (exists i :: IsFoundAt(true, false, w, s, i)) <==> w <= s
    ensures (exists i :: IsFoundAt(false, true, w, s, i)) <==> |w| <= |s| && s[|s| - |w|..] == w
  {
    assert |w| <= |s| ==> (IsFoundAt(true, false, w, s, 0) <==> w <= s);
    assert IsFoundAt(true, true, w, s, 0) <==> s == w;
    if |w| <= |s| {
      assert IsFoundAt(false, true, w, s, |s| - |w|) <==> s[|s| - |w|..] == w;
    }
  }

  // What the atoms and the quantifiers mean

  /** The words of one piece that is not repeated. */
  ghost predicate AtomLanguage(escaped: bool, c: char, w: string) {
    Language([Piece(escaped, c, Once)], w)
  }

  lemma OnePiece(p: Piece, w: string)
    ensures Language([p], w) <==> PieceLanguage(p, w)
  {
    assert w[..|w|] == w;
    assert [p][1..] == [];
    if n :| 0 <= n <= |w| && PieceLanguage(p, w[..n]) && Language([p][1..], w[n..]) {
      assert w == w[..n] + w[n..];
    }
  }

  lemma OneCharacter(escaped: bool, c: char, w: string)
    ensures AtomLanguage(escaped, c, w) <==> |w| == 1 && AtomMatchesChar(escaped, c, w[0])
    ensures |w| == 1 ==> w == [w[0]]
  {
    OnePiece(Piece(escaped, c, Once), w);
  }

  /** The escapes for digits, word characters and blanks, and for everything else. */
  lemma ClassesOfCharacters(w: string)
    ensures AtomLanguage(true, 'd', w) <==> |w| == 1 && '0' <= w[0] <= '9'
    ensures AtomLanguage(true, 'w', w) <==>
            |w| == 1 && ('a' <= w[0] <= 'z' || 'A' <= w[0] <= 'Z' || '0' <= w[0] <= '9' || w[0] == '_')
    ensures AtomLanguage(true, 's', w) <==> |w| == 1 && w[0] in {' ', '\n', '\r', '\t', '\U{000B}', '\U{000C}'}
    ensures AtomLanguage(true, 'D', w) <==> |w| == 1 && !AtomLanguage(true, 'd', w)
    ensures AtomLanguage(true, 'W', w) <==> |w| == 1 && !AtomLanguage(true, 'w', w)
    ensures AtomLanguage(true, 'S', w) <==> |w| == 1 && !AtomLanguage(true, 's', w)
  {
    forall c: char
      ensures AtomLanguage(true, c, w) <==> |w| == 1 && AtomMatchesChar(true, c, w[0])
    {
      OneCharacter(true, c, w);
    }
  }

  /** The escapes for one control character each. */
  lemma ControlCharacters(w: string)
    ensures AtomLanguage(true, 'f', w) <==> w == ['\U{000C}']
    ensures AtomLanguage(true, 'n', w) <==> w == ['\n']
    ensures AtomLanguage(true, 'r', w) <==> w == ['\r']
    ensures AtomLanguage(true, 't', w) <==> w == ['\t']
    ensures AtomLanguage(true, 'v', w) <==> w == ['\U{000B}']
  {
    OneCharacter(true, 'f', w);
    OneCharacter(true, 'n', w);
    OneCharacter(true, 'r', w);
    OneCharacter(true, 't', w);
    OneCharacter(true, 'v', w);
  }

  /** The dot stands for any character but a newline, other ordinary characters and escaped
      punctuation marks for themselves. */
  lemma OrdinaryCharacters(w: string, c: char)
    ensures AtomLanguage(false, '.', w) <==> |w| == 1 && w[0] != '\n'
    ensures c != '.' ==> (AtomLanguage(false, c, w) <==> w == [c])
    ensures '!' <= c <= '/' || ':' <= c <= '@' || '[' <= c <= '`' || '{' <= c <= '~' ==>
              (AtomLanguage(true, c, w) <==> w == [c])
  {
    EscapesInRanges(c);
    OneCharacter(false, '.', w);
    OneCharacter(false, c, w);
    OneCharacter(true, c, w);
  }

  /** A '?' stands for none or one, a '*' for any number and a '+' for one or more of its atom. */
  lemma Repetitions(escaped: bool, c: char, w: string)
    ensures var all := forall k :: 0 <= k < |w| ==> AtomLanguage(escaped, c, [w[k]]);
            && (Language([Piece(escaped, c, Optional)], w) <==> |w| <= 1 && all)
            && (Language([Piece(escaped, c, Star)], w) <==> all)
            && (Language([Piece(escaped, c, Plus)], w) <==> |w| >= 1 && all)
  {
    forall k | 0 <= k < |w|
      ensures AtomLanguage(escaped, c, [w[k]]) <==> AtomMatchesChar(escaped, c, w[k])
    {
      OneCharacter(escaped, c, [w[k]]);
    }
    OnePiece(Piece(escaped, c, Optional), w);
    OnePiece(Piece(escaped, c, Star), w);
    OnePiece(Piece(escaped, c, Plus), w);
  }

  lemma {:induction false} JoinWords(a: seq<Piece>, b: seq<Piece>, w: string, n: nat)
    requires n <= |w| && Language(a, w[..n]) && Language(b, w[n..])
    ensures Language(a + b, w)
    decreases |a|
  {
    if a == [] {
      assert a + b == b && w[n..] == w;
    } else {
      assert (a + b)[1..] == a[1..] + b;
      var m :| 0 <= m <= n && PieceLanguage(a[0], w[..n][..m]) && Language(a[1..], w[..n][m..]);
      assert w[..n][..m] == w[..m] && w[..n][m..] == w[m..][..n - m] && w[n..] == w[m..][n - m..];
      JoinWords(a[1..], b, w[m..], n - m);
    }
  }

  lemma {:induction false} SplitWord(a: seq<Piece>, b: seq<Piece>, w: string) returns (n: nat)
    requires Language(a + b, w)
    ensures n <= |w| && Language(a, w[..n]) && Language(b, w[n..])
    decreases |a|
  {
    if a == [] {
      assert a + b == b && w[0..] == w;
      n := 0;
    } else {
      assert (a + b)[1..] == a[1..] + b;
      var m :| 0 <= m <= |w| && PieceLanguage(a[0], w[..m]) && Language(a[1..] + b, w[m..]);
      var k := SplitWord(a[1..], b, w[m..]);
      n := m + k;
      assert w[..n][..m] == w[..m] && w[..n][m..] == w[m..][..k] && w[n..] == w[m..][k..];
    }
  }

  /** A sequence of pieces stands for the words of the first ones followed by words of the others. */
  lemma LanguageOfSequence(a: seq<Piece>, b: seq<Piece>, w: string)
    ensures Language(a + b, w) <==> exists n :: 0 <= n <= |w| && Language(a, w[..n]) && Language(b, w[n..])
  {
    if Language(a + b, w) {
      var n := SplitWord(a, b, w);
    }
    if n :| 0 <= n <= |w| && Language(a, w[..n]) && Language(b, w[n..]) {
      JoinWords(a, b, w, n);
    }
  }
}
