/** The tokens of a SOQL text. */
module Lexer {
  import opened Prelude
  import opened Calendar
  import opened Decimals

  /** A rejected query carries its Salesforce error code; a literal no calendar has is a Python ValueError. */
  datatype SoqlError = SoqlError(code: string) | ValueError

  const MALFORMED := SoqlError("MALFORMED_QUERY")
  const INVALID_FIELD := SoqlError("INVALID_FIELD")
  const INVALID_TYPE := SoqlError("INVALID_TYPE")

  datatype Kind = Quoted | Instant | Day | Number | Op | Punct | Ident

  datatype Piece = Piece(kind: Kind, text: string)

  /** The text of a token has the shape its kind promises. */
  predicate Lexical(t: Piece) {
    match t.kind
    case Quoted => |t.text| >= 2 && t.text[0] == '\''
    case Instant => 0 < |t.text| == InstantLength(t.text)
    case Day => DateShape(t.text) && |t.text| == 10
    case Number => 0 < |t.text| == NumberLength(t.text)
    case Ident => t.text != "" && forall i :: 0 <= i < |t.text| ==> InWord(t.text[i])
    case Op => 0 < |t.text| == OpLength(t.text)
    case Punct => |t.text| == 1 && t.text[0] in {'(', ')', ','}
  }

  type Token = t: Piece | Lexical(t) witness Piece(Op, "=")

  /** What a text starts with. */
  datatype Match = NoMatch | Space(length: nat) | Lexeme(kind: Kind, length: nat)

  predicate IsLetter(c: char) {
    'a' <= c <= 'z' || 'A' <= c <= 'Z'
  }

  predicate StartsWord(c: char) {
    IsLetter(c) || c == '_'
  }

  predicate InWord(c: char) {
    StartsWord(c) || IsDigit(c) || c == '.'
  }

  function SpaceRun(s: string): (n: nat)
    ensures n <= |s| && (s != "" && IsSpace(s[0]) ==> n > 0)
  {
    if s != "" && IsSpace(s[0]) then 1 + SpaceRun(s[1..]) else 0
  }

  function WordRun(s: string): (n: nat)
    ensures n <= |s| && (s != "" && InWord(s[0]) ==> n > 0)
    ensures forall i :: 0 <= i < n ==> InWord(s[i])
  {
    if s != "" && InWord(s[0]) then 1 + WordRun(s[1..]) else 0
  }

  /** Up to and with the quote that closes a string; 0 if none does. A backslash takes the next character with it,
    * which may not be a newline. */
  function Closing(s: string): (n: nat)
    ensures n <= |s| && (n > 0 ==> s[n - 1] == '\'')
  {
    if s == "" then 0
    else if s[0] == '\'' then 1
    else if s[0] != '\\' then
      var n := Closing(s[1..]);
      if n == 0 then 0 else n + 1
    else if |s| > 1 && s[1] != '\n' then
      var n := Closing(s[2..]);
      if n == 0 then 0 else n + 2
    else 0
  }

  function OpLength(s: string): (n: nat)
    ensures n <= |s|
  {
    if s == "" then 0
    else if |s| > 1 && s[..2] in {">=", "<=", "!=", "<>"} then 2
    else if s[0] in {'=', '<', '>'} then 1
    else 0
  }

  /** The first alternative that matches the front of a non-empty text. */
  function MatchAt(s: string): (m: Match)
    requires s != ""
    ensures m != NoMatch ==> 0 < m.length <= |s|
    ensures IsSpace(s[0]) <==> m.Space?
  {
    if IsSpace(s[0]) then Space(SpaceRun(s))
    else if s[0] == '\'' && Closing(s[1..]) > 0 then Lexeme(Quoted, 1 + Closing(s[1..]))
    else if InstantLength(s) > 0 then Lexeme(Instant, InstantLength(s))
    else if DateShape(s) then Lexeme(Day, 10)
    else if NumberLength(s) > 0 then Lexeme(Number, NumberLength(s))
    else if OpLength(s) > 0 then Lexeme(Op, OpLength(s))
    else if s[0] in {'(', ')', ','} then Lexeme(Punct, 1)
    else if StartsWord(s[0]) then Lexeme(Ident, WordRun(s))
    else NoMatch
  }

  // ---- a match stands on its own --------------------------------------------------------

  lemma {:induction false} DigitsFromPrefix(s: string, n: nat, at: nat, limit: nat)
    requires at <= |s| && at + DigitsFrom(s, at, limit) < n <= |s|
    ensures DigitsFrom(s[..n], at, limit) == DigitsFrom(s, at, limit)
    decreases limit
  {
    if limit > 0 && IsDigit(s[at]) {
      DigitsFromPrefix(s, n, at + 1, limit - 1);
    }
  }

  lemma InstantPrefix(s: string)
    requires InstantLength(s) > 0
    ensures InstantLength(s[..InstantLength(s)]) == InstantLength(s)
  {
    var n, f := InstantLength(s), FractionLength(s, 19);
    var t := s[..n];
    assert DateShape(t) && ClockShape(t);
    if s[19] == '.' {
      DigitsFromPrefix(s, n, 20, 3);
    }
    assert FractionLength(t, 19) == f;
    assert ZoneLength(t, 19 + f) == ZoneLength(s, 19 + f);
  }

  lemma {:induction false} DigitRunPrefix(s: string, n: nat)
    requires DigitRun(s) <= n <= |s|
    ensures DigitRun(s[..n]) == DigitRun(s)
  {
    if DigitRun(s) > 0 {
      DigitRunPrefix(s[1..], n - 1);
      assert s[..n][1..] == s[1..][..n - 1];
    }
  }

  lemma UnsignedPrefix(s: string)
    ensures UnsignedLength(s[..UnsignedLength(s)]) == UnsignedLength(s)
  {
    var n, whole := UnsignedLength(s), DigitRun(s);
    if n > 0 {
      DigitRunPrefix(s, n);
      assert s[..n][whole..] == s[whole..][..n - whole];
      if n > whole {
        var tail := s[whole..];
        DigitRunPrefix(tail[1..], DigitRun(tail[1..]));
        assert tail[..n - whole][1..] == tail[1..][..DigitRun(tail[1..])];
      }
    }
  }

  lemma NumberPrefix(s: string)
    requires NumberLength(s) > 0
    ensures NumberLength(s[..NumberLength(s)]) == NumberLength(s)
  {
    var n := NumberLength(s);
    if s[0] == '-' {
      UnsignedPrefix(s[1..]);
      assert s[..n][1..] == s[1..][..n - 1];
    } else {
      UnsignedPrefix(s);
    }
  }

  lemma MatchIsLexical(s: string)
    requires s != "" && MatchAt(s).Lexeme?
    ensures Lexical(Piece(MatchAt(s).kind, s[..MatchAt(s).length]))
  {
    match MatchAt(s).kind
    case Instant => InstantPrefix(s);
    case Number => NumberPrefix(s);
    case Op => assert OpLength(s) == 2 ==> s[..2][..2] == s[..2];
    case _ =>
  }

  // ---- the whole text --------------------------------------------------------------------

  /** The tokens of a text, without its white space. */
  function Tokens(s: string): Result<seq<Token>, SoqlError>
    decreases |s|
  {
    if s == "" then Ok([])
    else
      match MatchAt(s)
      case NoMatch => Err(MALFORMED)
      case Space(n) => Tokens(s[n..])
      case Lexeme(kind, n) =>
        var rest :- Tokens(s[n..]);
        MatchIsLexical(s);
        Ok([Piece(kind, s[..n])] + rest)
  }

  function Prepend<T, E>(front: seq<T>, r: Result<seq<T>, E>): Result<seq<T>, E> {
    if r.Ok? then Ok(front + r.value) else r
  }

  /** The tokens of the match at the front of a text, if it has one. */
  function Taken(s: string): seq<Token>
    requires s != ""
  {
    match MatchAt(s)
    case NoMatch => []
    case Space(n) => []
    case Lexeme(kind, n) => MatchIsLexical(s); [Piece(kind, s[..n])]
  }

  lemma OneStep(s: string)
    requires s != ""
    ensures MatchAt(s).NoMatch? ==> Tokens(s) == Err(MALFORMED)
    ensures !MatchAt(s).NoMatch? ==> Tokens(s) == Prepend(Taken(s), Tokens(s[MatchAt(s).length..]))
  {
    if !MatchAt(s).NoMatch? && Tokens(s[MatchAt(s).length..]).Ok? {
      assert [] + Tokens(s[MatchAt(s).length..]).value == Tokens(s[MatchAt(s).length..]).value;
    }
  }

  lemma PrependTwice<T, E>(a: seq<T>, b: seq<T>, r: Result<seq<T>, E>)
    ensures Prepend(a, Prepend(b, r)) == Prepend(a + b, r)
  {
    if r.Ok? {
      assert a + (b + r.value) == a + b + r.value;
    }
  }

  /** What is still to come at `pos`. */
  ghost predicate Left(soql: string, pos: nat, tokens: seq<Token>, whole: Result<seq<Token>, SoqlError>) {
    pos <= |soql| && whole == Prepend(tokens, Tokens(soql[pos..]))
  }

  lemma Starts(soql: string)
    ensures Left(soql, 0, [], Tokens(soql))
  {
    assert soql[0..] == soql;
    if Tokens(soql).Ok? {
      assert [] + Tokens(soql).value == Tokens(soql).value;
    }
  }

  lemma Advances(soql: string, pos: nat, tokens: seq<Token>, whole: Result<seq<Token>, SoqlError>)
    requires pos < |soql| && Left(soql, pos, tokens, whole)
    ensures var m := MatchAt(soql[pos..]);
            match m
            case NoMatch => whole == Err(MALFORMED)
            case Space(n) => Left(soql, pos + n, tokens, whole)
            case Lexeme(kind, n) =>
              Lexical(Piece(kind, soql[pos..pos + n])) && Left(soql, pos + n, tokens + [Piece(kind, soql[pos..pos + n])], whole)
  {
    hide MatchAt, Tokens;
    var s := soql[pos..];
    OneStep(s);
    var m := MatchAt(s);
    if !m.NoMatch? {
      PrependTwice(tokens, Taken(s), Tokens(s[m.length..]));
      assert s[m.length..] == soql[pos + m.length..] && s[..m.length] == soql[pos..pos + m.length];
      assert tokens + [] == tokens;
      if m.Lexeme? {
        MatchIsLexical(s);
      }
    }
  }

  lemma Ends(soql: string, tokens: seq<Token>, whole: Result<seq<Token>, SoqlError>)
    requires Left(soql, |soql|, tokens, whole)
    ensures whole == Ok(tokens)
  {
    assert tokens + [] == tokens;
  }

  /** Every step consumes something, so the loop ends. */
  method Tokenize(soql: string) returns (r: Result<seq<Token>, SoqlError>)
    ensures r == Tokens(soql)
  {
    hide *;
    var tokens: seq<Token>, pos := [], 0;
    ghost var whole := Tokens(soql);
    Starts(soql);
    while pos < |soql|
      invariant 0 <= pos <= |soql| && Left(soql, pos, tokens, whole)
    {
      Advances(soql, pos, tokens, whole);
      match MatchAt(soql[pos..])
      case NoMatch =>
        return Err(MALFORMED);
      case Space(n) =>
        pos := pos + n;
      case Lexeme(kind, n) =>
        tokens := tokens + [Piece(kind, soql[pos..pos + n])];
        pos := pos + n;
    }
    Ends(soql, tokens, whole);
    return Ok(tokens);
  }

  /** The tokens hold everything but white space, in order: nothing is dropped, made up or moved. */
  lemma {:induction false} TokensKeepTheText(s: string)
    requires Tokens(s).Ok?
    ensures Visible(s) == Visible(Texts(Tokens(s).value))
    decreases |s|
  {
    if s != "" {
      var m := MatchAt(s);
      TokensKeepTheText(s[m.length..]);
      assert s == s[..m.length] + s[m.length..];
      VisibleConcat(s[..m.length], s[m.length..]);
      if m.Space? {
        SpaceRunIsSpace(s);
        NothingVisible(s[..m.length]);
      } else {
        var rest := Tokens(s[m.length..]).value;
        assert Tokens(s).value[1..] == rest;
        VisibleConcat(s[..m.length], Texts(rest));
      }
    }
  }

  function Texts(ts: seq<Token>): string {
    if ts == [] then "" else ts[0].text + Texts(ts[1..])
  }

  function Visible(s: string): string {
    if s == "" then "" else Shown(s[0]) + Visible(s[1..])
  }

  function Shown(c: char): string {
    if IsSpace(c) then "" else [c]
  }

  lemma {:induction false} VisibleConcat(a: string, b: string)
    ensures Visible(a + b) == Visible(a) + Visible(b)
  {
    if a == "" {
      assert a + b == b;
    } else {
      VisibleConcat(a[1..], b);
      assert (a + b)[0] == a[0] && (a + b)[1..] == a[1..] + b;
      JoinsThrice(Shown(a[0]), Visible(a[1..]), Visible(b));
    }
  }

  lemma JoinsThrice(a: string, b: string, c: string)
    ensures a + (b + c) == a + b + c
  {
  }

  lemma {:induction false} NothingVisible(s: string)
    requires forall i :: 0 <= i < |s| ==> IsSpace(s[i])
    ensures Visible(s) == ""
  {
    if s != "" {
      NothingVisible(s[1..]);
    }
  }

  lemma {:induction false} SpaceRunIsSpace(s: string)
    ensures forall i :: 0 <= i < SpaceRun(s) ==> IsSpace(s[i])
  {
    if s != "" && IsSpace(s[0]) {
      SpaceRunIsSpace(s[1..]);
      forall i | 0 < i < SpaceRun(s) ensures IsSpace(s[i]) {
        assert s[i] == s[1..][i - 1];
      }
    }
  }
}
