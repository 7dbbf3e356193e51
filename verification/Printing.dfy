/** Writing tokens with the usual spacing, and why the tokenizer finds them again. */
module Printing {
  import opened Prelude
  import opened Calendar
  import opened Decimals
  import opened Lexer
  import opened Soql

  /** No space before a comma or a closing parenthesis, or at the start of a text or a list. */
  function Gap(first: bool, t: Token): string {
    if first || t.text == "," || t.text == ")" then "" else " "
  }

  function RenderFrom(first: bool, ts: seq<Token>): string
    decreases |ts|
  {
    if ts == [] then "" else Gap(first, ts[0]) + (ts[0].text + RenderFrom(ts[0].text == "(", ts[1..]))
  }

  function Render(ts: seq<Token>): string {
    RenderFrom(true, ts)
  }

  // ---- tokens that stand on their own --------------------------------------------------

  /** What `Render` puts after a token. */
  predicate EndsToken(rest: string) {
    rest == "" || rest[0] == ' ' || rest[0] == ',' || rest[0] == ')'
  }

  /** The tokenizer takes exactly this token off the front, whatever `Render` puts after it. */
  ghost predicate Stands(t: Token) {
    forall rest :: t.kind == Punct || EndsToken(rest) ==> t.text + rest != "" && MatchAt(t.text + rest) == Lexeme(t.kind, |t.text|)
  }

  lemma OneToken(t: Token, rest: string, ts: seq<Token>)
    requires Stands(t) && (t.kind == Punct || EndsToken(rest)) && Tokens(rest) == Ok(ts)
    ensures Tokens(t.text + rest) == Ok([t] + ts)
  {
    hide MatchAt, Lexical, Tokens;
    var s := t.text + rest;
    assert MatchAt(s) == Lexeme(t.kind, |t.text|);
    OneStep(s);
    assert s[..|t.text|] == t.text && s[|t.text|..] == rest;
    MatchIsLexical(s);
  }

  lemma SkipSpace(s: string)
    requires s != "" && !IsSpace(s[0])
    ensures Tokens(" " + s) == Tokens(s)
  {
    hide Tokens, Lexical;
    var t := " " + s;
    assert t[1..] == s;
    assert SpaceRun(s) == 0 && SpaceRun(t) == 1;
    OneStep(t);
    if Tokens(s).Ok? {
      assert [] + Tokens(s).value == Tokens(s).value;
    }
  }

  lemma NothingRendered()
    ensures Tokens("") == Ok([])
  {
  }

  /** The tokens of a rendered token list are that list. */
  lemma {:induction false} RenderedTokens(first: bool, ts: seq<Token>)
    requires forall t :: t in ts ==> Stands(t)
    ensures Tokens(RenderFrom(first, ts)) == Ok(ts)
    decreases |ts|
  {
    hide MatchAt, Lexical, Tokens;
    if ts == [] {
      NothingRendered();
    } else {
      var t, more := ts[0], RenderFrom(ts[0].text == "(", ts[1..]);
      RenderedTokens(t.text == "(", ts[1..]);
      if t.text == "(" {
        ParenIsPunct(t);
      }
      assert t.kind == Punct || EndsToken(more);
      OneToken(t, more, ts[1..]);
      assert [t] + ts[1..] == ts;
      var s := t.text + more;
      assert MatchAt(s).Lexeme?;
      if Gap(first, t) == " " {
        SkipSpace(s);
      } else {
        assert "" + s == s;
      }
    }
  }

  lemma ParenIsPunct(t: Token)
    requires t.text == "("
    ensures t.kind == Punct
  {
    var s := t.text;
    assert s[0] == '(' && |s| == 1;
    assert !InWord(s[0]) && !IsDigit(s[0]);
    assert DigitRun(s) == 0;
    assert NumberLength(s) == 0 && OpLength(s) == 0 && InstantLength(s) == 0;
    assert Lexical(t);
  }

  // ---- every kind of token stands ------------------------------------------------------

  lemma {:induction false} WordRunStops(w: string, rest: string)
    requires forall i :: 0 <= i < |w| ==> InWord(w[i])
    requires rest == "" || !InWord(rest[0])
    ensures WordRun(w + rest) == |w|
  {
    if w == "" {
      assert w + rest == rest;
    } else {
      WordRunStops(w[1..], rest);
      assert (w + rest)[1..] == w[1..] + rest;
    }
  }

  /** A text that starts with a letter can only be a word. */
  lemma StartsWithLetter(s: string)
    requires s != "" && StartsWord(s[0])
    ensures MatchAt(s) == Lexeme(Ident, WordRun(s))
  {
    assert !DateShape(s);
    assert OpLength(s) == 0 by {
      if |s| > 1 {
        assert s[..2][0] == s[0];
      }
    }
  }

  lemma WordStands(w: string)
    requires IsWord(w)
    ensures Lexical(Piece(Ident, w)) && Stands(Piece(Ident, w))
  {
    hide MatchAt;
    forall rest | EndsToken(rest) ensures MatchAt(w + rest) == Lexeme(Ident, |w|) {
      StartsWithLetter(w + rest);
      WordRunStops(w, rest);
    }
  }

  /** A text that starts with neither a space, a quote, a digit nor a minus sign is no literal. */
  predicate Plain(c: char) {
    !IsSpace(c) && c != '\'' && !IsDigit(c) && c != '-'
  }

  lemma StartsPlain(s: string)
    requires s != "" && Plain(s[0])
    ensures OpLength(s) > 0 ==> MatchAt(s) == Lexeme(Op, OpLength(s))
    ensures OpLength(s) == 0 && s[0] in {'(', ')', ','} ==> MatchAt(s) == Lexeme(Punct, 1)
  {
    assert !DateShape(s);
  }

  lemma OpStands(text: string)
    requires text in {"=", "!=", "<", "<=", ">", ">="}
    ensures Lexical(Piece(Op, text)) && Stands(Piece(Op, text))
  {
    hide MatchAt;
    OpLengths(text, "");
    assert text + "" == text;
    forall rest | EndsToken(rest) ensures MatchAt(text + rest) == Lexeme(Op, |text|) {
      OpLengths(text, rest);
      StartsPlain(text + rest);
    }
  }

  lemma OpLengths(text: string, rest: string)
    requires text in {"=", "!=", "<", "<=", ">", ">="} && EndsToken(rest)
    ensures OpLength(text + rest) == |text| && Plain((text + rest)[0])
  {
    var s := text + rest;
    if |text| == 2 {
      assert s[..2] == text;
    } else if |s| > 1 {
      assert s[..2][1] == rest[0];
    }
  }

  lemma PunctStands(text: string)
    requires text in {"(", ")", ","}
    ensures Lexical(Piece(Punct, text)) && Stands(Piece(Punct, text))
  {
    hide MatchAt;
    forall rest: string ensures MatchAt(text + rest) == Lexeme(Punct, 1) {
      var s := text + rest;
      assert |s| > 1 ==> s[..2][0] == text[0];
      StartsPlain(s);
    }
  }

  // ---- quoted texts --------------------------------------------------------------------

  function Escape(s: string): string {
    if s == "" then "" else (if s[0] == '\'' then "\\'" else [s[0]]) + Escape(s[1..])
  }

  function Quote(s: string): string {
    "'" + Escape(s) + "'"
  }

  predicate NoBackslash(s: string) {
    forall i :: 0 <= i < |s| ==> s[i] != '\\'
  }

  /** Quoting hides every quote of the text, so the string ends at its own closing quote. */
  lemma {:induction false} EscapeCloses(s: string, rest: string)
    requires NoBackslash(s)
    ensures Closing(Escape(s) + "'" + rest) == |Escape(s)| + 1
  {
    var t := Escape(s) + "'" + rest;
    if s != "" {
      EscapeCloses(s[1..], rest);
      var more := Escape(s[1..]) + "'" + rest;
      if s[0] == '\'' {
        assert t[2..] == more && t[0] == '\\' && t[1] == '\'';
      } else {
        assert t[1..] == more && t[0] == s[0];
      }
    } else {
      assert t[0] == '\'';
    }
  }

  lemma {:induction false} UnescapeInverts(s: string)
    requires NoBackslash(s)
    ensures Unescape(Escape(s)) == s
  {
    if s != "" {
      UnescapeInverts(s[1..]);
      var t := Escape(s);
      if s[0] == '\'' {
        assert t[..2] == "\\'" && t[2..] == Escape(s[1..]);
      } else {
        assert t[0] == s[0] && t[1..] == Escape(s[1..]);
        assert |t| > 1 ==> t[..2][0] == s[0];
      }
      assert [s[0]] + s[1..] == s;
    }
  }

  lemma QuotedStands(s: string)
    requires NoBackslash(s)
    ensures Lexical(Piece(Quoted, Quote(s))) && Stands(Piece(Quoted, Quote(s)))
  {
    hide Escape;
    forall rest | EndsToken(rest) ensures MatchAt(Quote(s) + rest) == Lexeme(Quoted, |Quote(s)|) {
      var t := Quote(s) + rest;
      assert t[0] == '\'' && t[1..] == Escape(s) + "'" + rest;
      EscapeCloses(s, rest);
    }
  }

  // ---- dates and numbers -----------------------------------------------------------------

  /** The shortest literal that keeps the instant: whole seconds need no fraction. */
  function InstantText(t: int): string
    requires Representable(t)
  {
    if WholeSecond(t) then Literal(t) else Normalised(t)
  }

  lemma InstantTextParses(t: int, rest: string)
    requires Representable(t)
    ensures 0 < |InstantText(t)| == InstantLength(InstantText(t) + rest)
    ensures InstantLength(InstantText(t)) == |InstantText(t)| && ParseInstant(InstantText(t)) == Some(t)
  {
    hide Literal, Normalised, InstantLength, ParseInstant;
    LiteralParses(t, rest);
    LiteralParses(t, "");
    NormalisedParses(t, rest);
    NormalisedParses(t, "");
    assert InstantText(t) + "" == InstantText(t);
  }

  lemma StartsInstant(s: string)
    requires InstantLength(s) > 0
    ensures MatchAt(s) == Lexeme(Instant, InstantLength(s))
  {
    assert IsDigit(s[0]);
  }

  lemma InstantStands(t: int)
    requires Representable(t)
    ensures Lexical(Piece(Instant, InstantText(t))) && Stands(Piece(Instant, InstantText(t)))
  {
    hide InstantText, InstantLength, MatchAt, Representable;
    InstantTextParses(t, "");
    forall rest | EndsToken(rest) ensures MatchAt(InstantText(t) + rest) == Lexeme(Instant, |InstantText(t)|) {
      InstantTextParses(t, rest);
      StartsInstant(InstantText(t) + rest);
    }
  }

  lemma StartsDay(s: string)
    requires DateShape(s) && (|s| == 10 || s[10] != 'T')
    ensures MatchAt(s) == Lexeme(Day, 10)
  {
    assert IsDigit(s[0]);
  }

  lemma DayStands(d: Date)
    requires ValidDate(d)
    ensures Lexical(Piece(Day, DateText(d))) && Stands(Piece(Day, DateText(d)))
  {
    hide MatchAt, ValidDate;
    DateTextParses(d, "");
    assert DateText(d) + "" == DateText(d);
    forall rest | EndsToken(rest) ensures MatchAt(DateText(d) + rest) == Lexeme(Day, 10) {
      DateTextParses(d, rest);
      StartsDay(DateText(d) + rest);
    }
  }

  /** After its first character a number has digits and points only. */
  lemma NumberCharacters(d: Decimal)
    ensures var s := DecimalText(d);
            s != "" && (IsDigit(s[0]) || s[0] == '-') && forall i :: 0 < i < |s| ==> IsDigit(s[i]) || s[i] == '.'
  {
    hide Cut;
  }

  /** The fifth character of a date is a minus sign. */
  lemma NoDate(u: string, rest: string)
    requires forall i :: 0 < i < |u| ==> IsDigit(u[i]) || u[i] == '.'
    requires EndsToken(rest)
    ensures !DateShape(u + rest)
  {
    var s := u + rest;
    if |u| > 4 {
      assert s[4] == u[4];
    } else if |s| > |u| {
      assert s[|u|] == rest[0];
    }
  }

  lemma StartsNumber(s: string)
    requires NumberLength(s) > 0 && !DateShape(s) && (IsDigit(s[0]) || s[0] == '-')
    ensures MatchAt(s) == Lexeme(Number, NumberLength(s))
  {
  }

  lemma NumberStands(d: Decimal)
    ensures Lexical(Piece(Number, DecimalText(d))) && Stands(Piece(Number, DecimalText(d)))
  {
    hide MatchAt, DecimalText, NumberLength;
    DecimalTextParses(d);
    forall rest | EndsToken(rest) ensures MatchAt(DecimalText(d) + rest) == Lexeme(Number, |DecimalText(d)|) {
      DecimalTextLength(d, rest);
      NumberCharacters(d);
      NoDate(DecimalText(d), rest);
      StartsNumber(DecimalText(d) + rest);
    }
  }
}
