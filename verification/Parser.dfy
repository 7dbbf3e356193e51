/** The recursive-descent parser: one cursor over the tokens, moved by small reading methods. */
module Parser {
  import opened Prelude
  import opened Calendar
  import opened Lexer
  import opened Soql

  /** More items read before the ones still to come. */
  function After<T>(front: seq<T>, p: Parsed<seq<T>>): Parsed<seq<T>> {
    if p.Ok? then Ok((front + p.value.0, p.value.1)) else p
  }

  lemma AfterNothing<T>(p: Parsed<seq<T>>)
    ensures After([], p) == p
  {
    if p.Ok? {
      assert [] + p.value.0 == p.value.0;
    }
  }

  lemma AfterOneMore<T>(front: seq<T>, x: T, p: Parsed<seq<T>>)
    ensures After(front, After([x], p)) == After(front + [x], p)
  {
    if p.Ok? {
      assert front + ([x] + p.value.0) == front + [x] + p.value.0;
    }
  }

  class TokenParser {
    const tokens: seq<Token>
    var i: nat

    constructor (tokens: seq<Token>)
      ensures this.tokens == tokens && Valid() && Rest() == tokens
    {
      this.tokens := tokens;
      i := 0;
    }

    ghost predicate Valid()
      reads this`i
    {
      i <= |tokens|
    }

    ghost function Rest(): seq<Token>
      reads this`i
      requires Valid()
    {
      tokens[i..]
    }

    /** The method did what the reading function says, and moved the cursor past what it read. */
    ghost predicate Got<T>(r: Result<T, SoqlError>, spec: Parsed<T>)
      reads this`i
      requires Valid()
    {
      if spec.Err? then r == Err(spec.error) else r == Ok(spec.value.0) && Rest() == spec.value.1
    }

    method Peek() returns (tok: Option<Token>)
      requires Valid()
      ensures tok == if Rest() == [] then None else Some(Rest()[0])
    {
      tok := if i < |tokens| then Some(tokens[i]) else None;
    }

    method NextToken() returns (r: Result<Token, SoqlError>)
      requires Valid()
      modifies this`i
      ensures Valid() && Got(r, Next(old(Rest())))
    {
      var tok := Peek();
      if tok.None? {
        return Err(MALFORMED);
      }
      i := i + 1;
      return Ok(tok.value);
    }

    method Keyword(word: string) returns (found: bool)
      requires Valid()
      modifies this`i
      ensures Valid() && found == AtWord(old(Rest()), word)
      ensures Rest() == if found then old(Rest())[1..] else old(Rest())
    {
      var tok := Peek();
      if tok.Some? && tok.value.kind == Ident && SameText(tok.value.text, word) {
        i := i + 1;
        return true;
      }
      return false;
    }

    /** Move past a comma, if one is next. */
    method Comma() returns (found: bool)
      requires Valid()
      modifies this`i
      ensures Valid() && found == AtText(old(Rest()), ",")
      ensures Rest() == if found then old(Rest())[1..] else old(Rest())
    {
      var tok := Peek();
      if tok.Some? && tok.value.text == "," {
        i := i + 1;
        return true;
      }
      return false;
    }

    method ExpectKeyword(word: string) returns (ok: bool)
      requires Valid()
      modifies this`i
      ensures Valid() && ok == Expect(old(Rest()), word).Ok?
      ensures ok ==> Rest() == Expect(old(Rest()), word).value
    {
      ok := Keyword(word);
    }

    method ParseField() returns (r: Result<Field, SoqlError>)
      requires Valid()
      modifies this`i
      ensures Valid() && Got(r, ReadField(old(Rest())))
    {
      var tok :- NextToken();
      if tok.kind != Ident {
        return Err(MALFORMED);
      }
      var known := Lookup(tok.text);
      if known.None? {
        return Err(INVALID_FIELD);
      }
      return Ok(known.value);
    }

    method ParseLiteral(f: Field) returns (r: Result<Value, SoqlError>)
      requires Valid()
      modifies this`i
      ensures Valid() && Got(r, ReadLiteral(old(Rest()), f))
    {
      var tok :- NextToken();
      return Meaning(tok, f);
    }

    method ParseTexts(f: Field) returns (r: Result<seq<string>, SoqlError>)
      requires Valid()
      modifies this`i
      ensures Valid() && Got(r, ReadTexts(old(Rest()), f))
    {
      hide ReadLiteral, Meaning, HasType, Lexical;
      var values: seq<string> := [];
      ghost var whole := ReadTexts(Rest(), f);
      AfterNothing(whole);
      while true
        invariant Valid() && whole == After(values, ReadTexts(Rest(), f))
        decreases |tokens| - i
      {
        ghost var before := Rest();
        ghost var had := values;
        var value :- ParseLiteral(f);
        if !value.Text? {
          return Err(MALFORMED);
        }
        values := values + [value.s];
        var sep :- NextToken();
        if sep.text == ")" {
          break;
        }
        if sep.text != "," {
          return Err(MALFORMED);
        }
        assert ReadTexts(before, f) == After([value.s], ReadTexts(Rest(), f));
        AfterOneMore(had, value.s, ReadTexts(Rest(), f));
      }
      return Ok(values);
    }

    method ParseCondition() returns (r: Result<Condition, SoqlError>)
      requires Valid()
      modifies this`i
      ensures Valid() && Got(r, ReadCondition(old(Rest())))
    {
      var f :- ParseField();
      var inList := Keyword("IN");
      if inList {
        var paren :- NextToken();
        if paren.text != "(" {
          return Err(MALFORMED);
        }
        var values :- ParseTexts(f);
        return Ok(Condition(f, In, Texts(values)));
      }
      var op :- NextToken();
      if op.kind != Kind.Op {
        return Err(MALFORMED);
      }
      var value :- ParseLiteral(f);
      return Ok(Condition(f, OpOf(op.text), value));
    }

    method ParseFields() returns (r: Result<seq<Field>, SoqlError>)
      requires Valid()
      modifies this`i
      ensures Valid() && Got(r, ReadFields(old(Rest())))
    {
      var fields: seq<Field> := [];
      ghost var whole := ReadFields(Rest());
      AfterNothing(whole);
      while true
        invariant Valid() && whole == After(fields, ReadFields(Rest()))
        decreases |tokens| - i
      {
        ghost var had := fields;
        var f :- ParseField();
        fields := fields + [f];
        var more := Comma();
        if !more {
          break;
        }
        AfterOneMore(had, f, ReadFields(Rest()));
      }
      return Ok(fields);
    }

    method ParseWhere() returns (r: Result<seq<Condition>, SoqlError>)
      requires Valid()
      modifies this`i
      ensures Valid() && Got(r, ReadWhere(old(Rest())))
    {
      hide ReadCondition, Typed, HasType, Lexical, SameText;
      var where: seq<Condition> := [];
      var found := Keyword("WHERE");
      if !found {
        return Ok(where);
      }
      ghost var whole := ReadConditions(Rest());
      AfterNothing(whole);
      while true
        invariant Valid() && whole == After(where, ReadConditions(Rest()))
        decreases |tokens| - i
      {
        ghost var had := where;
        var c :- ParseCondition();
        where := where + [c];
        var more := Keyword("AND");
        if !more {
          break;
        }
        AfterOneMore(had, c, ReadConditions(Rest()));
      }
      var tok := Peek();
      if tok.Some? && SameText(tok.value.text, "OR") {
        return Err(MALFORMED);
      }
      return Ok(where);
    }

    /** One key: ascending unless it says DESC. */
    method ParseOrder() returns (r: Result<OrderBy, SoqlError>)
      requires Valid()
      modifies this`i
      ensures Valid() && Got(r, ReadOrder(old(Rest())))
    {
      var f :- ParseField();
      var descending := Keyword("DESC");
      if !descending {
        var _ := Keyword("ASC");
      }
      return Ok(OrderBy(f, descending));
    }

    method ParseOrderBy() returns (r: Result<seq<OrderBy>, SoqlError>)
      requires Valid()
      modifies this`i
      ensures Valid() && Got(r, ReadOrderBy(old(Rest())))
    {
      hide ReadOrder, Lexical;
      var orderBy: seq<OrderBy> := [];
      var found := Keyword("ORDER");
      if !found {
        return Ok(orderBy);
      }
      found := ExpectKeyword("BY");
      if !found {
        return Err(MALFORMED);
      }
      ghost var whole := ReadOrders(Rest());
      AfterNothing(whole);
      while true
        invariant Valid() && whole == After(orderBy, ReadOrders(Rest()))
        decreases |tokens| - i
      {
        ghost var had := orderBy;
        var key :- ParseOrder();
        orderBy := orderBy + [key];
        var more := Comma();
        if !more {
          break;
        }
        AfterOneMore(had, key, ReadOrders(Rest()));
      }
      return Ok(orderBy);
    }

    method ParseLimit() returns (r: Result<Option<nat>, SoqlError>)
      requires Valid()
      modifies this`i
      ensures Valid() && Got(r, ReadLimit(old(Rest())))
    {
      var found := Keyword("LIMIT");
      if !found {
        return Ok(None);
      }
      var tok :- NextToken();
      if tok.kind != Number || !AllDigits(tok.text) {
        return Err(MALFORMED);
      }
      return Ok(Some(NatOf(tok.text)));
    }
  }

  /** Read a query, or report the first thing wrong with it. */
  method Parse(soql: string) returns (r: Result<Query, SoqlError>)
    ensures r == Meant(soql)
  {
    hide ReadFields, ReadWhere, ReadOrderBy, ReadLimit, Tokens, Lexical, SameText;
    var tokens :- Tokenize(soql);
    var p := new TokenParser(tokens);
    var ok := p.ExpectKeyword("SELECT");
    if !ok {
      return Err(MALFORMED);
    }
    var fields :- p.ParseFields();
    ok := p.ExpectKeyword("FROM");
    if !ok {
      return Err(MALFORMED);
    }
    var table :- p.NextToken();
    if !SameText(table.text, "Opportunity") {
      return Err(INVALID_TYPE);
    }
    var where :- p.ParseWhere();
    var orderBy :- p.ParseOrderBy();
    var limit :- p.ParseLimit();
    var leftover := p.Peek();
    if leftover.Some? {
      return Err(MALFORMED);
    }
    return Ok(Query(fields, where, orderBy, limit));
  }
}
