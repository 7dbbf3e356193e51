/** Writing a query as text, and why the text means that query. */
module RoundTrip {
  import opened Prelude
  import opened Calendar
  import opened Decimals
  import opened Lexer
  import opened Soql
  import opened Printing
  import Grammar

  // ---- tokens ---------------------------------------------------------------------------

  const SELECT: Token := Piece(Ident, "SELECT")
  const FROM: Token := Piece(Ident, "FROM")
  const OPPORTUNITY: Token := Piece(Ident, "Opportunity")
  const WHERE: Token := Piece(Ident, "WHERE")
  const AND: Token := Piece(Ident, "AND")
  const IN: Token := Piece(Ident, "IN")
  const ORDER: Token := Piece(Ident, "ORDER")
  const BY: Token := Piece(Ident, "BY")
  const ASC: Token := Piece(Ident, "ASC")
  const DESC: Token := Piece(Ident, "DESC")
  const LIMIT: Token := Piece(Ident, "LIMIT")
  const NULL: Token := Piece(Ident, "null")
  const TRUE: Token := Piece(Ident, "true")
  const FALSE: Token := Piece(Ident, "false")
  const COMMA: Token := Piece(Punct, ",")
  const OPEN: Token := Piece(Punct, "(")
  const CLOSE: Token := Piece(Punct, ")")

  function FieldToken(f: Field): Token {
    Piece(Ident, NameOf(f))
  }

  function TextOfOp(op: Op): string {
    match op
    case Eq => "="
    case Ne => "!="
    case Lt => "<"
    case Le => "<="
    case Gt => ">"
    case Ge => ">="
    case In => "="
  }

  function OpToken(op: Op): Token {
    OpStands(TextOfOp(op));
    Piece(Kind.Op, TextOfOp(op))
  }

  /** The values some text means. A text with a backslash has none that is sure to read back. */
  predicate Writable(v: Value) {
    match v
    case Text(s) => NoBackslash(s)
    case At(t) => Representable(t)
    case On(day) => DateOf(day).year <= 9999
    case Texts(items) => items != [] && forall s :: s in items ==> NoBackslash(s)
    case _ => true
  }

  function QuotedToken(s: string): Token
    requires NoBackslash(s)
  {
    QuotedStands(s);
    Piece(Quoted, Quote(s))
  }

  /** The token of a single value. */
  function ValueToken(v: Value): Token
    requires Writable(v) && !v.Texts?
  {
    match v
    case Null => NULL
    case Text(s) => QuotedToken(s)
    case At(t) => InstantStands(t); Piece(Instant, InstantText(t))
    case On(day) => DateOfInverts(day); DayStands(DateOf(day)); Piece(Day, DateText(DateOf(day)))
    case Flag(b) => if b then TRUE else FALSE
    case Num(d) => NumberStands(d); Piece(Number, DecimalText(d))
  }

  lemma ValueStands(v: Value)
    requires Writable(v) && !v.Texts?
    ensures Stands(ValueToken(v))
  {
    hide Stands, MatchAt, Lexical, IsWord;
    match v
    case Null => WordsStand();
    case Text(s) => QuotedStands(s);
    case At(t) => InstantStands(t);
    case On(day) => DateOfInverts(day); DayStands(DateOf(day));
    case Flag(b) => WordsStand();
    case Num(d) => NumberStands(d);
  }

  lemma WordsStand()
    ensures Stands(NULL) && Stands(TRUE) && Stands(FALSE)
  {
    hide Stands, MatchAt, Lexical;
    WordStands("null");
    WordStands("true");
    WordStands("false");
  }

  /** A value's token means that value, in any field it fits. */
  lemma ValueTokenMeans(v: Value, f: Field)
    requires Writable(v) && HasType(v, f)
    ensures Meaning(ValueToken(v), f) == Ok(v)
  {
    hide ParseInstant, InstantLength, ParseDecimal, NumberLength, ParseDate, Stands, InstantText, DecimalText;
    match v
    case Null =>
    case Text(s) => QuotedMeans(s, f);
    case At(t) => InstantTextParses(t, "");
    case On(day) => DayMeans(day);
    case Flag(b) => FlagWords();
    case Num(d) => DecimalTextParses(d);
  }

  lemma FlagWords()
    ensures SameText("true", "TRUE") && SameText("false", "FALSE")
    ensures !SameText("true", "NULL") && !SameText("false", "NULL") && !SameText("false", "TRUE")
  {
    assert LowerChar("true"[0]) != LowerChar("NULL"[0]);
  }

  lemma QuotedMeans(s: string, f: Field)
    requires NoBackslash(s) && TypeOf(f) == TextType
    ensures Meaning(QuotedToken(s), f) == Ok(Text(s))
  {
    hide Unescape, Escape;
    UnescapeInverts(s);
    assert Quote(s)[1..|Quote(s)| - 1] == Escape(s);
  }

  lemma DayMeans(day: nat)
    requires DateOf(day).year <= 9999
    ensures var s := DateText(DateOf(day)); DateShape(s) && ParseDate(s) == Some(day)
  {
    hide DateOf, DateText, DateShape, ValidDate;
    DateOfInverts(day);
    DateTextParses(DateOf(day), "");
    assert DateText(DateOf(day)) + "" == DateText(DateOf(day));
  }

  // ---- the pieces of a query -------------------------------------------------------------

  function FieldTokens(fs: seq<Field>, rest: seq<Token>): seq<Token>
    requires fs != []
  {
    [FieldToken(fs[0])] + if |fs| == 1 then rest else [COMMA] + FieldTokens(fs[1..], rest)
  }

  function TextTokens(items: seq<string>, rest: seq<Token>): seq<Token>
    requires items != [] && forall s :: s in items ==> NoBackslash(s)
  {
    [QuotedToken(items[0])] + if |items| == 1 then [CLOSE] + rest else [COMMA] + TextTokens(items[1..], rest)
  }

  function ConditionTokens(c: Condition, rest: seq<Token>): seq<Token>
    requires Typed(c) && Writable(c.value)
  {
    [FieldToken(c.field)] +
    if c.op == In then [IN] + ([OPEN] + TextTokens(c.value.items, rest))
    else [OpToken(c.op)] + ([ValueToken(c.value)] + rest)
  }

  ghost predicate AllWritable(cs: seq<Condition>) {
    forall c :: c in cs ==> Typed(c) && Writable(c.value)
  }

  function ConditionsTokens(cs: seq<Condition>, rest: seq<Token>): seq<Token>
    requires cs != [] && forall c :: c in cs ==> Typed(c) && Writable(c.value)
  {
    ConditionTokens(cs[0], if |cs| == 1 then rest else [AND] + ConditionsTokens(cs[1..], rest))
  }

  function OrderTokens(os: seq<OrderBy>, rest: seq<Token>): seq<Token>
    requires os != []
  {
    [FieldToken(os[0].field)] + ([if os[0].descending then DESC else ASC]
    + if |os| == 1 then rest else [COMMA] + OrderTokens(os[1..], rest))
  }

  function LimitTokens(limit: Option<nat>): seq<Token> {
    if limit.None? then []
    else
      NumberStands(Decimal(limit.value, 0));
      [LIMIT, Piece(Number, DecimalText(Decimal(limit.value, 0)))]
  }

  function OrderByTokens(os: seq<OrderBy>, rest: seq<Token>): seq<Token> {
    if os == [] then rest else [ORDER] + ([BY] + OrderTokens(os, rest))
  }

  function WhereTokens(cs: seq<Condition>, rest: seq<Token>): seq<Token>
    requires forall c :: c in cs ==> Typed(c) && Writable(c.value)
  {
    if cs == [] then rest else [WHERE] + ConditionsTokens(cs, rest)
  }

  /** A query with a text: typed, and every value writable. */
  predicate WritableQuery(q: Query) {
    TypedQuery(q) && forall c :: c in q.where ==> Typed(c) && Writable(c.value)
  }

  function QueryTokens(q: Query): seq<Token>
    requires WritableQuery(q)
  {
    [SELECT] + FieldTokens(q.fields,
      [FROM] + ([OPPORTUNITY] + WhereTokens(q.where, OrderByTokens(q.orderBy, LimitTokens(q.limit)))))
  }

  /** The text of a query. */
  function Written(q: Query): string
    requires WritableQuery(q)
  {
    Render(QueryTokens(q))
  }

  // ---- reading the pieces back ----------------------------------------------------------

  lemma NamesDiffer(f: Field, g: Field)
    requires f != g
    ensures !SameText(NameOf(f), NameOf(g))
  {
    if |NameOf(f)| == |NameOf(g)| {
      assert LowerChar(NameOf(f)[0]) != LowerChar(NameOf(g)[0]);
    }
  }

  lemma {:induction false} FindsName(f: Field, among: seq<Field>)
    requires f in among
    ensures Find(NameOf(f), among) == Some(f)
  {
    hide NameOf;
    if among[0] != f {
      NamesDiffer(f, among[0]);
      FindsName(f, among[1..]);
    }
  }

  lemma ReadsField(f: Field, rest: seq<Token>)
    ensures ReadField([FieldToken(f)] + rest) == Ok((f, rest))
  {
    hide NameOf, Find, Lexical;
    Grammar.EveryFieldIsListed(f);
    FindsName(f, FIELDS);
    assert ([FieldToken(f)] + rest)[1..] == rest;
  }

  lemma {:induction false} ReadsFields(fs: seq<Field>, rest: seq<Token>)
    requires fs != [] && !AtText(rest, ",")
    ensures ReadFields(FieldTokens(fs, rest)) == Ok((fs, rest))
  {
    hide ReadField, FieldToken, Lexical;
    if |fs| == 1 {
      ReadsField(fs[0], rest);
      assert [fs[0]] == fs;
    } else {
      var more := [COMMA] + FieldTokens(fs[1..], rest);
      ReadsField(fs[0], more);
      assert more[1..] == FieldTokens(fs[1..], rest);
      ReadsFields(fs[1..], rest);
      assert [fs[0]] + fs[1..] == fs;
    }
  }

  lemma ReadsLiteral(v: Value, f: Field, rest: seq<Token>)
    requires Writable(v) && HasType(v, f)
    ensures ReadLiteral([ValueToken(v)] + rest, f) == Ok((v, rest))
  {
    hide Meaning, ValueToken, Lexical, Writable;
    ValueTokenMeans(v, f);
    assert ([ValueToken(v)] + rest)[1..] == rest;
  }

  lemma {:induction false} ReadsTexts(items: seq<string>, f: Field, rest: seq<Token>)
    requires items != [] && TypeOf(f) == TextType && forall s :: s in items ==> NoBackslash(s)
    ensures ReadTexts(TextTokens(items, rest), f) == Ok((items, rest))
  {
    hide ReadLiteral, Lexical, Quote, NoBackslash;
    var v := Text(items[0]);
    assert QuotedToken(items[0]) == ValueToken(v);
    if |items| == 1 {
      ReadsLiteral(v, f, [CLOSE] + rest);
      assert ([CLOSE] + rest)[1..] == rest && [items[0]] == items;
    } else {
      var more := [COMMA] + TextTokens(items[1..], rest);
      ReadsLiteral(v, f, more);
      assert more[1..] == TextTokens(items[1..], rest);
      ReadsTexts(items[1..], f, rest);
      assert [items[0]] + items[1..] == items;
    }
  }

  lemma ReadsCondition(c: Condition, rest: seq<Token>)
    requires Typed(c) && Writable(c.value)
    ensures ReadCondition(ConditionTokens(c, rest)) == Ok((c, rest))
  {
    hide ReadField, ReadLiteral, ReadTexts, FieldToken, ValueToken, Lexical, NoBackslash, TextTokens;
    if c.op == In {
      var inner := [OPEN] + TextTokens(c.value.items, rest);
      var after := [IN] + inner;
      ReadsField(c.field, after);
      assert after[1..] == inner && inner[1..] == TextTokens(c.value.items, rest);
      ReadsTexts(c.value.items, c.field, rest);
    } else {
      var more := [ValueToken(c.value)] + rest;
      var after := [OpToken(c.op)] + more;
      ReadsField(c.field, after);
      assert after[1..] == more;
      ReadsLiteral(c.value, c.field, rest);
    }
  }

  lemma {:induction false} ReadsConditions(cs: seq<Condition>, rest: seq<Token>)
    requires cs != [] && AllWritable(cs) && !AtWord(rest, "AND")
    ensures ReadConditions(ConditionsTokens(cs, rest)) == Ok((cs, rest))
  {
    hide ReadCondition, ConditionTokens, Lexical, Writable, Typed;
    if |cs| == 1 {
      ReadsCondition(cs[0], rest);
      assert [cs[0]] == cs;
    } else {
      var more := [AND] + ConditionsTokens(cs[1..], rest);
      ReadsCondition(cs[0], more);
      assert more[1..] == ConditionsTokens(cs[1..], rest);
      ReadsConditions(cs[1..], rest);
      assert [cs[0]] + cs[1..] == cs;
    }
  }

  lemma {:induction false} ReadsOrders(os: seq<OrderBy>, rest: seq<Token>)
    requires os != [] && !AtText(rest, ",")
    ensures ReadOrders(OrderTokens(os, rest)) == Ok((os, rest))
  {
    hide ReadOrder, Lexical, FieldToken;
    if |os| == 1 {
      ReadsOrder(os[0], rest);
      assert [os[0]] == os;
    } else {
      var more := [COMMA] + OrderTokens(os[1..], rest);
      ReadsOrder(os[0], more);
      assert more[1..] == OrderTokens(os[1..], rest);
      ReadsOrders(os[1..], rest);
      assert [os[0]] + os[1..] == os;
    }
  }

  lemma ReadsOrder(o: OrderBy, rest: seq<Token>)
    ensures ReadOrder([FieldToken(o.field)] + ([if o.descending then DESC else ASC] + rest)) == Ok((o, rest))
  {
    hide ReadField, Lexical, FieldToken;
    var after := [if o.descending then DESC else ASC] + rest;
    ReadsField(o.field, after);
    assert after[1..] == rest;
    assert !SameText("ASC", "DESC");
  }

  lemma CountText(n: nat)
    ensures AllDigits(DecimalText(Decimal(n, 0))) && NatOf(DecimalText(Decimal(n, 0))) == n
  {
    var (whole, fraction) := Cut(Decimal(n, 0));
    assert fraction == "" && whole + fraction == whole;
    assert DecimalText(Decimal(n, 0)) == whole;
  }

  lemma ReadsLimit(limit: Option<nat>)
    ensures ReadLimit(LimitTokens(limit)) == Ok((limit, []))
  {
    hide Lexical, DecimalText;
    if limit.Some? {
      CountText(limit.value);
      var ts := LimitTokens(limit);
      assert ts[1..] == [ts[1]] && ts[1..][1..] == [];
    }
  }

  lemma ReadsOrderBy(os: seq<OrderBy>, rest: seq<Token>)
    requires !AtText(rest, ",") && !AtWord(rest, "ORDER")
    ensures ReadOrderBy(OrderByTokens(os, rest)) == Ok((os, rest))
  {
    hide ReadOrders, OrderTokens, Lexical;
    if os != [] {
      ReadsOrders(os, rest);
      var more := [BY] + OrderTokens(os, rest);
      assert ([ORDER] + more)[1..] == more && more[1..] == OrderTokens(os, rest);
    }
  }

  lemma ReadsWhere(cs: seq<Condition>, rest: seq<Token>)
    requires AllWritable(cs)
    requires !AtWord(rest, "AND") && !AtWord(rest, "WHERE") && (rest != [] ==> !SameText(rest[0].text, "OR"))
    ensures ReadWhere(WhereTokens(cs, rest)) == Ok((cs, rest))
  {
    hide ReadConditions, ConditionsTokens, Lexical, Writable, Typed;
    if cs != [] {
      ReadsConditions(cs, rest);
      assert ([WHERE] + ConditionsTokens(cs, rest))[1..] == ConditionsTokens(cs, rest);
    }
  }

  /** What comes after the conditions starts with neither AND, OR nor WHERE. */
  lemma ClausesAreApart(os: seq<OrderBy>, limit: Option<nat>)
    ensures var ts, us := LimitTokens(limit), OrderByTokens(os, LimitTokens(limit));
            && !AtText(ts, ",") && !AtWord(ts, "ORDER")
            && !AtWord(us, "AND") && !AtWord(us, "WHERE") && (us != [] ==> !SameText(us[0].text, "OR"))
  {
    hide OrderTokens, DecimalText, Lexical;
    assert LowerChar("ORDER"[0]) != LowerChar("WHERE"[0]);
    assert LowerChar("LIMIT"[0]) != LowerChar("WHERE"[0]) && LowerChar("LIMIT"[0]) != LowerChar("ORDER"[0]);
  }

  lemma ReadsClauses(q: Query)
    requires WritableQuery(q)
    ensures ReadClauses(q.fields, WhereTokens(q.where, OrderByTokens(q.orderBy, LimitTokens(q.limit)))) == Ok(q)
  {
    hide ReadWhere, ReadOrderBy, ReadLimit, WhereTokens, OrderByTokens, LimitTokens, Lexical, Writable, Typed;
    ClausesAreApart(q.orderBy, q.limit);
    ReadsLimit(q.limit);
    ReadsOrderBy(q.orderBy, LimitTokens(q.limit));
    ReadsWhere(q.where, OrderByTokens(q.orderBy, LimitTokens(q.limit)));
  }

  lemma ReadsQuery(q: Query)
    requires WritableQuery(q)
    ensures ReadQuery(QueryTokens(q)) == Ok(q)
  {
    hide ReadFields, FieldTokens, ReadClauses, WhereTokens, OrderByTokens, LimitTokens, Lexical, Writable, Typed;
    var clauses := WhereTokens(q.where, OrderByTokens(q.orderBy, LimitTokens(q.limit)));
    var from := [FROM] + ([OPPORTUNITY] + clauses);
    var fields := FieldTokens(q.fields, from);
    assert ([SELECT] + fields)[1..] == fields;
    ReadsFields(q.fields, from);
    assert from[1..] == [OPPORTUNITY] + clauses && from[1..][1..] == clauses;
    ReadsClauses(q);
  }

  // ---- every token stands ------------------------------------------------------------------

  ghost predicate AllStand(ts: seq<Token>) {
    forall t :: t in ts ==> Stands(t)
  }

  lemma KeywordsStand()
    ensures Stands(SELECT) && Stands(FROM) && Stands(OPPORTUNITY) && Stands(WHERE) && Stands(AND) && Stands(IN)
    ensures Stands(ORDER) && Stands(BY) && Stands(ASC) && Stands(DESC) && Stands(LIMIT)
    ensures Stands(COMMA) && Stands(OPEN) && Stands(CLOSE)
  {
    hide Stands, Lexical;
    WordStands("SELECT");
    WordStands("FROM");
    WordStands("Opportunity");
    WordStands("WHERE");
    WordStands("AND");
    WordStands("IN");
    WordStands("ORDER");
    WordStands("BY");
    WordStands("ASC");
    WordStands("DESC");
    WordStands("LIMIT");
    PunctStands(",");
    PunctStands("(");
    PunctStands(")");
  }

  lemma {:induction false} FieldsStand(fs: seq<Field>, rest: seq<Token>)
    requires fs != [] && AllStand(rest)
    ensures AllStand(FieldTokens(fs, rest))
  {
    hide Stands, Lexical, NameOf, IsWord;
    KeywordsStand();
    WordStands(NameOf(fs[0]));
    if |fs| > 1 {
      FieldsStand(fs[1..], rest);
    }
  }

  lemma {:induction false} TextsStand(items: seq<string>, rest: seq<Token>)
    requires items != [] && (forall s :: s in items ==> NoBackslash(s)) && AllStand(rest)
    ensures AllStand(TextTokens(items, rest))
  {
    hide Stands, Lexical, Quote, NoBackslash;
    KeywordsStand();
    QuotedStands(items[0]);
    if |items| > 1 {
      TextsStand(items[1..], rest);
    }
  }

  lemma ConditionStands(c: Condition, rest: seq<Token>)
    requires Typed(c) && Writable(c.value) && AllStand(rest)
    ensures AllStand(ConditionTokens(c, rest))
  {
    hide Stands, Lexical, NameOf, IsWord, NoBackslash, TextTokens, ValueToken;
    KeywordsStand();
    WordStands(NameOf(c.field));
    if c.op == In {
      TextsStand(c.value.items, rest);
    } else {
      OpStands(TextOfOp(c.op));
      ValueStands(c.value);
    }
  }

  lemma {:induction false} ConditionsStand(cs: seq<Condition>, rest: seq<Token>)
    requires cs != [] && AllWritable(cs) && AllStand(rest)
    ensures AllStand(ConditionsTokens(cs, rest))
  {
    hide Stands, Lexical, ConditionTokens, Typed, Writable;
    KeywordsStand();
    if |cs| == 1 {
      ConditionStands(cs[0], rest);
    } else {
      ConditionsStand(cs[1..], rest);
      ConditionStands(cs[0], [AND] + ConditionsTokens(cs[1..], rest));
    }
  }

  lemma {:induction false} OrdersStand(os: seq<OrderBy>, rest: seq<Token>)
    requires os != [] && AllStand(rest)
    ensures AllStand(OrderTokens(os, rest))
  {
    hide Stands, Lexical, NameOf, IsWord;
    KeywordsStand();
    WordStands(NameOf(os[0].field));
    if |os| > 1 {
      OrdersStand(os[1..], rest);
    }
  }

  lemma ClausesStand(q: Query)
    requires WritableQuery(q)
    ensures AllStand(WhereTokens(q.where, OrderByTokens(q.orderBy, LimitTokens(q.limit))))
  {
    hide Stands, Lexical, OrderTokens, ConditionsTokens, Typed, Writable, DecimalText;
    KeywordsStand();
    if q.limit.Some? {
      NumberStands(Decimal(q.limit.value, 0));
    }
    if q.orderBy != [] {
      OrdersStand(q.orderBy, LimitTokens(q.limit));
    }
    if q.where != [] {
      ConditionsStand(q.where, OrderByTokens(q.orderBy, LimitTokens(q.limit)));
    }
  }

  lemma QueryStands(q: Query)
    requires WritableQuery(q)
    ensures AllStand(QueryTokens(q))
  {
    hide Stands, Lexical, FieldTokens, WhereTokens, Typed, Writable;
    KeywordsStand();
    ClausesStand(q);
    FieldsStand(q.fields, [FROM] + ([OPPORTUNITY] + WhereTokens(q.where, OrderByTokens(q.orderBy, LimitTokens(q.limit)))));
  }

  /** Writing a query and reading the text gives the query back. */
  lemma WrittenMeansTheQuery(q: Query)
    requires WritableQuery(q)
    ensures Meant(Written(q)) == Ok(q)
  {
    hide Stands, Lexical, QueryTokens, ReadQuery, Typed, Writable;
    QueryStands(q);
    RenderedTokens(true, QueryTokens(q));
    ReadsQuery(q);
  }
}
