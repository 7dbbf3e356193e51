/** The grammar of the SOQL subset as a relation, and that the reader accepts exactly what it spells. */
module Grammar {
  import opened Prelude
  import opened Calendar
  import opened Decimals
  import opened Lexer
  import opened Soql

  // ---- the grammar -------------------------------------------------------------------------

  /** A keyword, in any case. */
  predicate Word(t: Token, word: string) {
    t.kind == Ident && SameText(t.text, word)
  }

  predicate StartsWith(ts: seq<Token>, word: string) {
    ts != [] && Word(ts[0], word)
  }

  predicate StartsWithComma(ts: seq<Token>) {
    ts != [] && ts[0].text == ","
  }

  /** A field's name, in any case. */
  predicate Names(t: Token, f: Field) {
    t.kind == Ident && SameText(t.text, NameOf(f))
  }

  /** The token is this value of this field's type. */
  predicate Denotes(t: Token, f: Field, v: Value) {
    match v
    case Null => Word(t, "NULL")
    case Text(s) => TypeOf(f) == TextType && t.kind == Quoted && s == Unescape(t.text[1..|t.text| - 1])
    case At(x) => TypeOf(f) == InstantType && t.kind == Instant && ParseInstant(t.text) == Some(x)
    case On(day) => TypeOf(f) == DateType && t.kind == Day && ParseDate(t.text) == Some(day)
    case Flag(b) => TypeOf(f) == BooleanType && Word(t, if b then "TRUE" else "FALSE")
    case Num(d) => TypeOf(f) == NumberType && t.kind == Number && d == ParseDecimal(t.text)
    case Texts(_) => false
  }

  predicate Operator(text: string, op: Op) {
    match op
    case Eq => text == "="
    case Ne => text == "!=" || text == "<>"
    case Lt => text == "<"
    case Le => text == "<="
    case Gt => text == ">"
    case Ge => text == ">="
    case In => false
  }

  /** Each of these says that `ts` spells its first argument and goes on with `rest`. */
  predicate SpellsFields(fs: seq<Field>, ts: seq<Token>, rest: seq<Token>)
    decreases fs
  {
    && fs != [] && ts != [] && Names(ts[0], fs[0])
    && if |fs| == 1 then ts[1..] == rest else StartsWithComma(ts[1..]) && SpellsFields(fs[1..], ts[2..], rest)
  }

  predicate SpellsTexts(items: seq<string>, f: Field, ts: seq<Token>, rest: seq<Token>)
    decreases items
  {
    && items != [] && |ts| > 1 && Denotes(ts[0], f, Text(items[0]))
    && if |items| == 1 then ts[1].text == ")" && ts[2..] == rest else ts[1].text == "," && SpellsTexts(items[1..], f, ts[2..], rest)
  }

  predicate SpellsCondition(c: Condition, ts: seq<Token>, rest: seq<Token>) {
    && |ts| > 2 && Names(ts[0], c.field)
    && if c.op == In then
         Word(ts[1], "IN") && ts[2].text == "(" && c.value.Texts? && SpellsTexts(c.value.items, c.field, ts[3..], rest)
       else ts[1].kind == Kind.Op && Operator(ts[1].text, c.op) && Denotes(ts[2], c.field, c.value) && ts[3..] == rest
  }

  ghost predicate SpellsConditions(cs: seq<Condition>, ts: seq<Token>, rest: seq<Token>)
    decreases cs
  {
    && cs != []
    && if |cs| == 1 then SpellsCondition(cs[0], ts, rest)
       else exists mid: seq<Token> :: SpellsCondition(cs[0], ts, mid) && StartsWith(mid, "AND") && SpellsConditions(cs[1..], mid[1..], rest)
  }

  /** A sort key is ascending when it says so, and also when it says nothing. */
  predicate SpellsOrder(o: OrderBy, ts: seq<Token>, rest: seq<Token>) {
    && ts != [] && Names(ts[0], o.field)
    && if o.descending then StartsWith(ts[1..], "DESC") && ts[2..] == rest
       else (StartsWith(ts[1..], "ASC") && ts[2..] == rest) || ts[1..] == rest
  }

  ghost predicate SpellsOrders(os: seq<OrderBy>, ts: seq<Token>, rest: seq<Token>)
    decreases os
  {
    && os != []
    && if |os| == 1 then SpellsOrder(os[0], ts, rest)
       else exists mid: seq<Token> :: SpellsOrder(os[0], ts, mid) && StartsWithComma(mid) && SpellsOrders(os[1..], mid[1..], rest)
  }

  ghost predicate SpellsWhere(cs: seq<Condition>, ts: seq<Token>, rest: seq<Token>) {
    if cs == [] then ts == rest else StartsWith(ts, "WHERE") && SpellsConditions(cs, ts[1..], rest)
  }

  ghost predicate SpellsOrderBy(os: seq<OrderBy>, ts: seq<Token>, rest: seq<Token>) {
    if os == [] then ts == rest
    else StartsWith(ts, "ORDER") && StartsWith(ts[1..], "BY") && SpellsOrders(os, ts[2..], rest)
  }

  /** A limit is a whole number, and nothing follows it. */
  predicate SpellsLimit(limit: Option<nat>, ts: seq<Token>) {
    if limit.None? then ts == []
    else |ts| == 2 && Word(ts[0], "LIMIT") && ts[1].kind == Number && AllDigits(ts[1].text) && NatOf(ts[1].text) == limit.value
  }

  ghost predicate SpellsClauses(q: Query, ts: seq<Token>) {
    exists ts1: seq<Token>, ts2: seq<Token> :: SpellsWhere(q.where, ts, ts1) && SpellsOrderBy(q.orderBy, ts1, ts2) && SpellsLimit(q.limit, ts2)
  }

  /** The tokens are this query. */
  ghost predicate Spells(q: Query, ts: seq<Token>) {
    && StartsWith(ts, "SELECT")
    && exists from: seq<Token> :: && SpellsFields(q.fields, ts[1..], from)
                      && |from| > 1 && Word(from[0], "FROM") && SameText(from[1].text, "Opportunity")
                      && SpellsClauses(q, from[2..])
  }

  // ---- words ----------------------------------------------------------------------------------

  /** A word that is one keyword is no other. */
  lemma OtherWord(t: Token, a: string, b: string)
    requires Word(t, a) && (|a| != |b| || exists i :: 0 <= i < |a| && LowerChar(a[i]) != LowerChar(b[i]))
    ensures !Word(t, b)
  {
  }

  lemma {:induction false} FindIsNamed(text: string, among: seq<Field>)
    ensures Find(text, among).Some? ==> Find(text, among).value in among && SameText(text, NameOf(Find(text, among).value))
    ensures forall f :: f in among && SameText(text, NameOf(f)) ==> Find(text, among).Some?
  {
    hide NameOf;
    if among != [] && !SameText(text, NameOf(among[0])) {
      FindIsNamed(text, among[1..]);
    }
  }

  /** No two fields share a name. */
  lemma OneFieldPerName(text: string, f: Field, g: Field)
    requires SameText(text, NameOf(f)) && SameText(text, NameOf(g))
    ensures f == g
  {
    assert LowerChar(text[0]) == LowerChar(NameOf(f)[0]) == LowerChar(NameOf(g)[0]);
  }

  lemma EveryFieldIsListed(f: Field)
    ensures f in FIELDS
  {
    match f
    case Id => assert FIELDS[0] == f;
    case Name => assert FIELDS[1] == f;
    case AccountId => assert FIELDS[2] == f;
    case Amount => assert FIELDS[3] == f;
    case CloseDate => assert FIELDS[4] == f;
    case StageName => assert FIELDS[5] == f;
    case IsWon => assert FIELDS[6] == f;
    case IsClosed => assert FIELDS[7] == f;
    case SystemModstamp => assert FIELDS[8] == f;
    case LastModifiedDate => assert FIELDS[9] == f;
    case CreatedDate => assert FIELDS[10] == f;
    case AccountDotId => assert FIELDS[11] == f;
    case AccountDotName => assert FIELDS[12] == f;
  }

  /** A text names a field exactly when it is the field's name, in any case. */
  lemma LookupExactly(text: string, f: Field)
    ensures Lookup(text) == Some(f) <==> SameText(text, NameOf(f))
  {
    hide NameOf, Find, SameText;
    FindIsNamed(text, FIELDS);
    EveryFieldIsListed(f);
    if SameText(text, NameOf(f)) {
      OneFieldPerName(text, Find(text, FIELDS).value, f);
    }
  }

  // ---- pieces -------------------------------------------------------------------------------------

  lemma FieldExactly(ts: seq<Token>, f: Field, rest: seq<Token>)
    ensures ReadField(ts) == Ok((f, rest)) <==> ts != [] && Names(ts[0], f) && ts[1..] == rest
  {
    hide Find, NameOf, SameText;
    if ts != [] {
      LookupExactly(ts[0].text, f);
    }
  }

  /** Which error a field gives. */
  lemma FieldErrors(ts: seq<Token>)
    requires ReadField(ts).Err?
    ensures ReadField(ts).error == INVALID_FIELD <==>
              ts != [] && ts[0].kind == Ident && forall f: Field :: !SameText(ts[0].text, NameOf(f))
    ensures ReadField(ts).error == MALFORMED <==> ts == [] || ts[0].kind != Ident
  {
    hide Find, NameOf, SameText;
    if ts != [] {
      forall f: Field ensures Lookup(ts[0].text) == Some(f) <==> SameText(ts[0].text, NameOf(f)) {
        LookupExactly(ts[0].text, f);
      }
    }
  }

  lemma NullIsNoFlag(t: Token)
    requires Word(t, "NULL")
    ensures !Word(t, "TRUE") && !Word(t, "FALSE")
  {
    assert LowerChar("NULL"[0]) != LowerChar("TRUE"[0]);
  }

  lemma TrueIsNotFalse(t: Token)
    requires Word(t, "TRUE")
    ensures !Word(t, "FALSE")
  {
  }

  lemma MeaningExactly(t: Token, f: Field, v: Value)
    ensures Meaning(t, f) == Ok(v) <==> Denotes(t, f, v)
  {
    hide SameText, ParseInstant, ParseDate, ParseDecimal, Unescape, InstantLength, DateShape, NumberLength;
    if Word(t, "NULL") {
      NullIsNoFlag(t);
    }
    if Word(t, "TRUE") {
      TrueIsNotFalse(t);
    }
  }

  /** Which error a value gives: a value of the wrong kind is an invalid field, save that a text field asks for quotes,
    * and a date or time that no calendar has is not a query error at all. */
  lemma MeaningErrors(t: Token, f: Field)
    requires Meaning(t, f).Err?
    ensures Meaning(t, f).error == MALFORMED <==> TypeOf(f) == TextType
    ensures Meaning(t, f).error == ValueError <==>
              (TypeOf(f) == InstantType && t.kind == Instant) || (TypeOf(f) == DateType && t.kind == Day)
    ensures Meaning(t, f).error in {MALFORMED, INVALID_FIELD, ValueError}
  {
  }

  lemma LiteralExactly(ts: seq<Token>, f: Field, v: Value, rest: seq<Token>)
    ensures ReadLiteral(ts, f) == Ok((v, rest)) <==> ts != [] && Denotes(ts[0], f, v) && ts[1..] == rest
  {
    hide Meaning, Denotes;
    if ts != [] {
      MeaningExactly(ts[0], f, v);
    }
  }

  lemma OperatorExactly(t: Token, op: Op)
    requires t.kind == Kind.Op
    ensures OpOf(t.text) == op <==> Operator(t.text, op)
  {
    var s := t.text;
    assert s == s[..|s|];
    if |s| == 1 {
      assert s == [s[0]];
    } else {
      assert s[..2] == s;
    }
  }

  lemma {:induction false} TextsRead(ts: seq<Token>, f: Field, items: seq<string>, rest: seq<Token>)
    requires SpellsTexts(items, f, ts, rest)
    ensures ReadTexts(ts, f) == Ok((items, rest))
    decreases |ts|
  {
    hide ReadLiteral, Denotes, HasType, Lexical;
    LiteralExactly(ts, f, Text(items[0]), ts[1..]);
    assert ts[1..][1..] == ts[2..] && ts[1..][0] == ts[1];
    if |items| == 1 {
      assert items == [items[0]];
    } else {
      TextsRead(ts[2..], f, items[1..], rest);
      assert items == [items[0]] + items[1..];
    }
  }

  lemma {:induction false} TextsSpelled(ts: seq<Token>, f: Field)
    requires ReadTexts(ts, f).Ok?
    ensures SpellsTexts(ReadTexts(ts, f).value.0, f, ts, ReadTexts(ts, f).value.1)
    decreases |ts|
  {
    hide ReadLiteral, Denotes, HasType, Lexical;
    var (v, after) := ReadLiteral(ts, f).value;
    LiteralExactly(ts, f, v, after);
    assert ts[1..] == after && after[1..] == ts[2..] && after[0] == ts[1];
    if after[0].text != ")" {
      TextsSpelled(ts[2..], f);
      var items := ReadTexts(ts[2..], f).value.0;
      assert ([v.s] + items)[1..] == items;
    }
  }

  lemma ConditionRead(c: Condition, ts: seq<Token>, rest: seq<Token>)
    requires SpellsCondition(c, ts, rest)
    ensures ReadCondition(ts) == Ok((c, rest))
  {
    hide ReadField, ReadLiteral, ReadTexts, Denotes, HasType, Lexical, SameText, NameOf, Names, SpellsTexts, Operator, OpOf;
    FieldExactly(ts, c.field, ts[1..]);
    assert ts[1..][1..] == ts[2..] && ts[1..][0] == ts[1] && ts[2..][0] == ts[2] && ts[2..][1..] == ts[3..];
    if c.op == In {
      TextsRead(ts[3..], c.field, c.value.items, rest);
    } else {
      OperatorExactly(ts[1], c.op);
      LiteralExactly(ts[2..], c.field, c.value, rest);
    }
  }

  lemma ConditionSpelled(ts: seq<Token>)
    requires ReadCondition(ts).Ok?
    ensures SpellsCondition(ReadCondition(ts).value.0, ts, ReadCondition(ts).value.1)
  {
    hide ReadField, ReadLiteral, ReadTexts, Denotes, HasType, Lexical, SameText, NameOf, Names, SpellsTexts, Operator, OpOf;
    var (f, after) := ReadField(ts).value;
    FieldExactly(ts, f, after);
    if AtWord(after, "IN") {
      assert after[1..][1..] == ts[3..] && after[1..][0] == ts[2];
      TextsSpelled(ts[3..], f);
    } else {
      var op := OpOf(after[0].text);
      OperatorExactly(after[0], op);
      assert Operator(ts[1].text, op);
      NoOperatorIsIn(ts[1].text);
      var more := after[1..];
      assert more == ts[2..];
      LiteralExactly(more, f, ReadLiteral(more, f).value.0, ReadLiteral(more, f).value.1);
      assert more[1..] == ts[3..];
    }
  }

  lemma NoOperatorIsIn(text: string)
    ensures !Operator(text, In)
  {
  }

  // ---- lists ----------------------------------------------------------------------------------------

  lemma {:induction false} FieldsRead(fs: seq<Field>, ts: seq<Token>, rest: seq<Token>)
    requires SpellsFields(fs, ts, rest) && !StartsWithComma(rest)
    ensures ReadFields(ts) == Ok((fs, rest))
    decreases |ts|
  {
    hide ReadField, Lexical, SameText, NameOf, Names;
    FieldExactly(ts, fs[0], ts[1..]);
    if |fs| == 1 {
      assert fs == [fs[0]];
    } else {
      assert ts[1..][1..] == ts[2..];
      FieldsRead(fs[1..], ts[2..], rest);
      assert fs == [fs[0]] + fs[1..];
    }
  }

  lemma {:induction false} FieldsSpelled(ts: seq<Token>)
    requires ReadFields(ts).Ok?
    ensures var (fs, rest) := ReadFields(ts).value; SpellsFields(fs, ts, rest) && !StartsWithComma(rest)
    decreases |ts|
  {
    hide ReadField, Lexical, SameText, NameOf, Names;
    var (f, after) := ReadField(ts).value;
    FieldExactly(ts, f, after);
    if AtText(after, ",") {
      assert after[1..] == ts[2..];
      FieldsSpelled(ts[2..]);
      var fs := ReadFields(ts[2..]).value.0;
      assert ([f] + fs)[1..] == fs;
    }
  }

  lemma {:induction false} ConditionsRead(cs: seq<Condition>, ts: seq<Token>, rest: seq<Token>)
    requires SpellsConditions(cs, ts, rest) && !StartsWith(rest, "AND")
    ensures ReadConditions(ts) == Ok((cs, rest))
    decreases cs
  {
    hide ReadCondition, SpellsCondition, Lexical, SameText, Typed;
    if |cs| == 1 {
      ConditionRead(cs[0], ts, rest);
      assert cs == [cs[0]];
    } else {
      var mid: seq<Token> :| SpellsCondition(cs[0], ts, mid) && StartsWith(mid, "AND") && SpellsConditions(cs[1..], mid[1..], rest);
      ConditionRead(cs[0], ts, mid);
      ConditionsRead(cs[1..], mid[1..], rest);
      assert cs == [cs[0]] + cs[1..];
    }
  }

  lemma {:induction false} ConditionsSpelled(ts: seq<Token>)
    requires ReadConditions(ts).Ok?
    ensures var (cs, rest) := ReadConditions(ts).value; SpellsConditions(cs, ts, rest) && !StartsWith(rest, "AND")
    decreases |ts|
  {
    hide ReadCondition, SpellsCondition, Lexical, SameText, Typed;
    var (c, after) := ReadCondition(ts).value;
    ConditionSpelled(ts);
    if AtWord(after, "AND") {
      ConditionsSpelled(after[1..]);
      var cs := ReadConditions(after[1..]).value.0;
      assert ([c] + cs)[1..] == cs;
      assert SpellsCondition(([c] + cs)[0], ts, after);
    }
  }

  /** What may follow a sort key that does not say its direction. */
  predicate SaysNoDirection(ts: seq<Token>) {
    !StartsWith(ts, "ASC") && !StartsWith(ts, "DESC")
  }

  lemma CommaSaysNoDirection(ts: seq<Token>)
    requires StartsWithComma(ts)
    ensures SaysNoDirection(ts)
  {
  }

  lemma AscIsNotDesc(ts: seq<Token>)
    ensures StartsWith(ts, "ASC") ==> !StartsWith(ts, "DESC")
  {
  }

  lemma OrderRead(o: OrderBy, ts: seq<Token>, rest: seq<Token>)
    requires SpellsOrder(o, ts, rest) && SaysNoDirection(rest)
    ensures ReadOrder(ts) == Ok((o, rest))
  {
    hide ReadField, Lexical, SameText, NameOf, Names;
    FieldExactly(ts, o.field, ts[1..]);
    AscIsNotDesc(ts[1..]);
    if |ts| > 1 {
      assert ts[1..][1..] == ts[2..];
    }
  }

  lemma OrderSpelled(ts: seq<Token>)
    requires ReadOrder(ts).Ok?
    ensures SpellsOrder(ReadOrder(ts).value.0, ts, ReadOrder(ts).value.1)
  {
    hide ReadField, Lexical, SameText, NameOf, Names;
    var (f, after) := ReadField(ts).value;
    FieldExactly(ts, f, after);
    if after != [] {
      assert after[1..] == ts[2..];
    }
  }

  lemma {:induction false} OrdersRead(os: seq<OrderBy>, ts: seq<Token>, rest: seq<Token>)
    requires SpellsOrders(os, ts, rest) && !StartsWithComma(rest) && SaysNoDirection(rest)
    ensures ReadOrders(ts) == Ok((os, rest))
    decreases os
  {
    hide ReadOrder, SpellsOrder, Lexical, SameText, SaysNoDirection;
    if |os| == 1 {
      OrderRead(os[0], ts, rest);
      assert os == [os[0]];
    } else {
      var mid: seq<Token> :| SpellsOrder(os[0], ts, mid) && StartsWithComma(mid) && SpellsOrders(os[1..], mid[1..], rest);
      CommaSaysNoDirection(mid);
      OrderRead(os[0], ts, mid);
      OrdersRead(os[1..], mid[1..], rest);
      assert os == [os[0]] + os[1..];
    }
  }

  lemma {:induction false} OrdersSpelled(ts: seq<Token>)
    requires ReadOrders(ts).Ok?
    ensures var (os, rest) := ReadOrders(ts).value; SpellsOrders(os, ts, rest)
    decreases |ts|
  {
    hide ReadOrder, SpellsOrder, Lexical, SameText;
    var (o, after) := ReadOrder(ts).value;
    OrderSpelled(ts);
    if AtText(after, ",") {
      OrdersSpelled(after[1..]);
      var os := ReadOrders(after[1..]).value.0;
      assert ([o] + os)[1..] == os;
      assert SpellsOrder(([o] + os)[0], ts, after);
    }
  }

  // ---- clauses -----------------------------------------------------------------------------------------

  lemma LimitExactly(limit: Option<nat>, ts: seq<Token>)
    ensures ReadLimit(ts) == Ok((limit, [])) <==> SpellsLimit(limit, ts)
  {
    hide Lexical, SameText;
    if |ts| > 1 {
      assert ts[1..][0] == ts[1] && ts[1..][1..] == ts[2..];
      assert |ts| == 2 <==> ts[2..] == [];
    }
  }

  lemma LimitBegins(limit: Option<nat>, ts: seq<Token>)
    requires SpellsLimit(limit, ts)
    ensures ts == [] || Word(ts[0], "LIMIT")
  {
  }

  lemma OrderByBegins(os: seq<OrderBy>, limit: Option<nat>, ts: seq<Token>, rest: seq<Token>)
    requires SpellsOrderBy(os, ts, rest) && SpellsLimit(limit, rest)
    ensures ts == [] || Word(ts[0], "LIMIT") || Word(ts[0], "ORDER")
  {
    LimitBegins(limit, rest);
  }

  /** A limit's word ends a sort key, a list of conditions, and the clauses before it. */
  lemma AfterLimitWord(ts: seq<Token>)
    requires ts == [] || Word(ts[0], "LIMIT")
    ensures !StartsWithComma(ts) && SaysNoDirection(ts) && !StartsWith(ts, "ORDER")
  {
    assert LowerChar("LIMIT"[0]) != LowerChar("ORDER"[0]);
  }

  lemma AfterClauseWord(ts: seq<Token>)
    requires ts == [] || Word(ts[0], "LIMIT") || Word(ts[0], "ORDER")
    ensures !StartsWith(ts, "AND") && !StartsWith(ts, "WHERE") && (ts != [] ==> !SameText(ts[0].text, "OR"))
  {
    assert LowerChar("LIMIT"[0]) != LowerChar("WHERE"[0]) && LowerChar("ORDER"[0]) != LowerChar("WHERE"[0]);
  }

  lemma OrderByRead(os: seq<OrderBy>, limit: Option<nat>, ts: seq<Token>, rest: seq<Token>)
    requires SpellsOrderBy(os, ts, rest) && SpellsLimit(limit, rest)
    ensures ReadOrderBy(ts) == Ok((os, rest))
  {
    hide ReadOrders, SpellsOrders, Lexical, SameText, SpellsLimit, SaysNoDirection;
    LimitBegins(limit, rest);
    AfterLimitWord(rest);
    if os != [] {
      OrdersRead(os, ts[2..], rest);
      assert ts[1..][1..] == ts[2..];
    }
  }

  lemma WhereRead(cs: seq<Condition>, ts: seq<Token>, rest: seq<Token>)
    requires SpellsWhere(cs, ts, rest) && (rest == [] || Word(rest[0], "LIMIT") || Word(rest[0], "ORDER"))
    ensures ReadWhere(ts) == Ok((cs, rest))
  {
    hide ReadConditions, SpellsConditions, Lexical, SameText;
    AfterClauseWord(rest);
    if cs != [] {
      ConditionsRead(cs, ts[1..], rest);
    }
  }

  lemma ClausesRead(q: Query, ts: seq<Token>)
    requires SpellsClauses(q, ts)
    ensures ReadClauses(q.fields, ts) == Ok(q)
  {
    hide ReadWhere, ReadOrderBy, ReadLimit, SpellsWhere, SpellsOrderBy, SpellsLimit, Lexical, SameText, Typed;
    var ts1: seq<Token>, ts2: seq<Token> :| SpellsWhere(q.where, ts, ts1) && SpellsOrderBy(q.orderBy, ts1, ts2) && SpellsLimit(q.limit, ts2);
    OrderByBegins(q.orderBy, q.limit, ts1, ts2);
    WhereRead(q.where, ts, ts1);
    OrderByRead(q.orderBy, q.limit, ts1, ts2);
    LimitExactly(q.limit, ts2);
  }

  lemma WhereSpelled(ts: seq<Token>)
    requires ReadWhere(ts).Ok?
    ensures SpellsWhere(ReadWhere(ts).value.0, ts, ReadWhere(ts).value.1)
  {
    hide ReadConditions, SpellsConditions, Lexical, SameText, Typed;
    if AtWord(ts, "WHERE") {
      ConditionsSpelled(ts[1..]);
      SomeConditions(ReadConditions(ts[1..]).value.0, ts[1..], ReadConditions(ts[1..]).value.1);
    }
  }

  lemma SomeConditions(cs: seq<Condition>, ts: seq<Token>, rest: seq<Token>)
    requires SpellsConditions(cs, ts, rest)
    ensures cs != []
  {
  }

  lemma OrderBySpelled(ts: seq<Token>)
    requires ReadOrderBy(ts).Ok?
    ensures SpellsOrderBy(ReadOrderBy(ts).value.0, ts, ReadOrderBy(ts).value.1)
  {
    hide ReadOrders, SpellsOrders, Lexical, SameText;
    if AtWord(ts, "ORDER") {
      assert ts[1..][1..] == ts[2..];
      OrdersSpelled(ts[2..]);
      SomeOrders(ReadOrders(ts[2..]).value.0, ts[2..], ReadOrders(ts[2..]).value.1);
    }
  }

  lemma SomeOrders(os: seq<OrderBy>, ts: seq<Token>, rest: seq<Token>)
    requires SpellsOrders(os, ts, rest)
    ensures os != []
  {
  }

  lemma ClausesSpelled(fields: seq<Field>, ts: seq<Token>)
    requires ReadClauses(fields, ts).Ok?
    ensures SpellsClauses(ReadClauses(fields, ts).value, ts) && ReadClauses(fields, ts).value.fields == fields
  {
    hide ReadWhere, ReadOrderBy, ReadLimit, SpellsWhere, SpellsOrderBy, SpellsLimit, Lexical, SameText, Typed;
    var (where, ts1) := ReadWhere(ts).value;
    var (orderBy, ts2) := ReadOrderBy(ts1).value;
    var limit := ReadLimit(ts2).value.0;
    WhereSpelled(ts);
    OrderBySpelled(ts1);
    LimitExactly(limit, ts2);
  }

  // ---- the whole query ----------------------------------------------------------------------------------

  /** The reader accepts a list of tokens as a query exactly when the grammar spells that query with them: keywords and
    * field names in any case, both signs for unequal, ascending as the default, no OR, and nothing left over. */
  lemma ReadsExactly(ts: seq<Token>, q: Query)
    ensures ReadQuery(ts) == Ok(q) <==> Spells(q, ts)
  {
    hide ReadFields, ReadClauses, SpellsFields, SpellsClauses, Lexical, SameText;
    if Spells(q, ts) {
      var from: seq<Token> :| && SpellsFields(q.fields, ts[1..], from)
                              && |from| > 1 && Word(from[0], "FROM") && SameText(from[1].text, "Opportunity")
                              && SpellsClauses(q, from[2..]);
      FromIsNoComma(from);
      FieldsRead(q.fields, ts[1..], from);
      assert from[1..][0] == from[1] && from[1..][1..] == from[2..];
      ClausesRead(q, from[2..]);
    }
    if ReadQuery(ts) == Ok(q) {
      FieldsSpelled(ts[1..]);
      var (fields, from) := ReadFields(ts[1..]).value;
      assert from[1..][0] == from[1] && from[1..][1..] == from[2..];
      ClausesSpelled(fields, from[2..]);
    }
  }

  lemma FromIsNoComma(ts: seq<Token>)
    requires StartsWith(ts, "FROM")
    ensures !StartsWithComma(ts)
  {
  }

  /** So a text means a query exactly when its tokens spell it. */
  lemma MeansExactly(soql: string, q: Query)
    ensures Meant(soql) == Ok(q) <==> Tokens(soql).Ok? && Spells(q, Tokens(soql).value)
  {
    hide ReadQuery, Spells, Tokens;
    if Tokens(soql).Ok? {
      ReadsExactly(Tokens(soql).value, q);
    }
  }

  // ---- errors ---------------------------------------------------------------------------------------------

  /** A query over another table is an invalid type, whatever follows. */
  lemma OtherTable(ts: seq<Token>, fs: seq<Field>, from: seq<Token>)
    requires StartsWith(ts, "SELECT") && SpellsFields(fs, ts[1..], from)
    requires |from| > 1 && Word(from[0], "FROM") && !SameText(from[1].text, "Opportunity")
    ensures ReadQuery(ts) == Err(INVALID_TYPE)
  {
    hide ReadFields, ReadClauses, SpellsFields, Lexical, SameText;
    FromIsNoComma(from);
    FieldsRead(fs, ts[1..], from);
    assert from[1..][0] == from[1];
  }

  /** A column nobody knows is an invalid field, whatever follows. */
  lemma UnknownColumn(ts: seq<Token>)
    requires StartsWith(ts, "SELECT") && |ts| > 1 && ts[1].kind == Ident && forall f: Field :: !SameText(ts[1].text, NameOf(f))
    ensures ReadQuery(ts) == Err(INVALID_FIELD)
  {
    hide Lexical, SameText, NameOf, Find;
    assert ts[1..][0] == ts[1];
    if ReadField(ts[1..]).Ok? {
      LookupExactly(ts[1].text, ReadField(ts[1..]).value.0);
    } else {
      FieldErrors(ts[1..]);
    }
  }

  /** The strictness the engine is there for: a condition that compares any field but a text with a quoted text is an
    * invalid field, whatever follows. */
  lemma QuotedIsInvalid(ts: seq<Token>, fs: seq<Field>, from: seq<Token>, f: Field)
    requires StartsWith(ts, "SELECT") && SpellsFields(fs, ts[1..], from)
    requires |from| > 5 && Word(from[0], "FROM") && SameText(from[1].text, "Opportunity") && Word(from[2], "WHERE")
    requires Names(from[3], f) && TypeOf(f) != TextType && from[4].kind == Kind.Op && from[5].kind == Quoted
    ensures ReadQuery(ts) == Err(INVALID_FIELD)
  {
    hide ReadFields, SpellsFields, Lexical, SameText, NameOf, Names, ReadField;
    FromIsNoComma(from);
    FieldsRead(fs, ts[1..], from);
    assert from[1..][0] == from[1] && from[1..][1..] == from[2..] && from[2..][0] == from[2] && from[2..][1..] == from[3..];
    QuotedConditionIsInvalid(from[3..], f);
  }

  lemma QuotedConditionIsInvalid(ts: seq<Token>, f: Field)
    requires |ts| > 2 && Names(ts[0], f) && TypeOf(f) != TextType && ts[1].kind == Kind.Op && ts[2].kind == Quoted
    ensures ReadCondition(ts) == Err(INVALID_FIELD) && ReadConditions(ts) == Err(INVALID_FIELD)
  {
    hide Lexical, SameText, NameOf, Names, ReadField, ParseInstant, ParseDate, ParseDecimal, Unescape;
    FieldExactly(ts, f, ts[1..]);
    assert ts[1..][0] == ts[1] && ts[1..][1..] == ts[2..] && ts[2..][0] == ts[2];
    assert Meaning(ts[2], f) == Err(INVALID_FIELD);
  }
}
