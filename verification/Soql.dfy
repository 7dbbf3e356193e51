/** The typed SOQL subset: a query over Opportunity as a value, and the reader of its tokens. */
module Soql {
  import opened Prelude
  import opened Calendar
  import opened Decimals
  import opened Lexer

  // ---- queries -------------------------------------------------------------------------

  datatype Field =
    | Id | Name | AccountId | Amount | CloseDate | StageName | IsWon | IsClosed
    | SystemModstamp | LastModifiedDate | CreatedDate | AccountDotId | AccountDotName

  /** A whole identifier. */
  predicate IsWord(s: string) {
    s != "" && StartsWord(s[0]) && forall i :: 0 <= i < |s| ==> InWord(s[i])
  }

  datatype FieldType = TextType | NumberType | DateType | BooleanType | InstantType

  function NameOf(f: Field): (name: string)
    ensures IsWord(name)
  {
    match f
    case Id => "Id"
    case Name => "Name"
    case AccountId => "AccountId"
    case Amount => "Amount"
    case CloseDate => "CloseDate"
    case StageName => "StageName"
    case AccountDotId => "Account.Id"
    case AccountDotName => "Account.Name"
    case _ => NameOfFlagOrInstant(f)
  }

  function NameOfFlagOrInstant(f: Field): (name: string)
    requires f in {IsWon, IsClosed, SystemModstamp, LastModifiedDate, CreatedDate}
    ensures IsWord(name)
  {
    match f
    case IsWon => "IsWon"
    case IsClosed => "IsClosed"
    case SystemModstamp => "SystemModstamp"
    case LastModifiedDate => "LastModifiedDate"
    case CreatedDate => "CreatedDate"
  }

  function TypeOf(f: Field): FieldType {
    match f
    case Amount => NumberType
    case CloseDate => DateType
    case IsWon => BooleanType
    case IsClosed => BooleanType
    case SystemModstamp => InstantType
    case LastModifiedDate => InstantType
    case CreatedDate => InstantType
    case _ => TextType
  }

  datatype Op = Eq | Ne | Lt | Le | Gt | Ge | In

  datatype Value =
    | Null
    | Text(s: string)
    | At(t: int)
    | On(day: nat)
    | Flag(b: bool)
    | Num(d: Decimal)
    | Texts(items: seq<string>)

  datatype Condition = Condition(field: Field, op: Op, value: Value)

  datatype OrderBy = OrderBy(field: Field, descending: bool)

  datatype Query = Query(fields: seq<Field>, where: seq<Condition>, orderBy: seq<OrderBy>, limit: Option<nat>)

  predicate HasType(v: Value, f: Field) {
    match v
    case Null => true
    case Text(_) => TypeOf(f) == TextType
    case At(_) => TypeOf(f) == InstantType
    case On(_) => TypeOf(f) == DateType
    case Flag(_) => TypeOf(f) == BooleanType
    case Num(_) => TypeOf(f) == NumberType
    case Texts(_) => false
  }

  /** A value of the field's own type or null; or a list of texts for a text field. */
  predicate Typed(c: Condition) {
    if c.op == In then c.value.Texts? && c.value.items != [] && TypeOf(c.field) == TextType
    else HasType(c.value, c.field)
  }

  predicate TypedQuery(q: Query) {
    q.fields != [] && forall c :: c in q.where ==> Typed(c)
  }

  // ---- words ---------------------------------------------------------------------------

  function LowerChar(c: char): char {
    if 'A' <= c <= 'Z' then ((c as int) + 32) as char else c
  }

  /** Equal but for the case of ASCII letters. */
  predicate SameText(a: string, b: string) {
    |a| == |b| && forall i :: 0 <= i < |a| ==> LowerChar(a[i]) == LowerChar(b[i])
  }

  const FIELDS := [Id, Name, AccountId, Amount, CloseDate, StageName, IsWon, IsClosed, SystemModstamp,
                   LastModifiedDate, CreatedDate, AccountDotId, AccountDotName]

  function Find(text: string, among: seq<Field>): Option<Field> {
    if among == [] then None
    else if SameText(text, NameOf(among[0])) then Some(among[0])
    else Find(text, among[1..])
  }

  function Lookup(text: string): Option<Field> {
    Find(text, FIELDS)
  }

  /** The two-character sequence backslash, quote stands for a quote; nothing else is unescaped. */
  function Unescape(s: string): string {
    if s == "" then ""
    else if |s| > 1 && s[..2] == "\\'" then "'" + Unescape(s[2..])
    else [s[0]] + Unescape(s[1..])
  }

  // ---- reading tokens ------------------------------------------------------------------

  /** A value read off the front, and the tokens after it. */
  type Parsed<T> = Result<(T, seq<Token>), SoqlError>

  function Next(ts: seq<Token>): Parsed<Token> {
    if ts == [] then Err(MALFORMED) else Ok((ts[0], ts[1..]))
  }

  predicate AtText(ts: seq<Token>, text: string) {
    ts != [] && ts[0].text == text
  }

  predicate AtWord(ts: seq<Token>, word: string) {
    ts != [] && ts[0].kind == Ident && SameText(ts[0].text, word)
  }

  function Expect(ts: seq<Token>, word: string): Result<seq<Token>, SoqlError> {
    if AtWord(ts, word) then Ok(ts[1..]) else Err(MALFORMED)
  }

  function ReadField(ts: seq<Token>): (r: Parsed<Field>)
    ensures r.Ok? ==> |r.value.1| < |ts|
  {
    var (tok, rest) :- Next(ts);
    if tok.kind != Ident then Err(MALFORMED)
    else if Lookup(tok.text).None? then Err(INVALID_FIELD)
    else Ok((Lookup(tok.text).value, rest))
  }

  /** What a token means as a value of a field, or the error it raises. */
  function Meaning(tok: Token, f: Field): (r: Result<Value, SoqlError>)
    ensures r.Ok? ==> HasType(r.value, f)
  {
    if tok.kind == Ident && SameText(tok.text, "NULL") then Ok(Null)
    else
      match TypeOf(f)
      case InstantType =>
        if tok.kind != Instant then Err(INVALID_FIELD)
        else if ParseInstant(tok.text).None? then Err(ValueError)
        else Ok(At(ParseInstant(tok.text).value))
      case DateType =>
        if tok.kind != Day then Err(INVALID_FIELD)
        else if ParseDate(tok.text).None? then Err(ValueError)
        else Ok(On(ParseDate(tok.text).value))
      case BooleanType =>
        if tok.kind != Ident then Err(INVALID_FIELD)
        else if SameText(tok.text, "TRUE") then Ok(Flag(true))
        else if SameText(tok.text, "FALSE") then Ok(Flag(false))
        else Err(INVALID_FIELD)
      case NumberType =>
        if tok.kind != Number then Err(INVALID_FIELD) else Ok(Num(ParseDecimal(tok.text)))
      case TextType =>
        if tok.kind != Quoted then Err(MALFORMED) else Ok(Text(Unescape(tok.text[1..|tok.text| - 1])))
  }

  function ReadLiteral(ts: seq<Token>, f: Field): (r: Parsed<Value>)
    ensures r.Ok? ==> HasType(r.value.0, f) && |r.value.1| < |ts|
  {
    var (tok, rest) :- Next(ts);
    var v :- Meaning(tok, f);
    Ok((v, rest))
  }

  /** The quoted texts of an IN list, after its opening parenthesis. */
  function ReadTexts(ts: seq<Token>, f: Field): (r: Parsed<seq<string>>)
    ensures r.Ok? ==> r.value.0 != [] && TypeOf(f) == TextType && |r.value.1| < |ts|
    decreases |ts|
  {
    var (v, rest) :- ReadLiteral(ts, f);
    if !v.Text? then Err(MALFORMED)
    else
      var (sep, more) :- Next(rest);
      if sep.text == ")" then Ok(([v.s], more))
      else if sep.text != "," then Err(MALFORMED)
      else
        var (items, after) :- ReadTexts(more, f);
        Ok(([v.s] + items, after))
  }

  function OpOf(text: string): Op {
    if text == "=" then Eq
    else if text == "!=" || text == "<>" then Ne
    else if text == "<" then Lt
    else if text == "<=" then Le
    else if text == ">" then Gt
    else Ge
  }

  function ReadCondition(ts: seq<Token>): (r: Parsed<Condition>)
    ensures r.Ok? ==> Typed(r.value.0) && |r.value.1| < |ts|
  {
    var (f, rest) :- ReadField(ts);
    if AtWord(rest, "IN") then
      var (paren, inner) :- Next(rest[1..]);
      if paren.text != "(" then Err(MALFORMED)
      else
        var (items, after) :- ReadTexts(inner, f);
        Ok((Condition(f, In, Texts(items)), after))
    else
      var (op, more) :- Next(rest);
      if op.kind != Kind.Op then Err(MALFORMED)
      else
        var (v, after) :- ReadLiteral(more, f);
        Ok((Condition(f, OpOf(op.text), v), after))
  }

  function ReadFields(ts: seq<Token>): (r: Parsed<seq<Field>>)
    ensures r.Ok? ==> r.value.0 != []
    decreases |ts|
  {
    var (f, rest) :- ReadField(ts);
    if AtText(rest, ",") then
      var (fs, after) :- ReadFields(rest[1..]);
      Ok(([f] + fs, after))
    else Ok(([f], rest))
  }

  function ReadConditions(ts: seq<Token>): (r: Parsed<seq<Condition>>)
    ensures r.Ok? ==> forall c :: c in r.value.0 ==> Typed(c)
    decreases |ts|
  {
    var (c, rest) :- ReadCondition(ts);
    if AtWord(rest, "AND") then
      var (cs, after) :- ReadConditions(rest[1..]);
      Ok(([c] + cs, after))
    else Ok(([c], rest))
  }

  /** One key of ORDER BY. */
  function ReadOrder(ts: seq<Token>): (r: Parsed<OrderBy>)
    ensures r.Ok? ==> |r.value.1| < |ts|
  {
    var (f, rest) :- ReadField(ts);
    Ok((OrderBy(f, AtWord(rest, "DESC")), if AtWord(rest, "DESC") || AtWord(rest, "ASC") then rest[1..] else rest))
  }

  function ReadOrders(ts: seq<Token>): Parsed<seq<OrderBy>>
    decreases |ts|
  {
    var (o, rest) :- ReadOrder(ts);
    if AtText(rest, ",") then
      var (os, after) :- ReadOrders(rest[1..]);
      Ok(([o] + os, after))
    else Ok(([o], rest))
  }

  function ReadWhere(ts: seq<Token>): (r: Parsed<seq<Condition>>)
    ensures r.Ok? ==> forall c :: c in r.value.0 ==> Typed(c)
  {
    if !AtWord(ts, "WHERE") then Ok(([], ts))
    else
      var (cs, rest) :- ReadConditions(ts[1..]);
      if rest != [] && SameText(rest[0].text, "OR") then Err(MALFORMED) else Ok((cs, rest))
  }

  function ReadOrderBy(ts: seq<Token>): Parsed<seq<OrderBy>> {
    if !AtWord(ts, "ORDER") then Ok(([], ts))
    else
      var rest :- Expect(ts[1..], "BY");
      ReadOrders(rest)
  }

  function ReadLimit(ts: seq<Token>): Parsed<Option<nat>> {
    if !AtWord(ts, "LIMIT") then Ok((None, ts))
    else
      var (tok, rest) :- Next(ts[1..]);
      if tok.kind != Number || !AllDigits(tok.text) then Err(MALFORMED) else Ok((Some(NatOf(tok.text)), rest))
  }

  /** What a query may say after its table. */
  function ReadClauses(fields: seq<Field>, ts: seq<Token>): Result<Query, SoqlError> {
    var (where, ts1) :- ReadWhere(ts);
    var (orderBy, ts2) :- ReadOrderBy(ts1);
    var (limit, ts3) :- ReadLimit(ts2);
    if ts3 != [] then Err(MALFORMED) else Ok(Query(fields, where, orderBy, limit))
  }

  function ReadQuery(ts: seq<Token>): Result<Query, SoqlError> {
    var ts1 :- Expect(ts, "SELECT");
    var (fields, ts2) :- ReadFields(ts1);
    var ts3 :- Expect(ts2, "FROM");
    var (table, ts4) :- Next(ts3);
    if !SameText(table.text, "Opportunity") then Err(INVALID_TYPE) else ReadClauses(fields, ts4)
  }

  /** The meaning of a SOQL text. */
  function Meant(soql: string): Result<Query, SoqlError> {
    var ts :- Tokens(soql);
    ReadQuery(ts)
  }

  /** Whatever text is accepted, the query it means compares each field only with its own type. */
  lemma AcceptedIsTyped(soql: string)
    requires Meant(soql).Ok?
    ensures TypedQuery(Meant(soql).value)
  {
    var ts := Tokens(soql).value;
    var (fields, ts2) := ReadFields(ts[1..]).value;
    var (where, _) := ReadWhere(ts2[2..]).value;
    assert Meant(soql).value.fields == fields && Meant(soql).value.where == where;
  }
}
