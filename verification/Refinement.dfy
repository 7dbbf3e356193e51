/** From a query's text to the set it stands for: the poller's window and the reconciler's list, as sets of deals. */
module Refinement {
  import opened Prelude
  import opened Calendar
  import opened Sorting
  import opened Lexer
  import opened Soql
  import opened Printing
  import opened RoundTrip
  import Events
  import Poller
  import QueryEngine

  const WINDOW_FIELDS: seq<Field> :=
    [Id, Name, AccountId, AccountDotName, Amount, CloseDate, StageName, SystemModstamp]

  const BY_STAMP_AND_ID: seq<OrderBy> := [OrderBy(SystemModstamp, false), OrderBy(Id, false)]

  const WON := Condition(IsWon, Eq, Flag(true))

  function WindowConditions(from: int, upper: int): seq<Condition> {
    [WON, Condition(SystemModstamp, Ge, At(Truncate(from))), Condition(SystemModstamp, Lt, At(Truncate(upper)))]
  }

  /** What the poller's text asks for. */
  function WindowQuery(from: int, upper: int): Query {
    Query(WINDOW_FIELDS, WindowConditions(from, upper), BY_STAMP_AND_ID, None)
  }

  /** What the reconciler's text asks for: every won deal. */
  const WON_QUERY := Query(WINDOW_FIELDS, [WON], BY_STAMP_AND_ID, None)

  const WON_TEXT :=
    "SELECT Id, Name, AccountId, Account.Name,"
    + " Amount, CloseDate, StageName, SystemModstamp"
    + " FROM Opportunity WHERE IsWon = true"
    + " ORDER BY SystemModstamp ASC, Id ASC"

  // ---- the answer ---------------------------------------------------------------------------

  /** A deal as the query returns it. */
  function RowOf(d: QueryEngine.Data, o: QueryEngine.Opp): Events.SfRow {
    var account := QueryEngine.AccountOf(d, o);
    Events.SfRow(
      o.id,
      if o.name.Some? then o.name.value else "",
      o.accountId,
      if account.Some? then account.value.name else None,
      o.amount,
      if o.closeDate.Some? then Some(DateText(DateOf(o.closeDate.value))) else None,
      if o.stageName.Some? then o.stageName.value else "",
      o.stamp)
  }

  function Rows(d: QueryEngine.Data, opps: seq<QueryEngine.Opp>): (rows: seq<Events.SfRow>)
    ensures |rows| == |opps| && forall i :: 0 <= i < |opps| ==> rows[i] == RowOf(d, opps[i])
  {
    seq(|opps|, i requires 0 <= i < |opps| => RowOf(d, opps[i]))
  }

  predicate IsWonDeal(o: QueryEngine.Opp) {
    o.stageName == Some(QueryEngine.WON_STAGE)
  }

  function WonRows(d: QueryEngine.Data): set<Events.SfRow> {
    set o | o in d.opps && IsWonDeal(o) :: RowOf(d, o)
  }

  predicate Within(o: QueryEngine.Opp, from: int, upper: int) {
    Truncate(from) <= o.stamp < Truncate(upper)
  }

  lemma MeetsWindow(d: QueryEngine.Data, o: QueryEngine.Opp, from: int, upper: int)
    ensures QueryEngine.Meets(d, o, WindowConditions(from, upper)) <==> IsWonDeal(o) && Within(o, from, upper)
  {
    var cs := WindowConditions(from, upper);
    assert QueryEngine.Matches(QueryEngine.FieldValue(d, o, cs[0].field), cs[0]) <==> IsWonDeal(o);
    assert QueryEngine.Matches(QueryEngine.FieldValue(d, o, cs[1].field), cs[1]) <==> Truncate(from) <= o.stamp;
    assert QueryEngine.Matches(QueryEngine.FieldValue(d, o, cs[2].field), cs[2]) <==> o.stamp < Truncate(upper);
  }

  lemma MeetsWon(d: QueryEngine.Data, o: QueryEngine.Opp)
    ensures QueryEngine.Meets(d, o, [WON]) <==> IsWonDeal(o)
  {
    assert QueryEngine.Matches(QueryEngine.FieldValue(d, o, [WON][0].field), [WON][0]) <==> IsWonDeal(o);
  }

  /** Deals in the order of stamp and Id, full ties as they were written. */
  lemma OrderMeans(d: QueryEngine.Data, x: QueryEngine.Opp, y: QueryEngine.Opp)
    requires QueryEngine.AnswerOrder(d, BY_STAMP_AND_ID)(x, y)
    ensures x.stamp < y.stamp || (x.stamp == y.stamp && TextLess(x.id, y.id))
            || (x.stamp == y.stamp && x.id == y.id && QueryEngine.Earlier(d.opps, x, y))
  {
    var tie := QueryEngine.AsWritten(d.opps);
    var keys := QueryEngine.KeyOrders(d, BY_STAMP_AND_ID);
    assert keys[1..] == [keys[1]] && keys[1..][1..] == [];
    assert Lexicographic([keys[1]], tie) == Then(keys[1], tie);
    assert Lexicographic(keys, tie) == Then(keys[0], Then(keys[1], tie));
    assert keys[0](x, y) && (keys[0](y, x) ==> keys[1](x, y) && (keys[1](y, x) ==> tie(x, y)));
    TextOrder(x.id, y.id);
  }

  lemma AnswerIsInOrder(d: QueryEngine.Data, q: Query)
    requires QueryEngine.DistinctIds(d.opps) && q.orderBy == BY_STAMP_AND_ID
    ensures Poller.InOrder(Rows(d, QueryEngine.Arranged(d, q)))
  {
    hide QueryEngine.Arranged, QueryEngine.AnswerOrder, QueryEngine.Meets;
    var opps := QueryEngine.Arranged(d, q);
    QueryEngine.ArrangedIsExact(d, q);
    forall i, j | 0 <= i < j < |opps| ensures Poller.RowBefore(RowOf(d, opps[i]), RowOf(d, opps[j])) {
      assert QueryEngine.AnswerOrder(d, q.orderBy)(opps[i], opps[j]);
      OrderMeans(d, opps[i], opps[j]);
    }
  }

  /** Run on any store, the window query gives exactly the won deals stamped in the window, each once, by stamp
    * and then Id. */
  lemma WindowAnswer(d: QueryEngine.Data, from: int, upper: int)
    requires QueryEngine.DistinctIds(d.opps)
    ensures Poller.IsAnswer(WonRows(d), from, upper, Rows(d, QueryEngine.Answer(d, WindowQuery(from, upper))))
  {
    hide QueryEngine.Arranged, QueryEngine.Meets, WindowConditions;
    var q := WindowQuery(from, upper);
    var opps, rows := QueryEngine.Answer(d, q), Rows(d, QueryEngine.Answer(d, q));
    AnswerIsInOrder(d, q);
    QueryEngine.ArrangedIsExact(d, q);
    forall r ensures r in rows <==> r in WonRows(d) && Poller.InWindow(r, from, upper) {
      if r in rows {
        var i :| 0 <= i < |rows| && rows[i] == r;
        assert opps[i] in opps;
        MeetsWindow(d, opps[i], from, upper);
      }
      if r in WonRows(d) && Poller.InWindow(r, from, upper) {
        var o :| o in d.opps && IsWonDeal(o) && r == RowOf(d, o);
        MeetsWindow(d, o, from, upper);
        var i :| 0 <= i < |opps| && opps[i] == o;
        assert rows[i] == r;
      }
    }
  }

  /** The reconciler's list is every won deal, each once, in the same order. */
  lemma WonAnswer(d: QueryEngine.Data)
    requires QueryEngine.DistinctIds(d.opps)
    ensures var rows := Rows(d, QueryEngine.Answer(d, WON_QUERY));
            Poller.InOrder(rows) && forall r :: r in rows <==> r in WonRows(d)
  {
    hide QueryEngine.Arranged, QueryEngine.Meets;
    var opps, rows := QueryEngine.Answer(d, WON_QUERY), Rows(d, QueryEngine.Answer(d, WON_QUERY));
    AnswerIsInOrder(d, WON_QUERY);
    QueryEngine.ArrangedIsExact(d, WON_QUERY);
    forall r ensures r in rows <==> r in WonRows(d) {
      if r in rows {
        var i :| 0 <= i < |rows| && rows[i] == r;
        assert opps[i] in opps;
        MeetsWon(d, opps[i]);
      }
      if r in WonRows(d) {
        var o :| o in d.opps && IsWonDeal(o) && r == RowOf(d, o);
        MeetsWon(d, o);
        var i :| 0 <= i < |opps| && opps[i] == o;
        assert rows[i] == r;
      }
    }
  }

  // ---- the text -------------------------------------------------------------------------------

  /** A token that is no comma or parenthesis is written after a space. */
  lemma SpacedToken(t: Token, rest: seq<Token>)
    requires t.text != "," && t.text != ")" && t.text != "("
    ensures RenderFrom(false, [t] + rest) == " " + t.text + RenderFrom(false, rest)
  {
    assert ([t] + rest)[1..] == rest;
  }

  lemma CommaToken(rest: seq<Token>)
    ensures RenderFrom(false, [COMMA] + rest) == "," + RenderFrom(false, rest)
  {
    assert ([COMMA] + rest)[1..] == rest;
    assert "" + ("," + RenderFrom(false, rest)) == "," + RenderFrom(false, rest);
  }

  lemma NamesAreNoPunctuation(f: Field)
    ensures NameOf(f) != "," && NameOf(f) != ")" && NameOf(f) != "("
  {
    assert StartsWord(NameOf(f)[0]);
  }

  /** Field names after spaces, with commas between them. */
  function FieldsText(fs: seq<Field>): string
    requires fs != []
  {
    if |fs| == 1 then " " + NameOf(fs[0]) else " " + NameOf(fs[0]) + "," + FieldsText(fs[1..])
  }

  lemma {:induction false} RenderedFields(fs: seq<Field>, rest: seq<Token>)
    requires fs != []
    ensures RenderFrom(false, FieldTokens(fs, rest)) == FieldsText(fs) + RenderFrom(false, rest)
  {
    hide NameOf, RenderFrom, Lexical;
    NamesAreNoPunctuation(fs[0]);
    if |fs| == 1 {
      SpacedToken(FieldToken(fs[0]), rest);
    } else {
      var more := FieldTokens(fs[1..], rest);
      RenderedFields(fs[1..], rest);
      SpacedToken(FieldToken(fs[0]), [COMMA] + more);
      CommaToken(more);
    }
  }

  lemma FieldThenMore(f: Field, fs: seq<Field>)
    requires fs != []
    ensures FieldsText([f] + fs) == " " + NameOf(f) + "," + FieldsText(fs)
  {
    hide NameOf;
    assert ([f] + fs)[1..] == fs;
  }

  lemma TwoFieldsThenMore(f: Field, g: Field, fs: seq<Field>, first: string, second: string, both: string)
    requires fs != []
    requires " " + NameOf(f) + "," == first && " " + NameOf(g) + "," == second && first + second == both
    ensures FieldsText([f, g] + fs) == both + FieldsText(fs)
  {
    hide NameOf, FieldsText;
    FieldThenMore(f, [g] + fs);
    FieldThenMore(g, fs);
    assert [f, g] + fs == [f] + ([g] + fs);
    assert first + (second + FieldsText(fs)) == both + FieldsText(fs);
  }

  lemma LastFieldsText()
    ensures FieldsText([StageName, SystemModstamp]) == " StageName, SystemModstamp"
  {
    assert [StageName, SystemModstamp][1..] == [SystemModstamp];
    assert " " + "StageName" + "," == " StageName,";
    assert " " + "SystemModstamp" == " SystemModstamp";
    assert " StageName," + " SystemModstamp" == " StageName, SystemModstamp";
  }

  const LATER_FIELDS: seq<Field> := [Amount, CloseDate] + [StageName, SystemModstamp]

  lemma LaterFieldsText()
    ensures FieldsText(LATER_FIELDS) == " Amount, CloseDate," + " StageName, SystemModstamp"
  {
    hide FieldsText;
    LastFieldsText();
    TwoFieldsThenMore(Amount, CloseDate, [StageName, SystemModstamp], " Amount,", " CloseDate,", " Amount, CloseDate,");
  }

  lemma WindowFieldsText()
    ensures FieldsText(WINDOW_FIELDS) ==
              " Id, Name," + (" AccountId, Account.Name," + (" Amount, CloseDate," + " StageName, SystemModstamp"))
  {
    hide FieldsText;
    LaterFieldsText();
    TwoFieldsThenMore(AccountId, AccountDotName, LATER_FIELDS, " AccountId,", " Account.Name,", " AccountId, Account.Name,");
    TwoFieldsThenMore(Id, Name, [AccountId, AccountDotName] + LATER_FIELDS, " Id,", " Name,", " Id, Name,");
    assert WINDOW_FIELDS == [Id, Name] + ([AccountId, AccountDotName] + LATER_FIELDS);
  }

  lemma RenderedCondition(c: Condition, rest: seq<Token>)
    requires c.op != In && Typed(c) && Writable(c.value)
    requires var t := ValueToken(c.value).text; t != "," && t != ")" && t != "("
    ensures RenderFrom(false, ConditionTokens(c, rest)) ==
              " " + NameOf(c.field) + (" " + TextOfOp(c.op) + (" " + ValueToken(c.value).text + RenderFrom(false, rest)))
  {
    hide NameOf, RenderFrom, Lexical, ValueToken;
    NamesAreNoPunctuation(c.field);
    SpacedToken(FieldToken(c.field), [OpToken(c.op)] + ([ValueToken(c.value)] + rest));
    OpTextsAreNoPunctuation(c.op);
    SpacedToken(OpToken(c.op), [ValueToken(c.value)] + rest);
    SpacedToken(ValueToken(c.value), rest);
  }

  lemma OpTextsAreNoPunctuation(op: Op)
    ensures TextOfOp(op) != "," && TextOfOp(op) != ")" && TextOfOp(op) != "("
  {
  }

  /** The bound of a window is written like the poller writes it. */
  lemma BoundText(t: int)
    requires Representable(t)
    ensures Representable(Truncate(t)) && ValueToken(At(Truncate(t))).text == Literal(t)
    ensures Literal(t) != "," && Literal(t) != ")" && Literal(t) != "("
  {
    hide DateOf, Lexical;
    TruncateFields(t);
    assert SecondsText(Split(Truncate(t))) == SecondsText(Split(t));
    assert |Literal(t)| == 20;
  }

  lemma RenderedBound(op: Op, t: int, rest: seq<Token>)
    requires Representable(t) && op in {Ge, Lt}
    ensures var c := Condition(SystemModstamp, op, At(Truncate(t)));
            && Typed(c) && Writable(c.value)
            && RenderFrom(false, [AND] + ConditionTokens(c, rest)) ==
                 BoundHead(op) + Literal(t) + RenderFrom(false, rest)
  {
    hide RenderFrom, Lexical, DateOf, ValueToken, Literal, ConditionTokens;
    BoundText(t);
    var c := Condition(SystemModstamp, op, At(Truncate(t)));
    RenderedCondition(c, rest);
    SpacedToken(AND, ConditionTokens(c, rest));
    BoundSpelled(op, Literal(t), RenderFrom(false, rest));
  }

  function BoundHead(op: Op): string {
    if op == Ge then " AND SystemModstamp >= " else " AND SystemModstamp < "
  }

  lemma BoundHeadSpelled(op: Op)
    requires op in {Ge, Lt}
    ensures " AND SystemModstamp" + (" " + TextOfOp(op) + " ") == BoundHead(op)
  {
  }

  lemma BoundSpelled(op: Op, bound: string, rest: string)
    requires op in {Ge, Lt}
    ensures " " + "AND" + (" " + "SystemModstamp" + (" " + TextOfOp(op) + (" " + bound + rest))) == BoundHead(op) + bound + rest
  {
    hide TextOfOp, BoundHead;
    var head := " " + TextOfOp(op) + " ";
    assert " " + "AND" + (" " + "SystemModstamp") == " AND SystemModstamp";
    assert " " + TextOfOp(op) + (" " + bound + rest) == head + (bound + rest);
    BoundHeadSpelled(op);
    TwoJoins(" AND SystemModstamp", head, bound, rest);
    SplitJoin(" " + "AND", " " + "SystemModstamp", head + (bound + rest));
  }

  lemma TwoJoins(a: string, b: string, c: string, d: string)
    ensures a + (b + (c + d)) == a + b + c + d
  {
  }

  lemma SplitJoin(a: string, b: string, c: string)
    ensures a + (b + c) == a + b + c
  {
  }

  lemma RenderedWon(rest: seq<Token>)
    ensures RenderFrom(false, ConditionTokens(WON, rest)) == " IsWon = true" + RenderFrom(false, rest)
  {
    hide RenderFrom, Lexical, ConditionTokens;
    assert ValueToken(WON.value).text == "true";
    RenderedCondition(WON, rest);
    var x := RenderFrom(false, rest);
    assert " " + "IsWon" + (" " + "=" + (" " + "true" + x)) == " IsWon = true" + x;
  }

  lemma RenderedOrderBy()
    ensures RenderFrom(false, OrderByTokens(BY_STAMP_AND_ID, [])) == " ORDER BY" + (" SystemModstamp ASC," + " Id ASC")
  {
    hide RenderFrom, Lexical;
    var second := OrderTokens([OrderBy(Id, false)], []);
    var first := OrderTokens(BY_STAMP_AND_ID, []);
    assert BY_STAMP_AND_ID[1..] == [OrderBy(Id, false)];
    assert first == [FieldToken(SystemModstamp)] + ([ASC] + ([COMMA] + second));
    assert second == [FieldToken(Id)] + ([ASC] + []);
    NothingLeft();
    SpacedToken(ASC, []);
    SpacedToken(FieldToken(Id), [ASC] + []);
    CommaToken(second);
    SpacedToken(ASC, [COMMA] + second);
    SpacedToken(FieldToken(SystemModstamp), [ASC] + ([COMMA] + second));
    SpacedToken(BY, first);
    SpacedToken(ORDER, [BY] + first);
    OrderSpelled();
  }

  lemma OrderSpelled()
    ensures " " + "ORDER" + (" " + "BY" + (" " + "SystemModstamp" + (" " + "ASC" + ("," + (" " + "Id" + (" " + "ASC" + ""))))))
         == " ORDER BY" + (" SystemModstamp ASC," + " Id ASC")
  {
    assert " " + "Id" + (" " + "ASC" + "") == " Id ASC";
    assert " " + "SystemModstamp" + (" " + "ASC" + ("," + " Id ASC")) == " SystemModstamp ASC," + " Id ASC";
    assert " " + "ORDER" + (" " + "BY" + (" SystemModstamp ASC," + " Id ASC")) == " ORDER BY" + (" SystemModstamp ASC," + " Id ASC");
  }

  lemma NothingLeft()
    ensures RenderFrom(false, []) == ""
  {
  }

  /** Every query over these fields with a condition starts alike. */
  lemma RenderedHead(rest: seq<Token>)
    ensures RenderFrom(true, [SELECT] + FieldTokens(WINDOW_FIELDS, [FROM] + ([OPPORTUNITY] + ([WHERE] + rest)))) ==
              "SELECT Id, Name, AccountId, Account.Name,"
              + (" Amount, CloseDate, StageName, SystemModstamp" + (" FROM Opportunity WHERE" + RenderFrom(false, rest)))
  {
    hide FieldsText, RenderFrom, Lexical, FieldTokens;
    var from := [FROM] + ([OPPORTUNITY] + ([WHERE] + rest));
    FirstToken(SELECT, FieldTokens(WINDOW_FIELDS, from));
    RenderedFields(WINDOW_FIELDS, from);
    SpacedToken(FROM, [OPPORTUNITY] + ([WHERE] + rest));
    SpacedToken(OPPORTUNITY, [WHERE] + rest);
    SpacedToken(WHERE, rest);
    WindowFieldsText();
    HeadSpelled(RenderFrom(false, rest));
  }

  lemma FirstToken(t: Token, rest: seq<Token>)
    requires t.text != "("
    ensures RenderFrom(true, [t] + rest) == t.text + RenderFrom(false, rest)
  {
    assert ([t] + rest)[1..] == rest;
    assert "" + (t.text + RenderFrom(false, rest)) == t.text + RenderFrom(false, rest);
  }

  lemma HeadSpelled(x: string)
    ensures "SELECT" + (" Id, Name," + (" AccountId, Account.Name," + (" Amount, CloseDate," + " StageName, SystemModstamp"))
              + (" " + "FROM" + (" " + "Opportunity" + (" " + "WHERE" + x))))
         == "SELECT Id, Name, AccountId, Account.Name,"
            + (" Amount, CloseDate, StageName, SystemModstamp" + (" FROM Opportunity WHERE" + x))
  {
    LaterFieldsSpelled();
    FieldListSpelled();
    TableSpelled(x);
    Joins("SELECT", " Id, Name,", " AccountId, Account.Name,", " Amount, CloseDate, StageName, SystemModstamp",
          " FROM Opportunity WHERE" + x);
  }

  lemma LaterFieldsSpelled()
    ensures " Amount, CloseDate," + " StageName, SystemModstamp" == " Amount, CloseDate, StageName, SystemModstamp"
  {
  }

  lemma TableSpelled(x: string)
    ensures " " + "FROM" + (" " + "Opportunity" + (" " + "WHERE" + x)) == " FROM Opportunity WHERE" + x
  {
    assert " " + "FROM" == " FROM" && " " + "Opportunity" == " Opportunity" && " " + "WHERE" == " WHERE";
    assert " FROM" + (" Opportunity" + (" WHERE" + x)) == " FROM Opportunity WHERE" + x;
  }

  lemma FieldListSpelled()
    ensures "SELECT" + " Id, Name," + " AccountId, Account.Name," == "SELECT Id, Name, AccountId, Account.Name,"
  {
    assert "SELECT" + " Id, Name," == "SELECT Id, Name,";
  }

  lemma Joins(a: string, b: string, c: string, d: string, e: string)
    ensures a + (b + (c + d) + e) == a + b + c + (d + e)
  {
  }

  function WindowTail(from: int, upper: int): seq<Token>
    requires Representable(from) && Representable(upper)
  {
    WindowIsWritable(from, upper);
    var cs := WindowConditions(from, upper);
    [AND] + ConditionTokens(cs[1], [AND] + ConditionTokens(cs[2], OrderByTokens(BY_STAMP_AND_ID, [])))
  }

  lemma RenderedTail(from: int, upper: int)
    requires Representable(from) && Representable(upper)
    ensures RenderFrom(false, WindowTail(from, upper)) ==
              " AND SystemModstamp >= " + Literal(from) + (" AND SystemModstamp < " + Literal(upper)
              + (" ORDER BY" + (" SystemModstamp ASC," + " Id ASC")))
  {
    hide RenderFrom, Lexical, ConditionTokens, OrderByTokens, DateOf, Literal, Writable;
    WindowIsWritable(from, upper);
    var cs := WindowConditions(from, upper);
    var order := OrderByTokens(BY_STAMP_AND_ID, []);
    RenderedOrderBy();
    RenderedBound(Lt, upper, order);
    RenderedBound(Ge, from, [AND] + ConditionTokens(cs[2], order));
  }

  lemma WindowIsWritten(from: int, upper: int)
    requires Representable(from) && Representable(upper) && WritableQuery(WindowQuery(from, upper))
    ensures Written(WindowQuery(from, upper)) == Poller.QueryText(from, upper)
  {
    hide RenderFrom, Lexical, FieldTokens, ConditionTokens, WindowTail, QueryTokens, DateOf, Literal, Writable, Typed;
    var tail := WindowTail(from, upper);
    WindowTokens(from, upper);
    RenderedHead(ConditionTokens(WON, tail));
    RenderedWon(tail);
    RenderedTail(from, upper);
    WindowSpelled(Literal(from), Literal(upper));
  }

  /** The poller's text is the written window query: it reads back as that query, for every window. */
  lemma WindowText(from: int, upper: int)
    requires Representable(from) && Representable(upper)
    ensures Meant(Poller.QueryText(from, upper)) == Ok(WindowQuery(from, upper))
  {
    hide Written, Meant, DateOf, Writable, Typed, WindowQuery, Poller.QueryText;
    WindowIsWritable(from, upper);
    WindowIsWritten(from, upper);
    WrittenMeansTheQuery(WindowQuery(from, upper));
  }

  lemma WindowIsWritable(from: int, upper: int)
    requires Representable(from) && Representable(upper)
    ensures WritableQuery(WindowQuery(from, upper))
  {
    hide DateOf;
    TruncateFields(from);
    TruncateFields(upper);
  }

  lemma WindowTokens(from: int, upper: int)
    requires Representable(from) && Representable(upper) && WritableQuery(WindowQuery(from, upper))
    ensures QueryTokens(WindowQuery(from, upper)) ==
              [SELECT] + FieldTokens(WINDOW_FIELDS, [FROM] + ([OPPORTUNITY] + ([WHERE] +
                ConditionTokens(WON, WindowTail(from, upper)))))
  {
    hide FieldTokens, ConditionTokens, OrderByTokens, Lexical, Writable, Typed;
    var cs := WindowConditions(from, upper);
    var order := OrderByTokens(BY_STAMP_AND_ID, []);
    assert cs[1..] == [cs[1], cs[2]] && cs[1..][1..] == [cs[2]];
    assert ConditionsTokens([cs[2]], order) == ConditionTokens(cs[2], order);
    assert ConditionsTokens(cs[1..], order) == ConditionTokens(cs[1], [AND] + ConditionTokens(cs[2], order));
  }

  lemma WindowSpelled(from: string, upper: string)
    ensures "SELECT Id, Name, AccountId, Account.Name,"
            + (" Amount, CloseDate, StageName, SystemModstamp" + (" FROM Opportunity WHERE" + (" IsWon = true"
            + (" AND SystemModstamp >= " + from + (" AND SystemModstamp < " + upper
            + (" ORDER BY" + (" SystemModstamp ASC," + " Id ASC")))))))
         == "SELECT Id, Name, AccountId, Account.Name," + " Amount, CloseDate, StageName, SystemModstamp"
            + " FROM Opportunity WHERE IsWon = true" + " AND SystemModstamp >= " + from + " AND SystemModstamp < " + upper
            + " ORDER BY SystemModstamp ASC, Id ASC"
  {
    WonTableSpelled();
    OrderBySpelled();
    Regrouped("SELECT Id, Name, AccountId, Account.Name,", " Amount, CloseDate, StageName, SystemModstamp",
              " FROM Opportunity WHERE", " IsWon = true", " AND SystemModstamp >= " + from,
              " AND SystemModstamp < " + upper, " ORDER BY SystemModstamp ASC, Id ASC");
  }

  lemma Regrouped(a: string, b: string, c: string, d: string, e: string, f: string, g: string)
    ensures a + (b + (c + (d + (e + (f + g))))) == a + b + (c + d) + e + f + g
  {
    assert c + (d + (e + (f + g))) == (c + d) + e + f + g;
  }

  /** The poller's text, run on any store, gives exactly the won deals stamped in its window, each once, by stamp
    * and then Id. */
  lemma TextGivesTheWindow(d: QueryEngine.Data, from: int, upper: int)
    requires Representable(from) && Representable(upper) && QueryEngine.DistinctIds(d.opps)
    ensures var q := Meant(Poller.QueryText(from, upper));
            q.Ok? && Poller.IsAnswer(WonRows(d), from, upper, Rows(d, QueryEngine.Answer(d, q.value)))
  {
    hide Meant, Poller.IsAnswer, WindowQuery, QueryEngine.Answer, WonRows, Poller.QueryText;
    WindowText(from, upper);
    WindowAnswer(d, from, upper);
  }

  lemma WonTokens()
    ensures WritableQuery(WON_QUERY)
    ensures QueryTokens(WON_QUERY) ==
              [SELECT] + FieldTokens(WINDOW_FIELDS, [FROM] + ([OPPORTUNITY] + ([WHERE] +
                ConditionTokens(WON, OrderByTokens(BY_STAMP_AND_ID, [])))))
  {
    hide FieldTokens, ConditionTokens, OrderByTokens, Lexical;
    assert ConditionsTokens([WON], OrderByTokens(BY_STAMP_AND_ID, [])) == ConditionTokens(WON, OrderByTokens(BY_STAMP_AND_ID, []));
  }

  lemma WonTableSpelled()
    ensures " FROM Opportunity WHERE" + " IsWon = true" == " FROM Opportunity WHERE IsWon = true"
  {
  }

  lemma OrderBySpelled()
    ensures " ORDER BY" + (" SystemModstamp ASC," + " Id ASC") == " ORDER BY SystemModstamp ASC, Id ASC"
  {
  }

  lemma FiveJoins(a: string, b: string, c: string, d: string, e: string)
    ensures a + (b + (c + (d + e))) == a + b + (c + d) + e
  {
  }

  lemma WonSpelled()
    ensures "SELECT Id, Name, AccountId, Account.Name,"
            + (" Amount, CloseDate, StageName, SystemModstamp" + (" FROM Opportunity WHERE" + (" IsWon = true"
            + (" ORDER BY" + (" SystemModstamp ASC," + " Id ASC")))))
         == WON_TEXT
  {
    WonTableSpelled();
    OrderBySpelled();
    FiveJoins("SELECT Id, Name, AccountId, Account.Name,", " Amount, CloseDate, StageName, SystemModstamp",
              " FROM Opportunity WHERE", " IsWon = true", " ORDER BY SystemModstamp ASC, Id ASC");
  }

  lemma WonIsWritten()
    ensures WritableQuery(WON_QUERY) && Written(WON_QUERY) == WON_TEXT
  {
    hide RenderFrom, Lexical, FieldTokens, ConditionTokens, OrderByTokens, QueryTokens;
    WonTokens();
    RenderedHead(ConditionTokens(WON, OrderByTokens(BY_STAMP_AND_ID, [])));
    RenderedWon(OrderByTokens(BY_STAMP_AND_ID, []));
    RenderedOrderBy();
    WonSpelled();
  }

  /** The reconciler's text, run on any store, gives every won deal, each once, in the same order. */
  lemma TextGivesTheWonDeals(d: QueryEngine.Data)
    requires QueryEngine.DistinctIds(d.opps)
    ensures var q := Meant(WON_TEXT);
            && q.Ok? && Poller.InOrder(Rows(d, QueryEngine.Answer(d, q.value)))
            && forall r :: r in Rows(d, QueryEngine.Answer(d, q.value)) <==> r in WonRows(d)
  {
    hide Meant, Written, QueryEngine.Answer, WonRows;
    WonIsWritten();
    WrittenMeansTheQuery(WON_QUERY);
    WonAnswer(d);
  }
}
