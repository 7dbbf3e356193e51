/** Looking up orphaned orders in Salesforce: only well-formed ids are asked for, a hundred at a time. */
module StageLookup {
  import opened Prelude
  import opened Calendar
  import opened Lexer
  import opened Soql
  import opened Printing
  import opened RoundTrip
  import opened Refinement
  import Events
  import Parser
  import QueryEngine
  import Reconcile

  const CHUNK := 100

  predicate IsAlphanumeric(c: char) {
    IsLetter(c) || IsDigit(c)
  }

  /** Fifteen letters and digits, or eighteen. */
  predicate IsSalesforceId(s: string) {
    (|s| == 15 || |s| == 18) && forall i :: 0 <= i < |s| ==> IsAlphanumeric(s[i])
  }

  function Safe(ids: seq<string>): (r: seq<string>)
    ensures forall id :: id in r <==> id in ids && IsSalesforceId(id)
  {
    if ids == [] then []
    else Safe(ids[..|ids| - 1]) + if IsSalesforceId(ids[|ids| - 1]) then [ids[|ids| - 1]] else []
  }

  function QuotedList(ids: seq<string>): string
    requires ids != []
  {
    if |ids| == 1 then "'" + ids[0] + "'" else "'" + ids[0] + "', " + QuotedList(ids[1..])
  }

  function LookupText(ids: seq<string>): string
    requires ids != []
  {
    "SELECT Id, StageName, IsWon" + " FROM Opportunity WHERE" + " Id IN (" + QuotedList(ids) + ")"
  }

  const LOOKUP_FIELDS: seq<Field> := [Id, StageName, IsWon]

  function LookupQuery(ids: seq<string>): Query {
    Query(LOOKUP_FIELDS, [Condition(Id, In, Texts(ids))], [], None)
  }

  ghost predicate AllSafe(ids: seq<string>) {
    forall id :: id in ids ==> IsSalesforceId(id)
  }

  // ---- the text means the lookup, whatever the ids ----------------------------------------

  lemma {:induction false} NothingToEscape(s: string)
    requires forall i :: 0 <= i < |s| ==> IsAlphanumeric(s[i])
    ensures Escape(s) == s
  {
    if s != "" {
      NothingToEscape(s[1..]);
      assert s == [s[0]] + s[1..];
    }
  }

  lemma SafeIsQuoted(id: string)
    requires IsSalesforceId(id)
    ensures NoBackslash(id) && Quote(id) == "'" + id + "'" && QuotedToken(id).text == "'" + id + "'"
  {
    NothingToEscape(id);
  }

  lemma QuotedAfterSpace(first: bool, t: Token, rest: seq<Token>)
    requires t.text != "" && t.text[0] == '\''
    ensures RenderFrom(first, [t] + rest) == (if first then "" else " ") + (t.text + RenderFrom(false, rest))
  {
    assert ([t] + rest)[1..] == rest;
  }

  lemma CloseToken()
    ensures RenderFrom(false, [CLOSE] + []) == ")"
  {
    assert ([CLOSE] + [])[1..] == [];
  }

  lemma {:induction false} RenderedTexts(first: bool, ids: seq<string>)
    requires ids != [] && AllSafe(ids) && forall s :: s in ids ==> NoBackslash(s)
    ensures RenderFrom(first, TextTokens(ids, [])) == (if first then "" else " ") + (QuotedList(ids) + ")")
  {
    hide RenderFrom, Lexical, Quote, NoBackslash, IsSalesforceId, QuotedToken;
    var t := QuotedToken(ids[0]);
    SafeIsQuoted(ids[0]);
    assert t.text[0] == '\'';
    if |ids| == 1 {
      QuotedAfterSpace(first, t, [CLOSE] + []);
      CloseToken();
    } else {
      var more := TextTokens(ids[1..], []);
      RenderedTexts(false, ids[1..]);
      QuotedAfterSpace(first, t, [COMMA] + more);
      CommaToken(more);
      CommaSpelled("'" + ids[0], QuotedList(ids[1..]));
    }
  }

  lemma CommaSpelled(a: string, b: string)
    ensures a + "'" + ("," + (" " + (b + ")"))) == a + "', " + b + ")"
  {
  }

  lemma LookupFieldsText()
    ensures FieldsText(LOOKUP_FIELDS) == " Id, StageName, IsWon"
  {
    hide FieldsText;
    TwoFieldsThenMore(Id, StageName, [IsWon], " Id,", " StageName,", " Id, StageName,");
    OneFieldText(IsWon);
    assert LOOKUP_FIELDS == [Id, StageName] + [IsWon];
    assert " " + "IsWon" == " IsWon";
    assert " Id, StageName," + " IsWon" == " Id, StageName, IsWon";
  }

  lemma OneFieldText(f: Field)
    ensures FieldsText([f]) == " " + NameOf(f)
  {
  }

  lemma OpenToken(rest: seq<Token>)
    ensures RenderFrom(false, [OPEN] + rest) == " (" + RenderFrom(true, rest)
  {
    assert ([OPEN] + rest)[1..] == rest;
    assert " " + ("(" + RenderFrom(true, rest)) == " (" + RenderFrom(true, rest);
  }

  lemma LookupIsWritable(ids: seq<string>)
    requires ids != [] && AllSafe(ids)
    ensures WritableQuery(LookupQuery(ids))
  {
    forall id | id in ids ensures NoBackslash(id) {
      SafeIsQuoted(id);
    }
  }

  lemma RenderedList(ids: seq<string>)
    requires ids != [] && AllSafe(ids) && Writable(Texts(ids))
    ensures RenderFrom(false, ConditionTokens(Condition(Id, In, Texts(ids)), [])) == " Id IN (" + (QuotedList(ids) + ")")
  {
    hide RenderFrom, Lexical, QuotedList, TextTokens;
    var list := TextTokens(ids, []);
    RenderedTexts(true, ids);
    assert "" + (QuotedList(ids) + ")") == QuotedList(ids) + ")";
    OpenToken(list);
    SpacedToken(IN, [OPEN] + list);
    SpacedToken(FieldToken(Id), [IN] + ([OPEN] + list));
    ListSpelled(QuotedList(ids) + ")");
  }

  lemma ListSpelled(x: string)
    ensures " " + "Id" + (" " + "IN" + (" (" + x)) == " Id IN (" + x
  {
  }

  lemma LookupIsWritten(ids: seq<string>)
    requires ids != [] && AllSafe(ids) && WritableQuery(LookupQuery(ids))
    ensures Written(LookupQuery(ids)) == LookupText(ids)
  {
    hide RenderFrom, Lexical, QuotedList, FieldTokens, FieldsText, ConditionTokens;
    var c := Condition(Id, In, Texts(ids));
    var where := ConditionTokens(c, []);
    assert ConditionsTokens([c], []) == where;
    var from := [FROM] + ([OPPORTUNITY] + ([WHERE] + where));
    assert QueryTokens(LookupQuery(ids)) == [SELECT] + FieldTokens(LOOKUP_FIELDS, from);
    FirstToken(SELECT, FieldTokens(LOOKUP_FIELDS, from));
    RenderedFields(LOOKUP_FIELDS, from);
    LookupFieldsText();
    SpacedToken(FROM, [OPPORTUNITY] + ([WHERE] + where));
    SpacedToken(OPPORTUNITY, [WHERE] + where);
    SpacedToken(WHERE, where);
    RenderedList(ids);
    LookupSpelled(QuotedList(ids) + ")");
  }

  lemma LookupSpelled(x: string)
    ensures "SELECT" + (" Id, StageName, IsWon" + (" " + "FROM" + (" " + "Opportunity" + (" " + "WHERE" + (" Id IN (" + x)))))
         == "SELECT Id, StageName, IsWon" + " FROM Opportunity WHERE" + " Id IN (" + x
  {
    TableSpelled(" Id IN (" + x);
    assert "SELECT" + " Id, StageName, IsWon" == "SELECT Id, StageName, IsWon";
    FourJoins("SELECT", " Id, StageName, IsWon", " FROM Opportunity WHERE", " Id IN (", x);
  }

  lemma FourJoins(a: string, b: string, c: string, d: string, e: string)
    ensures a + (b + (c + (d + e))) == a + b + c + d + e
  {
  }

  /** No id that passes the filter changes what the query asks: the deals with these ids, and nothing else. */
  lemma TextMeansTheLookup(ids: seq<string>)
    requires ids != [] && AllSafe(ids)
    ensures Meant(LookupText(ids)) == Ok(LookupQuery(ids))
  {
    hide Meant, Written, LookupText, WritableQuery;
    LookupIsWritable(ids);
    LookupIsWritten(ids);
    WrittenMeansTheQuery(LookupQuery(ids));
  }

  // ---- the lookup itself --------------------------------------------------------------------

  function StageOf(o: QueryEngine.Opp): string {
    if o.stageName.Some? then o.stageName.value else "None"
  }

  /** This deal was there, under an id the lookup asks for, when the chunk of the `j`-th id was asked for. */
  ghost predicate SeenAt(safe: seq<string>, env: nat -> Option<QueryEngine.Data>, j: nat, o: QueryEngine.Opp) {
    j < |safe| && o.id == safe[j] && env(j / CHUNK).Some? && o in env(j / CHUNK).value.opps
  }

  ghost predicate Explained(safe: seq<string>, env: nat -> Option<QueryEngine.Data>, n: nat, id: string, stage: string) {
    exists j: nat, o :: j < n && SeenAt(safe, env, j, o) && id == o.id && stage == StageOf(o)
  }

  /** Exactly the deals seen by the chunks of the first `n` ids, with their stages. */
  ghost predicate FoundUpTo(found: map<string, string>, safe: seq<string>, env: nat -> Option<QueryEngine.Data>, n: nat) {
    && (forall id :: id in found ==> Explained(safe, env, n, id, found[id]))
    && (forall j: nat, o :: j < n && SeenAt(safe, env, j, o) ==> o.id in found)
  }

  lemma ChunkAnswer(d: QueryEngine.Data, ids: seq<string>)
    ensures forall o :: o in QueryEngine.Answer(d, LookupQuery(ids)) <==> o in d.opps && o.id in ids
  {
    hide QueryEngine.Arranged, QueryEngine.Meets;
    var q := LookupQuery(ids);
    QueryEngine.ArrangedIsExact(d, q);
    forall o | o in d.opps ensures QueryEngine.Meets(d, o, q.where) <==> o.id in ids {
      MeetsLookup(d, o, ids);
    }
  }

  lemma MeetsLookup(d: QueryEngine.Data, o: QueryEngine.Opp, ids: seq<string>)
    ensures QueryEngine.Meets(d, o, LookupQuery(ids).where) <==> o.id in ids
  {
    var c := Condition(Id, In, Texts(ids));
    assert QueryEngine.Matches(QueryEngine.FieldValue(d, o, c.field), c) <==> o.id in ids;
    assert LookupQuery(ids).where[0] == c;
  }

  function WithStages(stages: map<string, string>, rows: seq<QueryEngine.Opp>): map<string, string> {
    if rows == [] then stages
    else WithStages(stages, rows[..|rows| - 1])[rows[|rows| - 1].id := StageOf(rows[|rows| - 1])]
  }

  lemma {:induction false} WithStagesAdds(stages: map<string, string>, rows: seq<QueryEngine.Opp>)
    ensures var after := WithStages(stages, rows);
            && (forall o :: o in rows ==> o.id in after)
            && (forall id :: id in stages ==> id in after)
            && (forall id :: id in after ==>
                 (id in stages && after[id] == stages[id]) || exists o :: o in rows && o.id == id && after[id] == StageOf(o))
  {
    if rows != [] {
      var init, last := rows[..|rows| - 1], rows[|rows| - 1];
      WithStagesAdds(stages, init);
      assert rows == init + [last];
      assert forall o :: o in rows <==> o in init || o == last;
      var so, after := WithStages(stages, init), WithStages(stages, rows);
      forall id | id in after
        ensures (id in stages && after[id] == stages[id]) || exists o :: o in rows && o.id == id && after[id] == StageOf(o)
      {
        if id == last.id {
          assert last in rows;
        } else if !(id in stages && so[id] == stages[id]) {
          var o :| o in init && o.id == id && so[id] == StageOf(o);
          assert o in rows;
        }
      }
    }
  }

  /** The rows of the `k`-th chunk are the deals seen at its ids. */
  ghost predicate ChunkRows(safe: seq<string>, env: nat -> Option<QueryEngine.Data>, lo: nat, hi: nat, rows: seq<QueryEngine.Opp>) {
    forall o :: o in rows <==> exists j: nat :: lo <= j < hi && SeenAt(safe, env, j, o)
  }

  lemma RowsAreSeen(safe: seq<string>, env: nat -> Option<QueryEngine.Data>, k: nat, rows: seq<QueryEngine.Opp>)
    requires k * CHUNK < |safe| && env(k).Some?
    requires forall o :: o in rows <==> o in env(k).value.opps && o.id in safe[k * CHUNK..Min((k + 1) * CHUNK, |safe|)]
    ensures ChunkRows(safe, env, k * CHUNK, Min((k + 1) * CHUNK, |safe|), rows)
  {
    var lo, hi := k * CHUNK, Min((k + 1) * CHUNK, |safe|);
    var chunk := safe[lo..hi];
    forall o ensures o in rows <==> exists j: nat :: lo <= j < hi && SeenAt(safe, env, j, o) {
      if o in rows {
        var c :| 0 <= c < |chunk| && chunk[c] == o.id;
        assert (lo + c) / CHUNK == k;
        assert SeenAt(safe, env, lo + c, o);
      }
      if j: nat :| lo <= j < hi && SeenAt(safe, env, j, o) {
        assert j / CHUNK == k && chunk[j - lo] == o.id;
      }
    }
  }

  lemma ChunkFound(found: map<string, string>, safe: seq<string>, env: nat -> Option<QueryEngine.Data>, lo: nat, hi: nat,
                   rows: seq<QueryEngine.Opp>)
    requires lo <= hi && FoundUpTo(found, safe, env, lo) && ChunkRows(safe, env, lo, hi, rows)
    ensures FoundUpTo(WithStages(found, rows), safe, env, hi)
  {
    hide SeenAt, WithStages;
    var after := WithStages(found, rows);
    WithStagesAdds(found, rows);
    forall id | id in after ensures Explained(safe, env, hi, id, after[id]) {
      if id in found && after[id] == found[id] {
        assert Explained(safe, env, lo, id, found[id]);
      } else {
        var o :| o in rows && o.id == id && after[id] == StageOf(o);
        var j: nat :| lo <= j < hi && SeenAt(safe, env, j, o);
      }
    }
    forall j: nat, o | j < hi && SeenAt(safe, env, j, o) ensures o.id in after {
      assert j >= lo ==> o in rows;
    }
  }

  /** Ask one chunk in SOQL text. */
  method Ask(chunk: seq<string>, org: QueryEngine.Data) returns (rows: seq<QueryEngine.Opp>)
    requires chunk != [] && AllSafe(chunk)
    ensures forall o :: o in rows <==> o in org.opps && o.id in chunk
  {
    hide Meant, LookupText, LookupQuery, QueryEngine.Answer, AllSafe;
    TextMeansTheLookup(chunk);
    ChunkAnswer(org, chunk);
    var q := Parser.Parse(LookupText(chunk));
    rows := QueryEngine.Answer(org, q.value);
  }

  method Record(stages: map<string, string>, rows: seq<QueryEngine.Opp>) returns (found: map<string, string>)
    ensures found == WithStages(stages, rows)
  {
    found := stages;
    for i := 0 to |rows|
      invariant found == WithStages(stages, rows[..i])
    {
      assert rows[..i + 1][..i] == rows[..i];
      found := found[rows[i].id := StageOf(rows[i])];
    }
    assert rows[..|rows|] == rows;
  }

  /** Ask for the safe ids in chunks; `env(k)` is the org when the k-th chunk is asked for, or None if that query
    * fails. The deals found are exactly those, whatever else changes between chunks. */
  method Lookup(ids: seq<string>, env: nat -> Option<QueryEngine.Data>) returns (found: Option<map<string, string>>)
    ensures found.Some? ==> FoundUpTo(found.value, Safe(ids), env, |Safe(ids)|)
    ensures found.None? <==> exists k: nat :: k * CHUNK < |Safe(ids)| && env(k).None?
  {
    hide SeenAt, IsSalesforceId, WithStages, ChunkRows;
    var safe := Safe(ids);
    var stages: map<string, string> := map[];
    var k := 0;
    while k * CHUNK < |safe|
      invariant forall m: nat :: m < k ==> env(m).Some?
      invariant FoundUpTo(stages, safe, env, Min(k * CHUNK, |safe|))
      decreases |safe| - k * CHUNK
    {
      if env(k).None? {
        return None;
      }
      var n := Min((k + 1) * CHUNK, |safe|);
      var rows := Ask(safe[k * CHUNK..n], env(k).value);
      RowsAreSeen(safe, env, k, rows);
      ChunkFound(stages, safe, env, k * CHUNK, n, rows);
      stages := Record(stages, rows);
      k := k + 1;
    }
    return Some(stages);
  }

  /** A deal without a stage is at the stage "None". */
  predicate AtStage(o: QueryEngine.Opp, stage: string) {
    o.stageName == Some(stage) || (o.stageName == None && stage == "None")
  }

  ghost predicate HasDeal(d: QueryEngine.Data, id: string, stage: string) {
    exists o :: o in d.opps && o.id == id && AtStage(o, stage)
  }

  /** The org as every chunk finds it. */
  ghost function Always(d: QueryEngine.Data): nat -> Option<QueryEngine.Data> {
    k => Some(d)
  }

  /** Over an org that does not change, what is found is the stage of every deal with an id that was asked for. */
  lemma LookupOfTheSame(ids: seq<string>, d: QueryEngine.Data, found: map<string, string>, id: string)
    requires QueryEngine.DistinctIds(d.opps) && FoundUpTo(found, Safe(ids), Always(d), |Safe(ids)|)
    requires id in ids && IsSalesforceId(id)
    ensures forall stage :: id in found && found[id] == stage <==> HasDeal(d, id, stage)
  {
    hide IsSalesforceId, FoundUpTo, AtStage, StageOf;
    if id in found {
      FoundIsDeal(Safe(ids), d, found, id);
    }
    forall stage | HasDeal(d, id, stage) ensures id in found {
      var o :| o in d.opps && o.id == id && AtStage(o, stage);
      DealIsFound(Safe(ids), d, found, o);
    }
  }

  lemma FoundIsDeal(safe: seq<string>, d: QueryEngine.Data, found: map<string, string>, id: string)
    requires QueryEngine.DistinctIds(d.opps) && FoundUpTo(found, safe, Always(d), |safe|) && id in found
    ensures forall stage :: HasDeal(d, id, stage) <==> stage == found[id]
  {
    var env := Always(d);
    assert Explained(safe, env, |safe|, id, found[id]);
    var j: nat, p :| j < |safe| && SeenAt(safe, env, j, p) && id == p.id && found[id] == StageOf(p);
    forall o | o in d.opps && o.id == id ensures o == p {
    }
    assert AtStage(p, found[id]);
  }

  lemma DealIsFound(safe: seq<string>, d: QueryEngine.Data, found: map<string, string>, o: QueryEngine.Opp)
    requires FoundUpTo(found, safe, Always(d), |safe|) && o in d.opps && o.id in safe
    ensures o.id in found
  {
    var j :| 0 <= j < |safe| && safe[j] == o.id;
    assert SeenAt(safe, Always(d), j, o);
  }

  /** The report and the lookup together, over an org that does not change: an order with a well-formed id is reported
    * as not found exactly when it is an orphan and no deal has its id, and as not won, with that deal's stage, exactly
    * when one has. */
  lemma ReportTellsTheOrg(drift: seq<Reconcile.Drift>, rows: seq<Events.SfRow>, versions: map<string, int>,
                          orphans: seq<string>, d: QueryEngine.Data, found: map<string, string>, id: string)
    requires QueryEngine.DistinctIds(d.opps) && FoundUpTo(found, Safe(orphans), Always(d), |Safe(orphans)|)
    requires Reconcile.ListsOrphans(orphans, versions, rows) && Reconcile.ReportsOrphans(drift, rows, versions, found)
    requires IsSalesforceId(id)
    ensures Reconcile.Drift(Reconcile.NotFound, id) in drift <==>
              Reconcile.Orphan(id, versions, rows) && !exists stage :: HasDeal(d, id, stage)
    ensures forall stage :: Reconcile.Drift(Reconcile.NotWon(stage), id) in drift <==>
              Reconcile.Orphan(id, versions, rows) && HasDeal(d, id, stage)
  {
    hide IsSalesforceId, FoundUpTo, HasDeal, Reconcile.Orphan;
    if Reconcile.Orphan(id, versions, rows) {
      LookupOfTheSame(orphans, d, found, id);
      if id in found {
        assert HasDeal(d, id, found[id]);
      }
    }
  }
}
