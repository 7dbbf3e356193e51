/** The message between the pollers and the worker: one Closed Won deal at one version. */
module Events {
  import opened Prelude
  import opened Calendar
  import opened Decimals

  /** A parsed JSON value. Whole numbers and numbers with a fraction are different types to the worker. */
  datatype Json =
    | JNull
    | JBool(b: bool)
    | JInt(n: int)
    | JDec(d: Decimal)
    | JNonFinite
    | JStr(s: string)
    | JList(items: seq<Json>)
    | JObj(fields: map<string, Json>)

  type JsonObject = map<string, Json>

  /** A key that is missing reads like one that is null. */
  function Get(o: JsonObject, name: string): Json {
    if name in o then o[name] else JNull
  }

  /** One row of the Closed Won query; `stamp` is its SystemModstamp. */
  datatype SfRow = SfRow(
    id: string,
    name: string,
    accountId: Option<string>,
    accountName: Option<string>,
    amount: Option<Decimal>,
    closeDate: Option<string>,
    stageName: string,
    stamp: int)

  /** A row as published. */
  datatype Event = Event(row: SfRow, publishedAt: int)

  const SCHEMA := "relay.opportunity.v1"

  function TextOrNull(v: Option<string>): Json {
    if v.Some? then JStr(v.value) else JNull
  }

  function NumberOrNull(v: Option<Decimal>): Json {
    if v.Some? then JDec(v.value) else JNull
  }

  /** `Normalised`, and some fixed text for instants before year 1, which no org has. */
  function StampText(t: int): string {
    if t + EPOCH >= 0 then Normalised(t) else "-"
  }

  /** The same in whole seconds. */
  function SecondText(t: int): string {
    if t + EPOCH >= 0 then Literal(t) else "-"
  }

  function EventKey(id: string, stamp: int): string {
    id + ":" + StampText(stamp)
  }

  /** The message body built from one row: nulls stay null, and the version is the stamp in milliseconds. */
  function FromSalesforce(e: Event): JsonObject {
    map[
      "schema" := JStr(SCHEMA),
      "event_key" := JStr(EventKey(e.row.id, e.row.stamp)),
      "version" := JInt(e.row.stamp),
      "opportunity" := JObj(map[
        "id" := JStr(e.row.id),
        "name" := JStr(e.row.name),
        "stage_name" := JStr(e.row.stageName),
        "amount" := NumberOrNull(e.row.amount),
        "close_date" := TextOrNull(e.row.closeDate),
        "account_id" := TextOrNull(e.row.accountId),
        "account_name" := TextOrNull(e.row.accountName),
        "system_modstamp" := JStr(StampText(e.row.stamp))
      ]),
      "published_at" := JStr(SecondText(e.publishedAt))
    ]
  }

  /** What a message says besides what the worker reads: the stage, and when it was published, to the second. */
  lemma MessageTells(e: Event)
    requires Representable(e.publishedAt)
    ensures var message := FromSalesforce(e);
            && Get(message, "opportunity").JObj?
            && Get(Get(message, "opportunity").fields, "stage_name") == JStr(e.row.stageName)
            && Get(message, "published_at").JStr?
            && var text := Get(message, "published_at").s;
            && 0 < |text| == InstantLength(text) && ParseInstant(text) == Some(Truncate(e.publishedAt))
  {
    LiteralParses(e.publishedAt, "");
    assert Literal(e.publishedAt) + "" == Literal(e.publishedAt);
  }

  /** An event key names one version of one deal. */
  lemma EventKeyIsInjective(id1: string, stamp1: int, id2: string, stamp2: int)
    requires Representable(stamp1) && Representable(stamp2)
    requires EventKey(id1, stamp1) == EventKey(id2, stamp2)
    ensures id1 == id2 && stamp1 == stamp2
  {
    KeyParts(id1, stamp1);
    KeyParts(id2, stamp2);
    NormalisedParses(stamp1, "");
    NormalisedParses(stamp2, "");
  }

  /** The id is whatever comes before the last 25 characters. */
  lemma KeyParts(id: string, stamp: int)
    requires Representable(stamp)
    ensures var k := EventKey(id, stamp);
            |k| >= 25 && k[|k| - 24..] == Normalised(stamp) && k[..|k| - 25] == id
  {
    NormalisedParses(stamp, "");
  }
}
