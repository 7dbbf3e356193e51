/** Validation of one event and its mapping to an ERP order, shared by the worker and the reconciler. */
module Mapping {
  import opened Prelude
  import opened Calendar
  import opened Decimals
  import opened Events

  /** One deal, validated and mapped to ERP fields. */
  datatype Order = Order(
    orderId: string,
    customerId: string,
    customerName: string,
    opportunityName: string,
    total: Decimal,
    orderDate: string,
    version: int,
    sourceModstamp: string,
    eventKey: string)

  /** The message itself is wrong; `reason` is a short code. */
  datatype PermanentError = PermanentError(reason: string, detail: string)

  /** A message body as the queue carries it: text that is not JSON, or a parsed value. */
  datatype Body = Malformed | Parsed(json: Json)

  function ParseBody(body: Body): Result<JsonObject, PermanentError> {
    match body
    case Malformed => Err(PermanentError("malformed_json", "not JSON"))
    case Parsed(JObj(fields)) => Ok(fields)
    case Parsed(_) => Err(PermanentError("malformed_json", "body is not a JSON object"))
  }

  function RequiredStr(o: JsonObject, name: string): Result<string, PermanentError> {
    match Get(o, name)
    case JStr(s) => if s == "" then Err(PermanentError("missing_field", name)) else Ok(s)
    case _ => Err(PermanentError("missing_field", name))
  }

  /** The decimal a JSON value spells, if it spells a finite one. */
  function DecimalOf(v: Json): Option<Decimal> {
    match v
    case JInt(n) => Some(Decimal(n, 0))
    case JDec(d) => Some(d)
    case JStr(s) => ReadDecimal(s)
    case _ => None
  }

  function Amount(v: Json): Result<Decimal, PermanentError> {
    match DecimalOf(v)
    case Some(d) => if d.unscaled < 0 then Err(PermanentError("invalid_field", "amount")) else Ok(d)
    case None => Err(PermanentError("invalid_field", "amount"))
  }

  /** Four digits, two, two, joined by minus signs. One newline may follow. */
  predicate IsDate(s: string) {
    DateShape(s) && (|s| == 10 || (|s| == 11 && s[10] == '\n'))
  }

  function NameOf(v: Json): string {
    match v
    case JStr(s) => s
    case _ => ""
  }

  /** Check one event field by field and map it; the first failing check names the error. */
  function ToOrder(event: JsonObject): Result<Order, PermanentError> {
    if Get(event, "schema") != JStr(SCHEMA) then Err(PermanentError("unknown_schema", NameOf(Get(event, "schema"))))
    else if !Get(event, "opportunity").JObj? then Err(PermanentError("missing_field", "opportunity"))
    else
      var opp := Get(event, "opportunity").fields;
      var orderId :- RequiredStr(opp, "id");
      var eventKey :- RequiredStr(event, "event_key");
      var version := Get(event, "version");
      if !version.JInt? || version.n <= 0 then Err(PermanentError("invalid_field", "version"))
      else MapDeal(opp, orderId, eventKey, version.n)
  }

  /** The checks on the deal itself, once the envelope is known to be sound. */
  function MapDeal(opp: JsonObject, orderId: string, eventKey: string, version: int): Result<Order, PermanentError> {
    if Get(opp, "account_id") == JNull || Get(opp, "account_id") == JStr("") then
      Err(PermanentError("missing_account", "the deal has no Account"))
    else if Get(opp, "amount") == JNull then Err(PermanentError("missing_amount", "the deal has no Amount"))
    else
      var total :- Amount(Get(opp, "amount"));
      var closeDate :- RequiredStr(opp, "close_date");
      if !IsDate(closeDate) then Err(PermanentError("invalid_field", "close_date"))
      else
        var customerId :- RequiredStr(opp, "account_id");
        var customerName :- RequiredStr(opp, "account_name");
        var sourceModstamp :- RequiredStr(opp, "system_modstamp");
        Ok(Order(orderId, customerId, customerName, NameOf(Get(opp, "name")), total, closeDate, version,
                 sourceModstamp, eventKey))
  }

  /** What the worker does with a message body. */
  function Decode(body: Body): Result<Order, PermanentError> {
    var event :- ParseBody(body);
    ToOrder(event)
  }

  predicate Given(v: Option<string>) {
    v.Some? && v.value != ""
  }

  /** The rows that can become an order. */
  predicate Mappable(row: SfRow) {
    && row.id != "" && row.stamp > 0
    && Given(row.accountId) && Given(row.accountName)
    && row.amount.Some? && row.amount.value.unscaled >= 0
    && row.closeDate.Some? && IsDate(row.closeDate.value)
  }

  function OrderOf(row: SfRow): Order
    requires Mappable(row)
  {
    Order(row.id, row.accountId.value, row.accountName.value, row.name, row.amount.value, row.closeDate.value, row.stamp,
          StampText(row.stamp), EventKey(row.id, row.stamp))
  }

  function Wire(e: Event): Body {
    Parsed(JObj(FromSalesforce(e)))
  }

  /** An object whose fields are the ones a row is published with. */
  predicate Carries(event: JsonObject, row: SfRow) {
    && Get(event, "schema") == JStr(SCHEMA) && Get(event, "version") == JInt(row.stamp)
    && Get(event, "event_key") == JStr(EventKey(row.id, row.stamp))
    && Get(event, "opportunity").JObj?
    && var opp := Get(event, "opportunity").fields;
    && Get(opp, "id") == JStr(row.id) && Get(opp, "name") == JStr(row.name)
    && Get(opp, "amount") == NumberOrNull(row.amount)
    && Get(opp, "close_date") == TextOrNull(row.closeDate)
    && Get(opp, "account_id") == TextOrNull(row.accountId)
    && Get(opp, "account_name") == TextOrNull(row.accountName)
    && Get(opp, "system_modstamp") == JStr(StampText(row.stamp))
  }

  lemma WireCarries(e: Event)
    ensures Carries(FromSalesforce(e), e.row)
  {
  }

  lemma KeysAreText(row: SfRow)
    ensures EventKey(row.id, row.stamp) != "" && StampText(row.stamp) != ""
  {
  }

  /** Publishing a row and decoding the message gives the row's order exactly when the row can become one. */
  lemma DecodeWire(e: Event)
    ensures Decode(Wire(e)).Ok? <==> Mappable(e.row)
    ensures Mappable(e.row) ==> Decode(Wire(e)) == Ok(OrderOf(e.row))
  {
    WireCarries(e);
    WireDecodes(e);
    DecodeCarried(FromSalesforce(e), e.row);
  }

  lemma MapCarriedDeal(opp: JsonObject, event: JsonObject, row: SfRow)
    requires Carries(event, row) && Get(event, "opportunity") == JObj(opp) && row.id != "" && row.stamp > 0
    ensures var r := MapDeal(opp, row.id, EventKey(row.id, row.stamp), row.stamp);
            if Mappable(row) then r == Ok(OrderOf(row)) else r.Err?
  {
    KeysAreText(row);
  }

  /** The envelope of a published row is sound when the row has an id and a positive stamp. */
  lemma EnvelopeOpens(event: JsonObject, row: SfRow)
    requires Carries(event, row)
    ensures var opp := Get(event, "opportunity").fields;
            if row.id != "" && row.stamp > 0 then ToOrder(event) == MapDeal(opp, row.id, EventKey(row.id, row.stamp), row.stamp)
            else ToOrder(event).Err?
  {
    KeysAreText(row);
    var opp := Get(event, "opportunity").fields;
    assert row.id != "" ==> RequiredStr(opp, "id") == Ok(row.id);
    assert RequiredStr(event, "event_key") == Ok(EventKey(row.id, row.stamp));
  }

  lemma DecodeCarried(event: JsonObject, row: SfRow)
    requires Carries(event, row)
    ensures ToOrder(event).Ok? <==> Mappable(row)
    ensures Mappable(row) ==> ToOrder(event) == Ok(OrderOf(row))
  {
    EnvelopeOpens(event, row);
    if row.id != "" && row.stamp > 0 {
      MapCarriedDeal(Get(event, "opportunity").fields, event, row);
    }
  }

  /** Which error an unmappable row gets: missing data is reported in this order. */
  lemma RejectionReason(e: Event)
    requires e.row.id != "" && e.row.stamp > 0 && (!Given(e.row.accountId) || e.row.amount.None? || e.row.amount.value.unscaled < 0)
    ensures Decode(Wire(e)).Err?
    ensures Decode(Wire(e)).error.reason ==
              if !Given(e.row.accountId) then "missing_account"
              else if e.row.amount.None? then "missing_amount"
              else "invalid_field"
  {
    var event := FromSalesforce(e);
    WireCarries(e);
    EnvelopeOpens(event, e.row);
    DealIsRejected(event, e.row);
    WireDecodes(e);
  }

  lemma WireDecodes(e: Event)
    ensures Decode(Wire(e)) == ToOrder(FromSalesforce(e))
  {
  }

  lemma DealIsRejected(event: JsonObject, row: SfRow)
    requires Carries(event, row) && (!Given(row.accountId) || row.amount.None? || row.amount.value.unscaled < 0)
    ensures var r := MapDeal(Get(event, "opportunity").fields, row.id, EventKey(row.id, row.stamp), row.stamp);
            r.Err? && r.error.reason ==
              if !Given(row.accountId) then "missing_account"
              else if row.amount.None? then "missing_amount"
              else "invalid_field"
  {
    if Given(row.accountId) && row.amount.Some? {
      assert Amount(JDec(row.amount.value)).Err?;
    }
  }

  predicate NonEmptyText(v: Json) {
    v.JStr? && v.s != ""
  }

  predicate GoodAmount(v: Json) {
    DecimalOf(v).Some? && DecimalOf(v).value.unscaled >= 0
  }

  /** A message the worker can turn into an order, field by field. */
  predicate Acceptable(event: JsonObject) {
    && Get(event, "schema") == JStr(SCHEMA) && NonEmptyText(Get(event, "event_key"))
    && Get(event, "version").JInt? && Get(event, "version").n > 0
    && Get(event, "opportunity").JObj?
    && var opp := Get(event, "opportunity").fields;
    && NonEmptyText(Get(opp, "id")) && NonEmptyText(Get(opp, "account_id")) && NonEmptyText(Get(opp, "account_name"))
    && NonEmptyText(Get(opp, "system_modstamp")) && GoodAmount(Get(opp, "amount"))
    && NonEmptyText(Get(opp, "close_date")) && IsDate(Get(opp, "close_date").s)
  }

  /** The checks in their order accept exactly the acceptable messages, from whatever sender, and the order carries
    * the message's own fields. */
  lemma AcceptedExactly(event: JsonObject)
    ensures ToOrder(event).Ok? <==> Acceptable(event)
    ensures ToOrder(event).Ok? ==>
              var o, opp := ToOrder(event).value, Get(event, "opportunity").fields;
              && JStr(o.orderId) == Get(opp, "id") && JStr(o.eventKey) == Get(event, "event_key")
              && JInt(o.version) == Get(event, "version") && Some(o.total) == DecimalOf(Get(opp, "amount"))
              && JStr(o.orderDate) == Get(opp, "close_date") && JStr(o.sourceModstamp) == Get(opp, "system_modstamp")
              && JStr(o.customerId) == Get(opp, "account_id") && JStr(o.customerName) == Get(opp, "account_name")
              && o.opportunityName == NameOf(Get(opp, "name"))
  {
    hide DecimalOf, IsDate, Get;
    if Get(event, "opportunity").JObj? {
      DealIsAcceptedExactly(Get(event, "opportunity").fields);
    }
  }

  lemma DealIsAcceptedExactly(opp: JsonObject)
    ensures forall id, key, version ::
              var r := MapDeal(opp, id, key, version);
              && (r.Ok? <==>
                   && NonEmptyText(Get(opp, "account_id")) && NonEmptyText(Get(opp, "account_name"))
                   && NonEmptyText(Get(opp, "system_modstamp")) && GoodAmount(Get(opp, "amount"))
                   && NonEmptyText(Get(opp, "close_date")) && IsDate(Get(opp, "close_date").s))
              && (r.Ok? ==>
                   && r.value.orderId == id && r.value.eventKey == key && r.value.version == version
                   && Some(r.value.total) == DecimalOf(Get(opp, "amount"))
                   && JStr(r.value.orderDate) == Get(opp, "close_date")
                   && JStr(r.value.sourceModstamp) == Get(opp, "system_modstamp")
                   && JStr(r.value.customerId) == Get(opp, "account_id")
                   && JStr(r.value.customerName) == Get(opp, "account_name")
                   && r.value.opportunityName == NameOf(Get(opp, "name")))
  {
    hide IsDate, Get;
    assert DecimalOf(JNull) == None;
  }

  /** The message's envelope is sound: a known schema, a deal with an id, a key and a positive version. */
  predicate Opens(event: JsonObject) {
    && Get(event, "schema") == JStr(SCHEMA) && Get(event, "opportunity").JObj?
    && NonEmptyText(Get(Get(event, "opportunity").fields, "id")) && NonEmptyText(Get(event, "event_key"))
    && Get(event, "version").JInt? && Get(event, "version").n > 0
  }

  /** The deal is named and so is its event, but the version is not a positive whole number. */
  predicate BadVersion(event: JsonObject) {
    && Get(event, "opportunity").JObj? && NonEmptyText(Get(Get(event, "opportunity").fields, "id"))
    && NonEmptyText(Get(event, "event_key"))
    && !(Get(event, "version").JInt? && Get(event, "version").n > 0)
  }

  /** Which reason a rejected message gets, each with its exact condition. */
  lemma ReasonExactly(body: Body)
    requires Decode(body).Err?
    ensures Decode(body).error.reason == "malformed_json" <==> !body.Parsed? || !body.json.JObj?
    ensures body.Parsed? && body.json.JObj? ==>
              var event, reason := body.json.fields, Decode(body).error.reason;
              var opp := if Get(event, "opportunity").JObj? then Get(event, "opportunity").fields else map[];
              var known := Get(event, "schema") == JStr(SCHEMA);
              var noAccount := Get(opp, "account_id") in {JNull, JStr("")};
              var amount, date := Get(opp, "amount"), Get(opp, "close_date");
              && (reason == "unknown_schema" <==> !known)
              && (reason == "missing_account" <==> Opens(event) && noAccount)
              && (reason == "missing_amount" <==> Opens(event) && !noAccount && amount == JNull)
              && (reason == "invalid_field" <==>
                    || (known && BadVersion(event))
                    || (Opens(event) && !noAccount && amount != JNull
                        && (!GoodAmount(amount) || (NonEmptyText(date) && !IsDate(date.s)))))
              && reason in {"unknown_schema", "missing_field", "invalid_field", "missing_account", "missing_amount"}
  {
    hide IsDate, Get;
    if body.Parsed? && body.json.JObj? {
      assert Decode(body) == ToOrder(body.json.fields);
      assert DecimalOf(JNull) == None;
    }
  }

  /** What a row shows is what its order says. */
  lemma FieldsArrive(e: Event)
    requires Mappable(e.row)
    ensures Decode(Wire(e)).Ok?
    ensures var o, x := Decode(Wire(e)).value, e.row;
            && o.orderId == x.id && o.opportunityName == x.name && o.version == x.stamp
            && Some(o.customerId) == x.accountId && Some(o.customerName) == x.accountName
            && Some(o.total) == x.amount && Some(o.orderDate) == x.closeDate
            && o.eventKey == x.id + ":" + StampText(x.stamp) && o.sourceModstamp == StampText(x.stamp)
  {
    DecodeWire(e);
  }

  /** A decoded order always carries what the ERP write relies on, whatever the message was. */
  lemma DecodedOrderIsSound(body: Body)
    requires Decode(body).Ok?
    ensures var o := Decode(body).value;
            && o.version > 0 && o.total.unscaled >= 0 && IsDate(o.orderDate)
            && "" !in {o.orderId, o.customerId, o.customerName, o.sourceModstamp, o.eventKey}
  {
    var event := ParseBody(body).value;
    assert Decode(body) == ToOrder(event);
  }

  /** Of everything that could follow a proper date, the date check lets exactly one newline through, and the order
    * then carries it. */
  lemma NewlineDateIsMapped(row: SfRow, tail: string)
    requires Mappable(row) && |row.closeDate.value| == 10
    ensures var longer := row.(closeDate := Some(row.closeDate.value + tail));
            && (Mappable(longer) <==> tail == "" || tail == "\n")
            && (Mappable(longer) ==> OrderOf(longer).orderDate == row.closeDate.value + tail)
  {
    var s := row.closeDate.value + tail;
    assert DateShape(s);
    if |s| == 11 {
      assert s[10] == tail[0] && tail == [tail[0]];
    }
  }
}
