/** The ERP: three tables, one conditional transaction, and what its answers mean. */
module Erp {
  import opened Prelude
  import opened Decimals
  import opened Mapping

  datatype OrderRow = OrderRow(
    customerId: string,
    customerName: string,
    opportunityName: string,
    total: Decimal,
    orderDate: string,
    version: int,
    sourceModstamp: string,
    eventKey: string,
    revision: int,
    createdAt: string,
    updatedAt: string)

  datatype InvoiceRow = InvoiceRow(
    orderId: string,
    customerId: string,
    amount: Decimal,
    issueDate: string,
    status: string,
    version: int,
    eventKey: string,
    createdAt: string,
    updatedAt: string)

  datatype CustomerRow = CustomerRow(name: string, lastEventKey: string, createdAt: string, updatedAt: string)

  datatype Tables = Tables(
    orders: map<string, OrderRow>,
    invoices: map<string, InvoiceRow>,
    customers: map<string, CustomerRow>)

  const EMPTY := Tables(map[], map[], map[])

  function InvoiceId(orderId: string): string {
    "INV-" + orderId
  }

  function Find<V>(m: map<string, V>, k: string): Option<V> {
    if k in m then Some(m[k]) else None
  }

  // ---- the transaction --------------------------------------------------------

  /** The order's condition: no order yet, or an older one. */
  predicate Accepts(t: Tables, o: Order) {
    o.orderId !in t.orders || t.orders[o.orderId].version < o.version
  }

  function NewOrder(before: Option<OrderRow>, o: Order, now: string): OrderRow {
    OrderRow(o.customerId, o.customerName, o.opportunityName, o.total, o.orderDate, o.version, o.sourceModstamp,
             o.eventKey,
             (if before.Some? then before.value.revision else 0) + 1,
             if before.Some? then before.value.createdAt else now,
             now)
  }

  function NewInvoice(before: Option<InvoiceRow>, o: Order, now: string): InvoiceRow {
    InvoiceRow(o.orderId, o.customerId, o.total, o.orderDate, "ISSUED", o.version, o.eventKey,
               if before.Some? then before.value.createdAt else now, now)
  }

  function NewCustomer(before: Option<CustomerRow>, o: Order, now: string): CustomerRow {
    CustomerRow(o.customerName, o.eventKey, if before.Some? then before.value.createdAt else now, now)
  }

  /** Three updates or none. */
  function Transact(t: Tables, o: Order, now: string): Tables {
    if !Accepts(t, o) then t
    else Tables(
      t.orders[o.orderId := NewOrder(Find(t.orders, o.orderId), o, now)],
      t.invoices[InvoiceId(o.orderId) := NewInvoice(Find(t.invoices, InvoiceId(o.orderId)), o, now)],
      t.customers[o.customerId := NewCustomer(Find(t.customers, o.customerId), o, now)])
  }

  /** The stored order is at the incoming version or past it. */
  predicate Stored(t: Tables, orderId: string, version: int) {
    orderId in t.orders && t.orders[orderId].version >= version
  }

  // ---- answers and their classification -----------------------------------------

  datatype Reason = Reason(code: string, item: Option<OrderRow>)
  datatype ClientError = ClientError(code: string, reasons: seq<Reason>)

  datatype WriteResult = Written | Duplicate | Stale
  datatype ErpError = Unavailable | Rejected | Unexpected(code: string)

  const CANCELED := "TransactionCanceledException"
  const CHECK_FAILED := "ConditionalCheckFailed"

  const TRANSIENT_CODES: set<string> := {
    "TransactionConflict", "ThrottlingError", "ProvisionedThroughputExceeded", "RequestLimitExceeded" }
  const TRANSIENT_ERRORS: set<string> := {
    "ProvisionedThroughputExceededException", "ThrottlingException", "RequestLimitExceeded",
    "TransactionInProgressException", "InternalServerError", "ServiceUnavailable" }

  predicate ConditionFailed(err: ClientError) {
    err.code == CANCELED && |err.reasons| > 0 && err.reasons[0].code == CHECK_FAILED
  }

  /** Does the classification have to read the order back? */
  predicate NeedsRead(err: ClientError) {
    ConditionFailed(err) && err.reasons[0].item.None?
  }

  /** Compare the incoming version with the order that made the condition fail. */
  function Judge(stored: Option<OrderRow>, o: Order): Result<WriteResult, ErpError> {
    var version := if stored.Some? then stored.value.version else -1;
    if version == o.version then Ok(Duplicate)
    else if version > o.version then Ok(Stale)
    else Err(Unavailable)
  }

  function Classify(err: ClientError, o: Order, readBack: Option<OrderRow>): Result<WriteResult, ErpError> {
    if ConditionFailed(err) then
      Judge(if err.reasons[0].item.Some? then err.reasons[0].item else readBack, o)
    else if err.code == CANCELED then
      if exists r :: r in err.reasons && r.code in TRANSIENT_CODES then Err(Unavailable)
      else if exists r :: r in err.reasons && r.code == "ValidationError" then Err(Rejected)
      else Err(Unavailable)
    else if err.code == "ValidationException" then Err(Rejected)
    else if err.code in TRANSIENT_ERRORS then Err(Unavailable)
    else Err(Unexpected(err.code))
  }

  /** What the database does with one transaction: evaluate it, or fail with some other error, in
    * which case a lost answer may hide a committed write. */
  datatype Fate = Evaluate(withItem: bool) | Fail(err: ClientError, applied: bool)

  /** Only the database's own evaluation reports a failed condition. */
  predicate Honest(f: Fate) {
    f.Fail? ==> !ConditionFailed(f.err)
  }

  function Attempt(t: Tables, o: Order, now: string, f: Fate): (Tables, Option<ClientError>) {
    match f
    case Evaluate(withItem) =>
      if Accepts(t, o) then (Transact(t, o, now), None)
      else
        var item := if withItem then Some(t.orders[o.orderId]) else None;
        (t, Some(ClientError(CANCELED, [Reason(CHECK_FAILED, item), Reason("None", None), Reason("None", None)])))
    case Fail(err, applied) => (if applied then Transact(t, o, now) else t, Some(err))
  }

  /** One delivery that reached the ERP. */
  datatype Delivery = Delivery(order: Order, now: string)

  function Deliver(t: Tables, ds: seq<Delivery>): Tables {
    if ds == [] then t
    else Transact(Deliver(t, ds[..|ds| - 1]), ds[|ds| - 1].order, ds[|ds| - 1].now)
  }

  /** What a fallback read that raises ends in. */
  const READ_FAILED := Unexpected("ClientError")

  /** The result of an attempt, once the stored order is read back where that is needed. */
  function Answer(err: Option<ClientError>, o: Order, readFails: bool, stored: Option<OrderRow>): Result<WriteResult, ErpError> {
    if err.None? then Ok(Written)
    else if NeedsRead(err.value) && readFails then Err(READ_FAILED)
    else Classify(err.value, o, stored)
  }

  /** One write while other writers commit between the transaction and its classification. */
  function WriteSpec(t: Tables, o: Order, now: string, f: Fate, others: seq<Delivery>, readFails: bool)
    : (Tables, Result<WriteResult, ErpError>)
  {
    var (after, err) := Attempt(t, o, now, f);
    var final := Deliver(after, others);
    (final, Answer(err, o, readFails, Find(final.orders, o.orderId)))
  }

  class Database {
    var orders: map<string, OrderRow>
    var invoices: map<string, InvoiceRow>
    var customers: map<string, CustomerRow>

    constructor ()
      ensures State() == EMPTY
    {
      orders, invoices, customers := map[], map[], map[];
    }

    function State(): Tables
      reads this
    {
      Tables(orders, invoices, customers)
    }

    method TransactWriteItems(o: Order, now: string, f: Fate) returns (err: Option<ClientError>)
      modifies this
      ensures (State(), err) == Attempt(old(State()), o, now, f)
    {
      var passes := o.orderId !in orders || orders[o.orderId].version < o.version;
      if f.Evaluate? && !passes {
        var item := if f.withItem then Some(orders[o.orderId]) else None;
        return Some(ClientError(CANCELED, [Reason(CHECK_FAILED, item), Reason("None", None), Reason("None", None)]));
      }
      if (f.Evaluate? || f.applied) && passes {
        var invoiceId := InvoiceId(o.orderId);
        orders := orders[o.orderId := NewOrder(Find(orders, o.orderId), o, now)];
        invoices := invoices[invoiceId := NewInvoice(Find(invoices, invoiceId), o, now)];
        customers := customers[o.customerId := NewCustomer(Find(customers, o.customerId), o, now)];
      }
      return if f.Evaluate? then None else Some(f.err);
    }

    /** Write the order, invoice and customer, and say what happened. A result is returned only when the
      * stored order is at the incoming version or past it; everything else is an error. */
    method WriteOrder(o: Order, now: string, f: Fate, others: seq<Delivery>, readFails: bool)
      returns (r: Result<WriteResult, ErpError>)
      requires Honest(f)
      modifies this
      ensures (State(), r) == WriteSpec(old(State()), o, now, f, others, readFails)
      ensures r.Ok? ==> Stored(State(), o.orderId, o.version)
      ensures f.Evaluate? && !Accepts(old(State()), o) && f.withItem ==> Tells(r, old(orders[o.orderId]), o.version)
      ensures f.Evaluate? && !Accepts(old(State()), o) && !f.withItem && !readFails ==>
                o.orderId in orders && Tells(r, orders[o.orderId], o.version)
      ensures f.Evaluate? && Accepts(old(State()), o) <==> r == Ok(Written)
      ensures f.Fail? ==> (r == Err(Rejected) <==> InvalidData(f.err))
    {
      hide Deliver, Transact, Classify, Accepts, InvalidData, Tells;
      var err := TransactWriteItems(o, now, f);
      OtherWriters(others);
      RaceSafe(old(State()), o, now, f, others, readFails);
      if f.Fail? {
        FailureMeans(old(State()), o, now, f, others, readFails);
      } else if !Accepts(old(State()), o) {
        RefusalMeans(old(State()), o, now, f, others, readFails);
      }
      if err.None? {
        return Ok(Written);
      }
      if NeedsRead(err.value) && readFails {
        return Err(READ_FAILED);
      }
      r := Classify(err.value, o, Find(orders, o.orderId));
    }

    /** The rest of the world, writing through the same transaction. */
    method OtherWriters(others: seq<Delivery>)
      modifies this
      ensures State() == Deliver(old(State()), others)
    {
      for i := 0 to |others|
        invariant State() == Deliver(old(State()), others[..i])
      {
        var _ := TransactWriteItems(others[i].order, others[i].now, Evaluate(true));
        assert others[..i + 1][..i] == others[..i];
      }
      assert others[..|others|] == others;
    }
  }

  // ---- time only moves one way ----------------------------------------------------

  /** `b` can follow `a`: no order, invoice or customer disappears, creation times stay, versions and revisions
    * never fall, and a row whose version stays the same is the same row. */
  ghost predicate Later(a: Tables, b: Tables) {
    && (forall id :: id in a.orders ==>
         && id in b.orders
         && a.orders[id].version <= b.orders[id].version
         && a.orders[id].revision <= b.orders[id].revision
         && a.orders[id].createdAt == b.orders[id].createdAt
         && (a.orders[id].version == b.orders[id].version ==> a.orders[id] == b.orders[id]))
    && (forall id :: id in a.invoices ==> id in b.invoices && a.invoices[id].createdAt == b.invoices[id].createdAt)
    && (forall id :: id in a.customers ==> id in b.customers && a.customers[id].createdAt == b.customers[id].createdAt)
  }

  lemma TransactIsLater(t: Tables, o: Order, now: string)
    ensures Later(t, Transact(t, o, now))
    ensures Stored(Transact(t, o, now), o.orderId, o.version)
  {
  }

  lemma LaterComposes(a: Tables, b: Tables, c: Tables)
    requires Later(a, b) && Later(b, c)
    ensures Later(a, c)
  {
  }

  lemma {:induction false} DeliverIsLater(t: Tables, ds: seq<Delivery>)
    ensures Later(t, Deliver(t, ds))
  {
    if ds != [] {
      var before := Deliver(t, ds[..|ds| - 1]);
      DeliverIsLater(t, ds[..|ds| - 1]);
      TransactIsLater(before, ds[|ds| - 1].order, ds[|ds| - 1].now);
      LaterComposes(t, before, Deliver(t, ds));
    }
  }

  lemma StoredStays(a: Tables, b: Tables, orderId: string, version: int)
    requires Later(a, b) && Stored(a, orderId, version)
    ensures Stored(b, orderId, version)
  {
  }

  /** A failed condition's order was already at the incoming version or past it. */
  lemma JudgeIsSafe(t: Tables, o: Order, stored: Option<OrderRow>)
    requires stored.Some? && Find(t.orders, o.orderId) == stored
    ensures Judge(stored, o).Ok? ==> Stored(t, o.orderId, o.version)
    ensures Judge(stored, o) == Ok(Duplicate) <==> stored.value.version == o.version
    ensures Judge(stored, o) == Ok(Stale) <==> stored.value.version > o.version
  {
  }

  predicate Cites(err: ClientError, codes: set<string>) {
    exists r :: r in err.reasons && r.code in codes
  }

  /** The database refused the data itself: a conflict or a throttle in the same answer makes it worth a retry. */
  predicate InvalidData(err: ClientError) {
    || err.code == "ValidationException"
    || (err.code == CANCELED && !ConditionFailed(err) && Cites(err, {"ValidationError"}) && !Cites(err, TRANSIENT_CODES))
  }

  /** Giving up is for invalid data only; an error that is neither listed nor a cancellation is named as it is. */
  lemma RejectedExactly(err: ClientError, o: Order, readBack: Option<OrderRow>)
    ensures Classify(err, o, readBack) == Err(Rejected) <==> InvalidData(err)
    ensures Classify(err, o, readBack) == Err(Unexpected(err.code)) <==>
              err.code != CANCELED && err.code != "ValidationException" && err.code !in TRANSIENT_ERRORS
    ensures Classify(err, o, readBack).Ok? ==> ConditionFailed(err)
  {
    var invalid := {"ValidationError"};
    forall r | r in err.reasons && r.code == "ValidationError" ensures Cites(err, invalid) {
      assert r.code in invalid;
    }
  }

  /** A write reports a result only if the stored order is at the incoming version or past it, however
    * many writers commit before the fallback read; and the stored order then never falls behind again. */
  lemma RaceSafe(t: Tables, o: Order, now: string, f: Fate, others: seq<Delivery>, readFails: bool)
    requires Honest(f)
    ensures var (final, r) := WriteSpec(t, o, now, f, others, readFails);
            && Later(t, final)
            && (r.Ok? ==> Stored(final, o.orderId, o.version))
            && (r == Ok(Written) <==> f.Evaluate? && Accepts(t, o))
  {
    hide Later, Deliver, Transact;
    var (after, err) := Attempt(t, o, now, f);
    var final := Deliver(after, others);
    TransactIsLater(t, o, now);
    DeliverIsLater(t, []);
    DeliverNothing(t);
    DeliverIsLater(after, others);
    LaterComposes(t, after, final);
    if f.Evaluate? {
      if Accepts(t, o) {
        StoredStays(after, final, o.orderId, o.version);
      } else {
        StoredStays(t, final, o.orderId, o.version);
      }
    }
  }

  /** A refused write is a duplicate or stale by the order it met. */
  predicate Tells(r: Result<WriteResult, ErpError>, row: OrderRow, version: int) {
    if row.version == version then r == Ok(Duplicate)
    else if row.version > version then r == Ok(Stale)
    else r.Err?
  }

  /** What a write reports when the order's condition refuses it: duplicate when the stored version is the incoming
    * one, stale when it is higher, judged by the order the database returned or else by the one read back later; and
    * an error when that read fails. */
  lemma RefusalMeans(t: Tables, o: Order, now: string, f: Fate, others: seq<Delivery>, readFails: bool)
    requires f.Evaluate? && !Accepts(t, o)
    ensures var (final, r) := WriteSpec(t, o, now, f, others, readFails);
            && o.orderId in final.orders && final == Deliver(t, others)
            && if f.withItem then Tells(r, t.orders[o.orderId], o.version) && r.Ok?
               else if readFails then r.Err?
               else Tells(r, final.orders[o.orderId], o.version) && r.Ok?
  {
    hide Deliver;
    DeliverIsLater(t, others);
  }

  /** What it reports when the database fails for another reason: always an error, permanent exactly for invalid data,
    * whatever is stored. */
  lemma FailureMeans(t: Tables, o: Order, now: string, f: Fate, others: seq<Delivery>, readFails: bool)
    requires f.Fail? && Honest(f)
    ensures var r := WriteSpec(t, o, now, f, others, readFails).1;
            r.Err? && (r == Err(Rejected) <==> InvalidData(f.err))
  {
    hide Deliver, Transact;
    RejectedExactly(f.err, o, Find(WriteSpec(t, o, now, f, others, readFails).0.orders, o.orderId));
  }

  lemma DeliverNothing(t: Tables)
    ensures Deliver(t, []) == t
  {
  }

  /** The same promise for the interleaving itself: the read happens at any later moment. */
  lemma LateReadIsSafe(t: Tables, o: Order, err: ClientError, seen: Tables)
    requires !Accepts(t, o) && Later(t, seen) && ConditionFailed(err)
    requires err.reasons[0].item in {None, Find(t.orders, o.orderId)}
    ensures Classify(err, o, Find(seen.orders, o.orderId)).Ok?
    ensures Stored(seen, o.orderId, o.version)
  {
  }

  // ---- integrity --------------------------------------------------------------------

  /** Every order has its invoice, agreeing on every shared field, and its customer; every invoice has its order. */
  ghost predicate Integrity(t: Tables) {
    && (forall id :: id in t.orders ==> Whole(t, id))
    && (forall k :: k in t.invoices ==> t.invoices[k].orderId in t.orders && k == InvoiceId(t.invoices[k].orderId))
  }

  predicate Whole(t: Tables, id: string)
    requires id in t.orders
  {
    var order := t.orders[id];
    && InvoiceId(id) in t.invoices
    && var invoice := t.invoices[InvoiceId(id)];
    && invoice.orderId == id && invoice.customerId == order.customerId && invoice.amount == order.total
    && invoice.issueDate == order.orderDate && invoice.version == order.version && invoice.eventKey == order.eventKey
    && invoice.status == "ISSUED" && invoice.createdAt == order.createdAt && invoice.updatedAt == order.updatedAt
    && order.customerId in t.customers
    && order.revision >= 1
  }

  lemma InvoiceIdIsInjective(a: string, b: string)
    requires InvoiceId(a) == InvoiceId(b)
    ensures a == b
  {
    assert InvoiceId(a)[4..] == a && InvoiceId(b)[4..] == b;
  }

  lemma TransactKeepsIntegrity(t: Tables, o: Order, now: string)
    requires Integrity(t)
    ensures Integrity(Transact(t, o, now))
  {
    var u := Transact(t, o, now);
    if Accepts(t, o) {
      forall id | id in u.orders
        ensures Whole(u, id)
      {
        if id != o.orderId {
          assert Whole(t, id);
          if InvoiceId(id) == InvoiceId(o.orderId) {
            InvoiceIdIsInjective(id, o.orderId);
          }
        } else if id in t.orders {
          assert Whole(t, id);
        } else if InvoiceId(id) in t.invoices {
          InvoiceIdIsInjective(id, t.invoices[InvoiceId(id)].orderId);
        }
      }
    }
  }

  // ---- what a whole run of deliveries leaves behind -------------------------------------

  /** The payload of a stored order. */
  function Snapshot(id: string, row: OrderRow): Order {
    Order(id, row.customerId, row.customerName, row.opportunityName, row.total, row.orderDate, row.version,
          row.sourceModstamp, row.eventKey)
  }

  /** The deliveries of one deal. */
  function Of(id: string, ds: seq<Delivery>): (r: seq<Delivery>)
    ensures forall i :: 0 <= i < |r| ==> r[i].order.orderId == id
  {
    if ds == [] then []
    else
      var last := ds[|ds| - 1];
      Of(id, ds[..|ds| - 1]) + (if last.order.orderId == id then [last] else [])
  }

  /** The first delivery of the highest version. */
  ghost predicate FirstOfHighest(ds: seq<Delivery>, k: nat) {
    && k < |ds|
    && (forall i :: 0 <= i < |ds| ==> ds[i].order.version <= ds[k].order.version)
    && (forall i :: 0 <= i < k ==> ds[i].order.version < ds[k].order.version)
  }

  function Highest(ds: seq<Delivery>): (k: nat)
    requires ds != []
    ensures FirstOfHighest(ds, k)
  {
    if |ds| == 1 then 0
    else
      var k := Highest(ds[..|ds| - 1]);
      if ds[k].order.version < ds[|ds| - 1].order.version then |ds| - 1 else k
  }

  /** The deliveries newer than every delivery before them. */
  ghost function Records(ds: seq<Delivery>): set<nat> {
    set i: nat | i < |ds| && forall j :: 0 <= j < i ==> ds[j].order.version < ds[i].order.version
  }

  lemma {:induction false} DeliverOnlyOwn(ds: seq<Delivery>, id: string)
    ensures Find(Deliver(EMPTY, ds).orders, id) == Find(Deliver(EMPTY, Of(id, ds)).orders, id)
  {
    if ds != [] {
      var init, last := ds[..|ds| - 1], ds[|ds| - 1];
      DeliverOnlyOwn(init, id);
      if last.order.orderId == id {
        assert Of(id, ds)[..|Of(id, ds)| - 1] == Of(id, init);
      } else {
        assert Of(id, ds) == Of(id, init);
      }
    }
  }

  lemma RecordsGrow(ds: seq<Delivery>)
    requires ds != []
    ensures var init, n := ds[..|ds| - 1], |ds| - 1;
            Records(ds) == (if n in Records(ds) then Records(init) + {n} else Records(init)) && n !in Records(init)
  {
    var init, n := ds[..|ds| - 1], |ds| - 1;
    assert forall i :: 0 <= i < n ==> init[i] == ds[i];
    assert forall i: nat | i < n :: i in Records(ds) <==> i in Records(init);
  }

  /** What one deal's deliveries leave behind: the first delivery of the highest version, created at the first
    * delivery, with one revision for each delivery newer than all before it. */
  ghost predicate LeftBehind(row: OrderRow, ds: seq<Delivery>, id: string)
    requires ds != []
  {
    && Snapshot(id, row) == ds[Highest(ds)].order
    && row.updatedAt == ds[Highest(ds)].now
    && row.createdAt == ds[0].now
    && row.revision == |Records(ds)|
  }

  lemma {:induction false} OwnDeliveries(ds: seq<Delivery>, id: string)
    requires ds != [] && forall i :: 0 <= i < |ds| ==> ds[i].order.orderId == id
    ensures id in Deliver(EMPTY, ds).orders && LeftBehind(Deliver(EMPTY, ds).orders[id], ds, id)
  {
    var init, n := ds[..|ds| - 1], |ds| - 1;
    RecordsGrow(ds);
    if init == [] {
      assert Records(init) == {} && 0 in Records(ds);
      assert Deliver(EMPTY, init) == EMPTY;
    } else {
      OwnDeliveries(init, id);
      NewestIsRecord(ds);
    }
  }

  lemma NewestIsRecord(ds: seq<Delivery>)
    requires |ds| > 1
    ensures var init, n := ds[..|ds| - 1], |ds| - 1;
            n in Records(ds) <==> init[Highest(init)].order.version < ds[n].order.version
  {
    var init := ds[..|ds| - 1];
    assert forall i :: 0 <= i < |init| ==> init[i] == ds[i];
    assert FirstOfHighest(init, Highest(init));
  }

  /** For any deliveries of any deals, with duplicates and in any order. */
  lemma DeliveryFold(ds: seq<Delivery>, id: string)
    ensures id in Deliver(EMPTY, ds).orders <==> Of(id, ds) != []
    ensures Of(id, ds) != [] ==> LeftBehind(Deliver(EMPTY, ds).orders[id], Of(id, ds), id)
  {
    DeliverOnlyOwn(ds, id);
    if Of(id, ds) != [] {
      OwnDeliveries(Of(id, ds), id);
    }
  }

  lemma {:induction false} OfMembers(id: string, ds: seq<Delivery>)
    ensures forall d :: d in Of(id, ds) <==> d in ds && d.order.orderId == id
  {
    if ds != [] {
      OfMembers(id, ds[..|ds| - 1]);
      assert ds == ds[..|ds| - 1] + [ds[|ds| - 1]];
    }
  }

  ghost predicate Delivered(o: Order, ds: seq<Delivery>) {
    exists d :: d in ds && d.order == o
  }

  /** The same orders were delivered, however often and in whatever order. */
  ghost predicate SameOrders(a: seq<Delivery>, b: seq<Delivery>) {
    forall o :: Delivered(o, a) <==> Delivered(o, b)
  }

  /** One deal at one version has one payload. */
  ghost predicate PayloadByVersion(ds: seq<Delivery>) {
    forall d, e :: d in ds && e in ds && d.order.orderId == e.order.orderId && d.order.version == e.order.version
                   ==> d.order == e.order
  }

  /** Reordering and repeating deliveries changes no stored payload. */
  lemma DeliveryConverges(a: seq<Delivery>, b: seq<Delivery>, id: string)
    requires SameOrders(a, b) && PayloadByVersion(a)
    ensures var x, y := Deliver(EMPTY, a).orders, Deliver(EMPTY, b).orders;
            (id in x <==> id in y) && (id in x ==> Snapshot(id, x[id]) == Snapshot(id, y[id]))
  {
    DeliveryFold(a, id);
    DeliveryFold(b, id);
    if Of(id, a) != [] {
      HighestReaches(a, b, id);
      HighestReaches(b, a, id);
      var v, w := Of(id, a)[Highest(Of(id, a))], Of(id, b)[Highest(Of(id, b))];
      OfMembers(id, a);
      OfMembers(id, b);
      assert v in Of(id, a) && w in Of(id, b);
      assert Delivered(w.order, b);
      var u :| u in a && u.order == w.order;
    } else if Of(id, b) != [] {
      HighestReaches(b, a, id);
    }
  }

  lemma HighestReaches(a: seq<Delivery>, b: seq<Delivery>, id: string)
    requires SameOrders(a, b) && Of(id, a) != []
    ensures Of(id, b) != []
    ensures Of(id, a)[Highest(Of(id, a))].order.version <= Of(id, b)[Highest(Of(id, b))].order.version
  {
    var d := Of(id, a)[Highest(Of(id, a))];
    OfMembers(id, a);
    OfMembers(id, b);
    assert d in Of(id, a);
    assert Delivered(d.order, a);
    var e :| e in b && e.order == d.order;
    assert e in Of(id, b);
    assert FirstOfHighest(Of(id, b), Highest(Of(id, b)));
  }

  /** The customer row is outside that promise: two deals of one customer, delivered in either order. */
  lemma CustomerDependsOnOrder()
    ensures var o1 := Order("006A", "001", "Acme", "", Decimal(1, 0), "2026-01-01", 1000, "s", "k1");
            var o2 := Order("006B", "001", "Acme Ltd", "", Decimal(1, 0), "2026-01-01", 2000, "s", "k2");
            var a, b := [Delivery(o1, "t"), Delivery(o2, "t")], [Delivery(o2, "t"), Delivery(o1, "t")];
            && PayloadByVersion(a) && SameOrders(a, b)
            && Find(Deliver(EMPTY, a).customers, "001") == Some(CustomerRow("Acme Ltd", "k2", "t", "t"))
            && Find(Deliver(EMPTY, b).customers, "001") == Some(CustomerRow("Acme", "k1", "t", "t"))
  {
    var o1 := Order("006A", "001", "Acme", "", Decimal(1, 0), "2026-01-01", 1000, "s", "k1");
    var o2 := Order("006B", "001", "Acme Ltd", "", Decimal(1, 0), "2026-01-01", 2000, "s", "k2");
    var d, e := Delivery(o1, "t"), Delivery(o2, "t");
    assert o1.orderId[3] != o2.orderId[3];
    TwoDeliveries(d, e);
    TwoDeliveries(e, d);
    assert forall x :: x in [d, e] <==> x in [e, d];
  }

  lemma TwoDeliveries(d: Delivery, e: Delivery)
    ensures Deliver(EMPTY, [d, e]) == Transact(Transact(EMPTY, d.order, d.now), e.order, e.now)
  {
    assert [d, e][..1] == [d];
    assert [d][..0] == [];
    assert Deliver(EMPTY, [d]) == Transact(EMPTY, d.order, d.now);
  }
}
