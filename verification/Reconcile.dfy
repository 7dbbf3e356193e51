/** Nightly comparison of Closed Won deals with ERP orders, and why repairing what it enqueues is enough. */
module Reconcile {
  import opened Prelude
  import opened Events
  import opened Mapping
  import opened Sorting
  import opened Erp

  datatype Kind = MissingOrder | InvalidInSource(reason: string) | StaleOrder | ErpAhead | NotFound | NotWon(stage: string)
  datatype Drift = Drift(kind: Kind, id: string)
  datatype Report = Report(drift: seq<Drift>, toEnqueue: seq<Event>, checkedDeals: nat, checkedOrders: nat)

  const SMOKE_PREFIX := "006SMOKE"

  function Versions(t: Tables): map<string, int> {
    map id | id in t.orders :: t.orders[id].version
  }

  /** Old enough that the poller has had its chance. */
  predicate Checked(row: SfRow, now: int, grace: int) {
    row.stamp <= now - grace
  }

  /** What is wrong with one checked deal, if anything. */
  function Finding(row: SfRow, versions: map<string, int>, now: int): Option<Kind> {
    if row.id !in versions then
      match Decode(Wire(Event(row, now)))
      case Err(e) => Some(InvalidInSource(e.reason))
      case Ok(_) => Some(MissingOrder)
    else if versions[row.id] < row.stamp then Some(StaleOrder)
    else if versions[row.id] > row.stamp then Some(ErpAhead)
    else None
  }

  /** A deal is fine exactly when its order is at its version. A missing order is worth enqueueing exactly when the
    * deal itself can become one, and otherwise the finding carries the worker's own reason; an older order is enqueued
    * whether or not it can. */
  lemma FindingMeans(row: SfRow, versions: map<string, int>, now: int)
    ensures var f, has := Finding(row, versions, now), row.id in versions;
            && (f == None <==> has && versions[row.id] == row.stamp)
            && (f == Some(MissingOrder) <==> !has && Mappable(row))
            && (f.Some? && f.value.InvalidInSource? <==> !has && !Mappable(row))
            && (!has && !Mappable(row) ==> f.value.reason == Decode(Wire(Event(row, now))).error.reason)
            && (f == Some(StaleOrder) <==> has && versions[row.id] < row.stamp)
            && (f == Some(ErpAhead) <==> has && versions[row.id] > row.stamp)
  {
    hide Decode, Wire;
    DecodeWire(Event(row, now));
  }

  predicate Repairable(f: Option<Kind>) {
    f == Some(MissingOrder) || f == Some(StaleOrder)
  }

  function DriftAmong(rows: seq<SfRow>, versions: map<string, int>, now: int, grace: int): seq<Drift> {
    if rows == [] then []
    else
      var last := rows[|rows| - 1];
      var f := if Checked(last, now, grace) then Finding(last, versions, now) else None;
      DriftAmong(rows[..|rows| - 1], versions, now, grace) + (if f.Some? then [Drift(f.value, last.id)] else [])
  }

  function EnqueuedAmong(rows: seq<SfRow>, versions: map<string, int>, now: int, grace: int): seq<Event> {
    if rows == [] then []
    else
      var last := rows[|rows| - 1];
      EnqueuedAmong(rows[..|rows| - 1], versions, now, grace)
      + (if Checked(last, now, grace) && Repairable(Finding(last, versions, now)) then [Event(last, now)] else [])
  }

  /** Exactly the checked deals with a missing or older order are enqueued. */
  lemma {:induction false} EnqueuedExactly(rows: seq<SfRow>, versions: map<string, int>, now: int, grace: int)
    ensures forall e :: e in EnqueuedAmong(rows, versions, now, grace) <==>
              e.row in rows && e.publishedAt == now && Checked(e.row, now, grace) && Repairable(Finding(e.row, versions, now))
  {
    if rows != [] {
      EnqueuedExactly(rows[..|rows| - 1], versions, now, grace);
      assert rows == rows[..|rows| - 1] + [rows[|rows| - 1]];
    }
  }

  ghost predicate Mentions(rows: seq<SfRow>, id: string) {
    exists r :: r in rows && r.id == id
  }

  /** Orders whose deal is not among the won ones, smoke-test orders aside. */
  ghost predicate Orphan(id: string, versions: map<string, int>, rows: seq<SfRow>) {
    id in versions && !Mentions(rows, id) && !(SMOKE_PREFIX <= id)
  }

  function OrphanDrift(ids: seq<string>, found: map<string, string>): seq<Drift> {
    if ids == [] then []
    else
      var last := ids[|ids| - 1];
      OrphanDrift(ids[..|ids| - 1], found) + [Drift(if last in found then NotWon(found[last]) else NotFound, last)]
  }

  /** The orphans in ascending order, each once. */
  ghost predicate ListsOrphans(ids: seq<string>, versions: map<string, int>, rows: seq<SfRow>) {
    && (forall i, j :: 0 <= i < j < |ids| ==> TextLess(ids[i], ids[j]))
    && forall id :: id in ids <==> Orphan(id, versions, rows)
  }

  /** One line an orphan, in their order, and its kind says what the lookup had for it. */
  lemma {:induction false} OrphanLines(ids: seq<string>, found: map<string, string>)
    ensures var lines := OrphanDrift(ids, found);
            && |lines| == |ids|
            && forall i :: 0 <= i < |ids| ==>
                 && lines[i].id == ids[i]
                 && (lines[i].kind == NotFound <==> ids[i] !in found)
                 && (lines[i].kind.NotWon? <==> ids[i] in found)
                 && (ids[i] in found ==> lines[i].kind.stage == found[ids[i]])
  {
    if ids != [] {
      OrphanLines(ids[..|ids| - 1], found);
    }
  }

  predicate AboutOrphan(d: Drift) {
    d.kind == NotFound || d.kind.NotWon?
  }

  lemma {:induction false} DealLinesAreNotOrphans(rows: seq<SfRow>, versions: map<string, int>, now: int, grace: int)
    ensures forall d :: d in DriftAmong(rows, versions, now, grace) ==> !AboutOrphan(d)
  {
    hide Decode, Wire;
    if rows != [] {
      DealLinesAreNotOrphans(rows[..|rows| - 1], versions, now, grace);
    }
  }

  /** In the whole report an order has a not-found line exactly when it is an orphan the lookup has no deal for, and a
    * not-won line with a stage exactly when it is an orphan whose deal the lookup has at that stage. No order has two
    * such lines. */
  ghost predicate ReportsOrphans(drift: seq<Drift>, rows: seq<SfRow>, versions: map<string, int>, found: map<string, string>) {
    && (forall id :: Drift(NotFound, id) in drift <==> Orphan(id, versions, rows) && id !in found)
    && (forall id, stage :: Drift(NotWon(stage), id) in drift <==> Orphan(id, versions, rows) && id in found && found[id] == stage)
    && forall i, j :: 0 <= i < j < |drift| && AboutOrphan(drift[i]) && AboutOrphan(drift[j]) ==> drift[i].id != drift[j].id
  }

  lemma OrphanReportMeans(rows: seq<SfRow>, versions: map<string, int>, now: int, grace: int, orphans: seq<string>,
                          found: map<string, string>)
    requires ListsOrphans(orphans, versions, rows)
    ensures ReportsOrphans(DriftAmong(rows, versions, now, grace) + OrphanDrift(orphans, found), rows, versions, found)
  {
    hide DriftAmong, OrphanDrift, Orphan;
    var deals, lines := DriftAmong(rows, versions, now, grace), OrphanDrift(orphans, found);
    var drift := deals + lines;
    DealLinesAreNotOrphans(rows, versions, now, grace);
    OrphanLines(orphans, found);
    assert forall k :: 0 <= k < |deals| ==> deals[k] in deals;
    forall d | AboutOrphan(d) ensures d in drift <==> exists i :: 0 <= i < |orphans| && lines[i] == d {
      assert d in drift <==> d in deals || d in lines;
    }
    forall id | id in orphans ensures exists i :: 0 <= i < |orphans| && lines[i].id == id {
      var i :| 0 <= i < |orphans| && orphans[i] == id;
    }
    forall i, j | 0 <= i < j < |drift| && AboutOrphan(drift[i]) && AboutOrphan(drift[j]) ensures drift[i].id != drift[j].id {
      AboveDeals(deals, lines, i);
      AboveDeals(deals, lines, j);
      TextOrder(orphans[i - |deals|], orphans[j - |deals|]);
    }
  }

  lemma AboveDeals(deals: seq<Drift>, lines: seq<Drift>, i: nat)
    requires (forall k :: 0 <= k < |deals| ==> !AboutOrphan(deals[k])) && i < |deals + lines| && AboutOrphan((deals + lines)[i])
    ensures i >= |deals| && (deals + lines)[i] == lines[i - |deals|]
  {
  }

  function CheckedCount(rows: seq<SfRow>, now: int, grace: int): nat {
    if rows == [] then 0
    else CheckedCount(rows[..|rows| - 1], now, grace) + (if Checked(rows[|rows| - 1], now, grace) then 1 else 0)
  }

  /** How many deals a report says were checked. */
  lemma {:induction false} CountsTheChecked(rows: seq<SfRow>, now: int, grace: int)
    ensures CheckedCount(rows, now, grace) == |set i: nat | i < |rows| && Checked(rows[i], now, grace)|
  {
    if rows != [] {
      var n, init := |rows| - 1, rows[..|rows| - 1];
      CountsTheChecked(init, now, grace);
      var before, all := set i: nat | i < n && Checked(init[i], now, grace), set i: nat | i < |rows| && Checked(rows[i], now, grace);
      assert all == before + if Checked(rows[n], now, grace) then {n} else {};
    }
  }

  /** Compare the won deals with the stored versions. `lookup` gives the stage of each id that still exists. */
  method Compare(rows: seq<SfRow>, versions: map<string, int>, lookup: seq<string> -> map<string, string>, now: int, grace: int)
    returns (report: Report, orphans: seq<string>)
    ensures ListsOrphans(orphans, versions, rows)
    ensures report.drift == DriftAmong(rows, versions, now, grace)
                            + OrphanDrift(orphans, if orphans == [] then map[] else lookup(orphans))
    ensures ReportsOrphans(report.drift, rows, versions, if orphans == [] then map[] else lookup(orphans))
    ensures report.toEnqueue == EnqueuedAmong(rows, versions, now, grace)
    ensures report.checkedDeals == CheckedCount(rows, now, grace) && report.checkedOrders == |versions|
  {
    hide DriftAmong, EnqueuedAmong, CheckedCount, ReportsOrphans;
    var drift, toEnqueue, checkedDeals, wonIds := CompareDeals(rows, versions, now, grace);
    orphans := ListOrphans(versions, wonIds);
    var found := if orphans == [] then map[] else lookup(orphans);
    ghost var dealDrift := drift;
    for i := 0 to |orphans|
      invariant drift == dealDrift + OrphanDrift(orphans[..i], found)
    {
      assert orphans[..i + 1][..i] == orphans[..i];
      var kind := if orphans[i] in found then NotWon(found[orphans[i]]) else NotFound;
      drift := drift + [Drift(kind, orphans[i])];
    }
    assert orphans[..|orphans|] == orphans;
    OrphanReportMeans(rows, versions, now, grace, orphans, found);
    report := Report(drift, toEnqueue, checkedDeals, |versions|);
  }

  method CompareDeals(rows: seq<SfRow>, versions: map<string, int>, now: int, grace: int)
    returns (drift: seq<Drift>, toEnqueue: seq<Event>, checkedDeals: nat, wonIds: set<string>)
    ensures drift == DriftAmong(rows, versions, now, grace)
    ensures toEnqueue == EnqueuedAmong(rows, versions, now, grace)
    ensures checkedDeals == CheckedCount(rows, now, grace)
    ensures forall id :: id in wonIds <==> Mentions(rows, id)
  {
    drift, toEnqueue, checkedDeals, wonIds := [], [], 0, {};
    for i := 0 to |rows|
      invariant drift == DriftAmong(rows[..i], versions, now, grace)
      invariant toEnqueue == EnqueuedAmong(rows[..i], versions, now, grace)
      invariant checkedDeals == CheckedCount(rows[..i], now, grace)
      invariant forall id :: id in wonIds <==> Mentions(rows[..i], id)
    {
      var row := rows[i];
      wonIds := wonIds + {row.id};
      OneMore(rows[..i], row, versions, now, grace);
      assert rows[..i + 1] == rows[..i] + [row];
      if row.stamp > now - grace {
        continue;
      }
      checkedDeals := checkedDeals + 1;
      var found := CompareDeal(row, versions, now);
      if found.Some? {
        drift := drift + [Drift(found.value, row.id)];
      }
      if Repairable(found) {
        toEnqueue := toEnqueue + [Event(row, now)];
      }
    }
    assert rows[..|rows|] == rows;
  }

  method CompareDeal(row: SfRow, versions: map<string, int>, now: int) returns (found: Option<Kind>)
    ensures found == Finding(row, versions, now)
  {
    if row.id !in versions {
      var order := Decode(Wire(Event(row, now)));
      return if order.Err? then Some(InvalidInSource(order.error.reason)) else Some(MissingOrder);
    }
    if versions[row.id] < row.stamp {
      return Some(StaleOrder);
    }
    return if versions[row.id] > row.stamp then Some(ErpAhead) else None;
  }

  lemma OneMore(rows: seq<SfRow>, last: SfRow, versions: map<string, int>, now: int, grace: int)
    ensures var f := if Checked(last, now, grace) then Finding(last, versions, now) else None;
            && DriftAmong(rows + [last], versions, now, grace)
               == DriftAmong(rows, versions, now, grace) + (if f.Some? then [Drift(f.value, last.id)] else [])
            && EnqueuedAmong(rows + [last], versions, now, grace)
               == EnqueuedAmong(rows, versions, now, grace) + (if Repairable(f) then [Event(last, now)] else [])
            && CheckedCount(rows + [last], now, grace)
               == CheckedCount(rows, now, grace) + (if Checked(last, now, grace) then 1 else 0)
    ensures forall id :: Mentions(rows + [last], id) <==> Mentions(rows, id) || id == last.id
  {
    assert (rows + [last])[..|rows|] == rows;
    assert last in rows + [last];
    forall id | Mentions(rows, id)
      ensures Mentions(rows + [last], id)
    {
      var r :| r in rows && r.id == id;
      assert r in rows + [last];
    }
  }

  method ListOrphans(versions: map<string, int>, wonIds: set<string>) returns (ids: seq<string>)
    ensures forall i, j :: 0 <= i < j < |ids| ==> TextLess(ids[i], ids[j])
    ensures forall id :: id in ids <==> id in versions && id !in wonIds && !(SMOKE_PREFIX <= id)
  {
    var left, listed := versions.Keys, [];
    while left != {}
      invariant left <= versions.Keys
      invariant forall id :: id in listed ==> id in versions && id !in left && id !in wonIds && !(SMOKE_PREFIX <= id)
      invariant forall id :: id in versions && id !in left && id !in wonIds && !(SMOKE_PREFIX <= id) ==> id in listed
      invariant Distinct(listed)
      decreases left
    {
      var id :| id in left;
      left := left - {id};
      if id !in wonIds && !(SMOKE_PREFIX <= id) {
        listed := listed + [id];
      }
    }
    ids := SortText(listed);
    SortTextSorts(listed);
    SortedDistinct(listed, ids);
  }

  lemma SortedDistinct(listed: seq<string>, ids: seq<string>)
    requires Distinct(listed) && multiset(ids) == multiset(listed)
    requires Pairwise((a, b) => TextAtMost(a, b), ids)
    ensures forall i, j :: 0 <= i < j < |ids| ==> TextLess(ids[i], ids[j])
    ensures forall id :: id in ids <==> id in listed
  {
    DistinctByCount(listed);
    forall id ensures id in ids <==> id in listed {
      assert id in ids <==> id in multiset(ids);
    }
    forall i, j | 0 <= i < j < |ids|
      ensures TextLess(ids[i], ids[j])
    {
      var le := (a: string, b: string) => TextAtMost(a, b);
      assert le(ids[i], ids[j]);
      TextOrder(ids[i], ids[j]);
      if ids[i] == ids[j] {
        RepeatCounts(ids, i, j);
      }
    }
  }

  lemma RepeatCounts(s: seq<string>, i: nat, j: nat)
    requires i < j < |s| && s[i] == s[j]
    ensures multiset(s)[s[i]] >= 2
  {
    assert s == s[..j] + [s[j]] + s[j + 1..];
    assert s[i] in s[..j];
  }

  lemma {:induction false} DistinctByCount(s: seq<string>)
    requires Distinct(s)
    ensures forall x :: multiset(s)[x] <= 1
  {
    if s != [] {
      DistinctByCount(s[1..]);
      assert s == [s[0]] + s[1..];
      assert s[0] !in s[1..];
    }
  }

  // ---- scanning the orders ---------------------------------------------------------------

  /** A page of a scan shows orders as they are when it is read. */
  predicate PageOf(page: seq<(string, int)>, t: Tables) {
    forall j :: 0 <= j < |page| ==> page[j].0 in t.orders && page[j].1 == t.orders[page[j].0].version
  }

  ghost predicate ListedOn(page: seq<(string, int)>, id: string) {
    exists j :: 0 <= j < |page| && page[j].0 == id
  }

  /** This version was read from some page. */
  ghost predicate ReadFrom(at: nat -> Tables, pages: nat, id: string, version: int) {
    exists p: nat :: p < pages && HasVersion(at(p), id, version)
  }

  predicate HasVersion(t: Tables, id: string, version: int) {
    id in t.orders && t.orders[id].version == version
  }

  ghost predicate Scanned(versions: map<string, int>, pages: seq<seq<(string, int)>>, at: nat -> Tables) {
    && (forall id :: id in versions ==> ReadFrom(at, |pages|, id, versions[id]))
    && (forall p :: 0 <= p < |pages| ==> forall j :: 0 <= j < |pages[p]| ==> pages[p][j].0 in versions)
  }

  /** The versions after one more page, its entries in order. */
  function WithPage(had: map<string, int>, page: seq<(string, int)>): map<string, int> {
    if page == [] then had else WithPage(had, page[..|page| - 1])[page[|page| - 1].0 := page[|page| - 1].1]
  }

  function FromPages(pages: seq<seq<(string, int)>>): map<string, int> {
    if pages == [] then map[] else WithPage(FromPages(pages[..|pages| - 1]), pages[|pages| - 1])
  }

  /** Read every order's version, a page at a time, until a page has no continuation. `at(p)` is the ERP when page
    * `p` is read: orders may change between pages. */
  method ScanOrderVersions(pages: seq<seq<(string, int)>>, at: nat -> Tables) returns (versions: map<string, int>)
    requires forall p :: 0 <= p < |pages| ==> PageOf(pages[p], at(p))
    ensures Scanned(versions, pages, at) && versions == FromPages(pages)
  {
    versions := map[];
    for p := 0 to |pages|
      invariant Scanned(versions, pages[..p], at) && versions == FromPages(pages[..p])
    {
      ghost var had := versions;
      versions := ReadPage(versions, pages[p]);
      assert pages[..p + 1][..p] == pages[..p];
      PageScanned(had, versions, pages, p, at);
    }
    assert pages[..|pages|] == pages;
  }

  method ReadPage(had: map<string, int>, page: seq<(string, int)>) returns (versions: map<string, int>)
    ensures versions == WithPage(had, page)
    ensures forall id :: id in versions ==> (id in had && versions[id] == had[id]) || (id, versions[id]) in page
    ensures forall id :: id in had ==> id in versions
    ensures forall j :: 0 <= j < |page| ==> page[j].0 in versions
  {
    versions := had;
    for k := 0 to |page|
      invariant versions == WithPage(had, page[..k])
      invariant forall id :: id in versions ==> (id in had && versions[id] == had[id]) || (id, versions[id]) in page
      invariant forall id :: id in had ==> id in versions
      invariant forall j :: 0 <= j < k ==> page[j].0 in versions
    {
      assert page[..k + 1][..k] == page[..k] && page[k] == (page[k].0, page[k].1);
      versions := versions[page[k].0 := page[k].1];
    }
    assert page[..|page|] == page;
  }

  lemma PageScanned(had: map<string, int>, versions: map<string, int>, pages: seq<seq<(string, int)>>, p: nat, at: nat -> Tables)
    requires p < |pages| && Scanned(had, pages[..p], at) && PageOf(pages[p], at(p))
    requires forall id :: id in versions ==> (id in had && versions[id] == had[id]) || (id, versions[id]) in pages[p]
    requires forall id :: id in had ==> id in versions
    requires forall j :: 0 <= j < |pages[p]| ==> pages[p][j].0 in versions
    ensures Scanned(versions, pages[..p + 1], at)
  {
    forall id | id in versions ensures ReadFrom(at, p + 1, id, versions[id]) {
      if id in had && versions[id] == had[id] {
        var q: nat :| q < p && HasVersion(at(q), id, had[id]);
      }
    }
    forall q | 0 <= q < p + 1 ensures forall j :: 0 <= j < |pages[q]| ==> pages[q][j].0 in versions {
      if q < p {
        assert pages[..p][q] == pages[q];
      }
    }
  }

  /** A scan returns every order that is there from the first page on. */
  ghost predicate Complete(pages: seq<seq<(string, int)>>, at: nat -> Tables) {
    forall id :: id in at(0).orders ==> exists p :: 0 <= p < |pages| && ListedOn(pages[p], id)
  }

  ghost predicate Forward(at: nat -> Tables) {
    forall p: nat, q: nat :: p <= q ==> Later(at(p), at(q))
  }

  /** While the ERP moves forward, a scan misses no order that was there when it began, shows each between its
    * version at the start and at the end, and shows nothing that is gone by the end. */
  lemma ScanIsBetween(versions: map<string, int>, pages: seq<seq<(string, int)>>, at: nat -> Tables, id: string)
    requires Scanned(versions, pages, at) && Complete(pages, at) && Forward(at)
    ensures id in at(0).orders ==> id in versions && at(0).orders[id].version <= versions[id]
    ensures id in versions ==> id in at(|pages|).orders && versions[id] <= at(|pages|).orders[id].version
  {
    if id in at(0).orders {
      var p :| 0 <= p < |pages| && ListedOn(pages[p], id);
    }
    if id in versions {
      var p: nat :| p < |pages| && HasVersion(at(p), id, versions[id]);
      assert Later(at(0), at(p)) && Later(at(p), at(|pages|));
    }
  }

  /** Over an ERP at rest that is every order's version. */
  lemma ScanOfTheSame(versions: map<string, int>, pages: seq<seq<(string, int)>>, t: Tables)
    requires Scanned(versions, pages, p => t) && Complete(pages, p => t)
    ensures versions == Versions(t)
  {
    DeliverIsLater(t, []);
    forall id ensures (id in versions <==> id in t.orders) && (id in t.orders ==> versions[id] == t.orders[id].version) {
      ScanIsBetween(versions, pages, p => t, id);
    }
  }

  // ---- repairing what was enqueued ----------------------------------------------------

  /** The messages of these events reached the ERP: every one the worker accepts, in any order and any number of
    * times, and nothing else. */
  ghost predicate Repairs(ds: seq<Delivery>, events: seq<Event>) {
    && (forall e :: e in events && Decode(Wire(e)).Ok? ==> Delivered(Decode(Wire(e)).value, ds))
    && (forall d :: d in ds ==> exists e :: e in events && Decode(Wire(e)) == Ok(d.order))
  }

  lemma {:induction false} DeliverStores(t: Tables, ds: seq<Delivery>, d: Delivery)
    requires d in ds
    ensures Stored(Deliver(t, ds), d.order.orderId, d.order.version)
  {
    var init, last := ds[..|ds| - 1], ds[|ds| - 1];
    TransactIsLater(Deliver(t, init), last.order, last.now);
    if d != last {
      assert ds == init + [last];
      DeliverStores(t, init, d);
    }
  }

  lemma {:induction false} DeliverLeavesOthers(t: Tables, ds: seq<Delivery>, id: string)
    requires forall d :: d in ds ==> d.order.orderId != id
    ensures Find(Deliver(t, ds).orders, id) == Find(t.orders, id)
  {
    if ds != [] {
      DeliverLeavesOthers(t, ds[..|ds| - 1], id);
      assert ds[|ds| - 1] in ds;
    }
  }

  /** Delivering what the comparison enqueued, in any order, repairs it: a second comparison finds no missing order
    * among the deals the first one checked, and a stale order exactly where the deal was stale and cannot be
    * mapped. */
  lemma RepairFixpoint(rows: seq<SfRow>, t: Tables, now: int, grace: int, ds: seq<Delivery>, r: SfRow, later: int)
    requires Repairs(ds, EnqueuedAmong(rows, Versions(t), now, grace))
    requires forall i, j :: 0 <= i < j < |rows| ==> rows[i].id != rows[j].id
    requires r in rows && Checked(r, now, grace)
    ensures var after := Finding(r, Versions(Deliver(t, ds)), later);
            && after != Some(MissingOrder)
            && (after == Some(StaleOrder) <==> Finding(r, Versions(t), now) == Some(StaleOrder) && !Mappable(r))
  {
    var events, before := EnqueuedAmong(rows, Versions(t), now, grace), Finding(r, Versions(t), now);
    var u := Deliver(t, ds);
    hide Decode, Wire, Finding, EnqueuedAmong, Deliver;
    EnqueuedExactly(rows, Versions(t), now, grace);
    DeliverIsLater(t, ds);
    FindingMeans(r, Versions(t), now);
    FindingMeans(r, Versions(u), later);
    DecodeWire(Event(r, now));
    if Repairable(before) && Mappable(r) {
      assert Event(r, now) in events;
      var d :| d in ds && d.order == OrderOf(r);
      DeliverStores(t, ds, d);
    } else if !Mappable(r) {
      forall d | d in ds
        ensures d.order.orderId != r.id
      {
        var e :| e in events && Decode(Wire(e)) == Ok(d.order);
        DecodeWire(e);
        assert e.row in rows;
      }
      DeliverLeavesOthers(t, ds, r.id);
    }
  }

  ghost predicate HasFinding(rows: seq<SfRow>, versions: map<string, int>, now: int, grace: int, d: Drift) {
    exists r :: r in rows && r.id == d.id && Checked(r, now, grace) && Finding(r, versions, now) == Some(d.kind)
  }

  /** The report has a line for exactly the findings of the checked deals. */
  lemma {:induction false} DriftExactly(rows: seq<SfRow>, versions: map<string, int>, now: int, grace: int)
    ensures forall d :: d in DriftAmong(rows, versions, now, grace) <==> HasFinding(rows, versions, now, grace, d)
  {
    if rows != [] {
      var init, last := rows[..|rows| - 1], rows[|rows| - 1];
      DriftExactly(init, versions, now, grace);
      assert rows == init + [last];
      assert forall r :: r in rows <==> r in init || r == last;
      forall d ensures d in DriftAmong(rows, versions, now, grace) <==> HasFinding(rows, versions, now, grace, d) {
        if d in DriftAmong(rows, versions, now, grace) {
          if d in DriftAmong(init, versions, now, grace) {
            var r :| r in init && r.id == d.id && Checked(r, now, grace) && Finding(r, versions, now) == Some(d.kind);
          }
        }
        if HasFinding(rows, versions, now, grace, d) {
          var r :| r in rows && r.id == d.id && Checked(r, now, grace) && Finding(r, versions, now) == Some(d.kind);
          assert r in init ==> HasFinding(init, versions, now, grace, d);
        }
      }
    }
  }

  /** The same for the report itself, run again with the same clock. */
  lemma SecondReportIsClean(rows: seq<SfRow>, t: Tables, now: int, grace: int, ds: seq<Delivery>)
    requires Repairs(ds, EnqueuedAmong(rows, Versions(t), now, grace))
    requires forall i, j :: 0 <= i < j < |rows| ==> rows[i].id != rows[j].id
    ensures var again := DriftAmong(rows, Versions(Deliver(t, ds)), now, grace);
            forall d :: d in again ==>
              d.kind != MissingOrder && (d.kind == StaleOrder ==> exists r :: r in rows && r.id == d.id && !Mappable(r))
  {
    var versions := Versions(Deliver(t, ds));
    DriftExactly(rows, versions, now, grace);
    forall d | d in DriftAmong(rows, versions, now, grace)
      ensures d.kind != MissingOrder && (d.kind == StaleOrder ==> exists r :: r in rows && r.id == d.id && !Mappable(r))
    {
      assert HasFinding(rows, versions, now, grace, d);
      var r :| r in rows && r.id == d.id && Checked(r, now, grace) && Finding(r, versions, now) == Some(d.kind);
      RepairFixpoint(rows, t, now, grace, ds, r, now);
    }
  }
}
