/** What a complete reconciliation repairs, late commits included. */
module SyncRepair {
  import opened Prelude
  import opened Events
  import opened Mapping
  import opened Erp
  import opened Org
  import opened Sync
  import opened SyncQueues
  import opened SyncErp
  import opened SyncRows
  import Poller
  import Reconcile

  /** A row of a deal at a stamp it really had, on time or not. */
  ghost function SeenIn(org: Org): SfRow -> bool {
    x => Seen(org, x)
  }

  ghost predicate SeenInv(s: Sys) {
    OrgInv(s.org) && RowsAre(s, SeenIn(s.org))
  }

  /** The ERP is at every scanned version or past it. */
  ghost predicate ScanInv(s: Sys) {
    forall k :: k in s.recs ==> forall id :: id in s.recs[k].versions ==> Stored(s.erp, id, s.recs[k].versions[id])
  }

  lemma OrgStepKeepsSeen(c: Config, s: Sys, step: OrgStep)
    requires SeenInv(s)
    ensures SeenInv(s.(org := OrgDo(s.org, c.lag, step)))
  {
    hide OrgInv, OrgDo, Seen, RowsAre;
    var t := s.(org := OrgDo(s.org, c.lag, step));
    OrgInvStays(s.org, c.lag, step);
    forall x | Seen(s.org, x) ensures Seen(t.org, x) {
      SeenStays(s.org, c.lag, step, x);
    }
    RowsWeaken(s, t, SeenIn(s.org), SeenIn(t.org));
  }

  lemma ScanKeepsScans(c: Config, s: Sys, a: Action)
    requires ScanInv(s)
    ensures ScanInv(DoReconcile(c, s, a))
  {
    hide Won, Wanted, Poller.InOrder, Put;
  }

  lemma LaterKeepsScans(s: Sys, t: Sys)
    requires ScanInv(s) && t.recs == s.recs && Later(s.erp, t.erp)
    ensures ScanInv(t)
  {
    hide Later, Stored;
    forall k, id | k in s.recs && id in s.recs[k].versions ensures Stored(t.erp, id, s.recs[k].versions[id]) {
      StoredStays(s.erp, t.erp, id, s.recs[k].versions[id]);
    }
  }

  lemma StepKeepsScans(c: Config, s: Sys, a: Action)
    requires Conserved(s) && ErpInv(s) && ScanInv(s)
    ensures ScanInv(Do(c, s, a))
  {
    hide Conserved, ErpInv, ScanInv, DoWork, DoRedrive, DoPoll, DoReconcile, OrgDo, Later;
    var t := Do(c, s, a);
    StepKeepsErp(c, s, a);
    if t == DoReconcile(c, s, a) {
      ScanKeepsScans(c, s, a);
    } else {
      LaterKeepsScans(s, t);
    }
  }

  lemma WonAreSeen(org: Org)
    requires OrgInv(org)
    ensures forall x :: x in Won(org) ==> SeenIn(org)(x)
  {
    forall x | x in Won(org) ensures Seen(org, x) {
      ViewIsSeen(org, x);
    }
  }

  lemma StepKeepsSeen(c: Config, s: Sys, a: Action)
    requires SeenInv(s)
    ensures SeenInv(Do(c, s, a))
  {
    hide OrgInv, RowsAre, Won, DoWork, DoRedrive, DoPoll, DoReconcile, OrgDo;
    if a.Salesforce? {
      OrgStepKeepsSeen(c, s, a.step);
    } else {
      WonAreSeen(s.org);
      StepKeepsRows(c, s, a, SeenIn(s.org));
    }
  }

  /** What every reachable state satisfies. */
  ghost predicate Sound(s: Sys) {
    Conserved(s) && ErpInv(s) && SeenInv(s) && ScanInv(s)
  }

  lemma StepKeepsSound(c: Config, s: Sys, a: Action)
    requires Sound(s)
    ensures Sound(Do(c, s, a)) && Later(s.erp, Do(c, s, a).erp)
  {
    hide Conserved, ErpInv, SeenInv, ScanInv, Later, Do;
    StepKeeps(c, s, a);
    StepKeepsErp(c, s, a);
    StepKeepsSeen(c, s, a);
    StepKeepsScans(c, s, a);
  }

  lemma {:induction false} RunIsSound(c: Config, clock: int, accounts: map<string, string>, run: seq<Action>)
    ensures Sound(After(c, clock, accounts, run))
  {
    hide Do, Later;
    if run != [] {
      RunIsSound(c, clock, accounts, run[..|run| - 1]);
      StepKeepsSound(c, After(c, clock, accounts, run[..|run| - 1]), run[|run| - 1]);
    }
  }

  // ---- agreement for any published version -----------------------------------------------------

  /** The order has the deal's own fields. The stage's name is not in an order, and the customer's name is the
    * account's. */
  predicate Fits(o: Order, d: Deal) {
    Some(o.customerId) == d.accountId && o.opportunityName == d.name && Some(o.total) == d.amount && Some(o.orderDate) == d.closeDate
  }

  /** The deal's order is stored at the deal's own version. */
  predicate AtVersion(s: Sys, id: string) {
    id in s.org.rows && id in s.erp.orders && s.erp.orders[id].version == s.org.rows[id].stamp
  }

  /** Order and invoice are at the deal's version and carry its fields. */
  predicate Agrees(s: Sys, id: string) {
    AtVersion(s, id) && Whole(s.erp, id) && Fits(Snapshot(id, s.erp.orders[id]), s.org.rows[id].deal)
  }

  /** The order is at the deal's version with other fields than the deal's. */
  predicate Differs(s: Sys, id: string) {
    AtVersion(s, id) && !Fits(Snapshot(id, s.erp.orders[id]), s.org.rows[id].deal)
  }

  /** A won deal at its highest stamp. */
  predicate AtTop(s: Sys, id: string) {
    && id in s.org.rows && s.org.rows[id].deal.won
    && id in s.org.top && s.org.rows[id].stamp == s.org.top[id]
  }

  /** The row was published, or the ERP is at its version or past it. */
  ghost predicate Reached(s: Sys, x: SfRow) {
    (exists e :: e in s.published && e.row == x) || Stored(s.erp, x.id, x.stamp)
  }

  ghost predicate RowParked(s: Sys, x: SfRow) {
    exists m :: m in s.dlq && s.dlq[m].event.row == x
  }

  /** No order is ahead of its deal's highest stamp. */
  lemma StoredIsAtVersion(s: Sys, id: string)
    requires Sound(s) && AtTop(s, id) && Stored(s.erp, id, s.org.rows[id].stamp)
    ensures AtVersion(s, id) && Whole(s.erp, id)
  {
    hide Conserved, ScanInv, Mappable;
    var f :| FromEvent(s, id, f);
    assert OrderOf(f.row).orderId == id == f.row.id && OrderOf(f.row).version == f.row.stamp;
    assert SeenIn(s.org)(f.row);
  }

  /** Once a row of the deal's current version was published, a drained queue leaves three ways: the ERP agrees, that
    * row is on the dead-letter queue, or the ERP has the version with other content. */
  lemma ReachedDealsSettle(c: Config, clock: int, accounts: map<string, string>, run: seq<Action>, x: SfRow)
    requires var s := After(c, clock, accounts, run);
             s.main == map[] && AtTop(s, x.id) && s.org.rows[x.id].stamp == x.stamp && Reached(s, x)
    ensures var s := After(c, clock, accounts, run); Agrees(s, x.id) || RowParked(s, x) || Differs(s, x.id)
  {
    hide After, ErpInv, QueueInv, SeenInv, ScanInv;
    var s := After(c, clock, accounts, run);
    RunIsSound(c, clock, accounts, run);
    if Stored(s.erp, x.id, x.stamp) {
      StoredIsAtVersion(s, x.id);
    } else {
      var e :| e in s.published && e.row == x;
      var w :| KeptBy(s, e, w);
      assert RowParked(s, x);
    }
  }

  // ---- a complete reconciliation ------------------------------------------------------------------

  /** The reconciliation read this deal, checks it, and the deal can become an order. */
  predicate Covers(s: Sys, k: nat, x: SfRow) {
    k in s.recs && x in s.recs[k].rows && Mappable(x) && Reconcile.Checked(x, s.recs[k].now, s.recs[k].grace)
  }

  /** It enqueues all it wants. */
  ghost predicate EnqueuesAll(s: Sys, k: nat, stored: seq<Event>) {
    k in s.recs && forall e :: e in stored <==> e in Wanted(s.recs[k])
  }

  lemma EnqueueIsPublish(c: Config, s: Sys, k: nat, stored: seq<Event>)
    requires k in s.recs && forall e :: e in stored ==> e in Wanted(s.recs[k])
    ensures Do(c, s, Enqueue(k, stored)) == Publish(s, stored)
  {
    hide DoPoll, DoWork, DoRedrive, Wanted, Publish;
  }

  /** A mappable deal that is not wanted is in the ERP at its version or past it. */
  lemma UnwantedIsStored(s: Sys, k: nat, x: SfRow)
    requires ScanInv(s) && Covers(s, k, x)
    ensures Event(x, s.recs[k].now) in Wanted(s.recs[k]) || Stored(s.erp, x.id, x.stamp)
  {
    hide Mappable, Stored;
    var r := s.recs[k];
    Reconcile.EnqueuedExactly(r.rows, r.versions, r.now, r.grace);
    Reconcile.FindingMeans(x, r.versions, r.now);
    if Event(x, r.now) !in Wanted(r) {
      assert Stored(s.erp, x.id, r.versions[x.id]);
      LowerIsStored(s.erp, x.id, r.versions[x.id], x.stamp);
    }
  }

  lemma LowerIsStored(t: Tables, id: string, version: int, stamp: int)
    requires Stored(t, id, version) && version >= stamp
    ensures Stored(t, id, stamp)
  {
  }

  /** Enqueueing everything it wanted reaches every deal it covers, whatever it had scanned. */
  lemma EnqueueReaches(c: Config, s: Sys, k: nat, stored: seq<Event>, x: SfRow)
    requires ScanInv(s) && Covers(s, k, x) && EnqueuesAll(s, k, stored)
    ensures Reached(Do(c, s, Enqueue(k, stored)), x)
  {
    hide Do, Put, Mappable, Wanted, ScanInv, Stored;
    EnqueueIsPublish(c, s, k, stored);
    UnwantedIsStored(s, k, x);
    var e := Event(x, s.recs[k].now);
    if e in Wanted(s.recs[k]) {
      assert e in Publish(s, stored).published;
    }
  }

  lemma {:induction false} ReachedStays(c: Config, clock: int, accounts: map<string, string>, run: seq<Action>, n: nat, x: SfRow)
    requires n <= |run| && Reached(After(c, clock, accounts, run[..n]), x)
    ensures Reached(After(c, clock, accounts, run), x)
    decreases |run|
  {
    hide Do;
    if n == |run| {
      assert run[..n] == run;
    } else {
      var init := run[..|run| - 1];
      assert init[..n] == run[..n];
      ReachedStays(c, clock, accounts, init, n, x);
      RunIsSound(c, clock, accounts, init);
      StepKeepsReached(c, After(c, clock, accounts, init), run[|run| - 1], x);
    }
  }

  lemma StepKeepsReached(c: Config, s: Sys, a: Action, x: SfRow)
    requires Sound(s) && Reached(s, x)
    ensures Reached(Do(c, s, a), x)
  {
    hide Sound, DoWork, DoRedrive, DoPoll, DoReconcile, OrgDo;
    StepKeepsSound(c, s, a);
    if Stored(s.erp, x.id, x.stamp) {
      StoredStays(s.erp, Do(c, s, a).erp, x.id, x.stamp);
    } else {
      var e :| e in s.published && e.row == x;
      assert e in Do(c, s, a).published;
    }
  }

  /** A deal that is deleted leaves its order behind, and every report on the deals and orders there are then, smoke
    * tests aside, says that the deal was not found. */
  lemma DeletedDealIsReported(c: Config, s: Sys, id: string, rows: seq<SfRow>, found: map<string, string>,
                              drift: seq<Reconcile.Drift>)
    requires id in s.erp.orders && !(Reconcile.SMOKE_PREFIX <= id) && id !in found
    requires var t := Do(c, s, Salesforce(Remove(id)));
             && (forall x :: x in rows ==> x in Won(t.org))
             && Reconcile.ReportsOrphans(drift, rows, Reconcile.Versions(t.erp), found)
    ensures Reconcile.Drift(Reconcile.NotFound, id) in drift
  {
    hide DoPoll, DoRedrive, DoReconcile, DoWork;
    var t := Do(c, s, Salesforce(Remove(id)));
    forall x | x in rows ensures x.id != id {
      assert x in Won(t.org) && id !in t.org.rows;
    }
    assert Reconcile.Orphan(id, Reconcile.Versions(t.erp), rows);
  }

  /** Repair. A reconciliation reads a won deal, however late it committed, and enqueues all it wants at step `n`.
    * When the queue has drained, and the deal is still at that stamp, its highest, the ERP agrees with it, or what
    * the reconciliation read is on the dead-letter queue, or the ERP already had the version with other content. */
  lemma ReconciledDealsSettle(c: Config, clock: int, accounts: map<string, string>, run: seq<Action>, n: nat, x: SfRow)
    requires n < |run| && run[n].Enqueue?
    requires var before := After(c, clock, accounts, run[..n]);
             Covers(before, run[n].rec, x) && EnqueuesAll(before, run[n].rec, run[n].stored)
    requires var s := After(c, clock, accounts, run);
             s.main == map[] && AtTop(s, x.id) && s.org.rows[x.id].stamp == x.stamp
    ensures var s := After(c, clock, accounts, run); Agrees(s, x.id) || RowParked(s, x) || Differs(s, x.id)
  {
    hide Do, Agrees, Differs, Reached, Covers, EnqueuesAll;
    var before := After(c, clock, accounts, run[..n]);
    RunIsSound(c, clock, accounts, run[..n]);
    EnqueueReaches(c, before, run[n].rec, run[n].stored, x);
    assert run[..n + 1][..n] == run[..n];
    assert After(c, clock, accounts, run[..n + 1]) == Do(c, before, run[n]);
    ReachedStays(c, clock, accounts, run, n + 1, x);
    ReachedDealsSettle(c, clock, accounts, run, x);
  }
}
