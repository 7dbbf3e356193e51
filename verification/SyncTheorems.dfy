/** The main results about whole runs: coverage, stable content, and agreement at rest. */
module SyncTheorems {
  import opened Prelude
  import opened Events
  import opened Mapping
  import opened Erp
  import opened Org
  import opened Sync
  import opened SyncQueues
  import opened SyncErp
  import opened SyncPolls
  import opened SyncTruth

  lemma StepKeepsCover(c: Config, s: Sys, a: Action)
    requires CoverInv(c, s)
    ensures CoverInv(c, Do(c, s, a))
  {
    if a.Salesforce? {
      OrgStepKeepsCover(c, s, a.step);
    } else {
      PollKeepsCover(c, s, a);
      ElsewhereKeepsCover(c, s, DoWork(s, a));
      ElsewhereKeepsCover(c, s, DoRedrive(s, a));
      ElsewhereKeepsCover(c, s, DoReconcile(c, s, a));
    }
  }

  lemma StepKeepsTruth(c: Config, s: Sys, names: Option<map<string, string>>, a: Action)
    requires CoverInv(c, s) && TruthInv(c, s, names)
    requires a.Enqueue? ==> AllPatient(c, s)
    requires names.Some? ==> !Renames(a)
    ensures TruthInv(c, Do(c, s, a), names)
  {
    if a.Salesforce? {
      OrgStepKeepsTruth(c, s, names, a.step);
    } else {
      PollKeepsTruth(c, s, names, a);
      ReconcileKeepsTruth(c, s, names, a);
      ElsewhereKeepsTruth(c, s, names, DoWork(s, a));
      ElsewhereKeepsTruth(c, s, names, DoRedrive(s, a));
    }
  }

  predicate Renames(a: Action) {
    a.Salesforce? && a.step.Rename?
  }

  lemma {:induction false} RunKeepsCover(c: Config, clock: int, accounts: map<string, string>, run: seq<Action>)
    ensures CoverInv(c, After(c, clock, accounts, run))
  {
    if run != [] {
      RunKeepsCover(c, clock, accounts, run[..|run| - 1]);
      StepKeepsCover(c, After(c, clock, accounts, run[..|run| - 1]), run[|run| - 1]);
    }
  }

  /** Every reconciliation is patient, or none enqueues anything. */
  ghost predicate Careful(c: Config, run: seq<Action>) {
    (forall a :: a in run && a.ReadDeals? ==> Patient(c, a.grace)) || forall a :: a in run ==> !a.Enqueue?
  }

  lemma ReconcileKeepsPatience(c: Config, s: Sys, a: Action)
    requires AllPatient(c, s) && (a.ReadDeals? ==> Patient(c, a.grace))
    ensures AllPatient(c, DoReconcile(c, s, a))
  {
    hide Won, Wanted;
    var t := DoReconcile(c, s, a);
    forall k | k in t.recs ensures Patient(c, t.recs[k].grace) {
      assert k in s.recs ==> Patient(c, s.recs[k].grace);
    }
  }

  lemma StepKeepsPatience(c: Config, s: Sys, a: Action)
    requires AllPatient(c, s) && (a.ReadDeals? ==> Patient(c, a.grace))
    ensures AllPatient(c, Do(c, s, a))
  {
    hide DoWork, DoRedrive, DoPoll, DoReconcile;
    ReconcileKeepsPatience(c, s, a);
  }

  lemma {:induction false} RunKeepsPatience(c: Config, clock: int, accounts: map<string, string>, run: seq<Action>)
    requires forall a :: a in run && a.ReadDeals? ==> Patient(c, a.grace)
    ensures AllPatient(c, After(c, clock, accounts, run))
  {
    if run != [] {
      var init := run[..|run| - 1];
      assert forall a :: a in init ==> a in run;
      RunKeepsPatience(c, clock, accounts, init);
      assert run[|run| - 1] in run;
      StepKeepsPatience(c, After(c, clock, accounts, init), run[|run| - 1]);
    }
  }

  lemma {:induction false} RunKeepsTruth(c: Config, clock: int, accounts: map<string, string>, run: seq<Action>,
                                         names: Option<map<string, string>>)
    requires Careful(c, run)
    requires names.Some? ==> names.value == accounts && forall a :: a in run ==> !Renames(a)
    ensures TruthInv(c, After(c, clock, accounts, run), names)
  {
    if run != [] {
      var init := run[..|run| - 1];
      assert forall a :: a in init ==> a in run;
      RunKeepsTruth(c, clock, accounts, init, names);
      RunKeepsCover(c, clock, accounts, init);
      assert run[|run| - 1] in run;
      if run[|run| - 1].Enqueue? {
        RunKeepsPatience(c, clock, accounts, init);
      }
      StepKeepsTruth(c, After(c, clock, accounts, init), names, run[|run| - 1]);
    }
  }

  /** Coverage. Whatever the interleaving of polls, partial publishes and lost watermark writes: a won deal whose last
    * edit committed within the lag, and whose stamp lies from the start up to any watermark ever written, has been
    * published at that stamp. */
  lemma NothingBehindTheWatermarkIsMissed(c: Config, clock: int, accounts: map<string, string>, run: seq<Action>,
                                          id: string, mark: int)
    requires var s := After(c, clock, accounts, run);
             OnTimeWon(s.org, id) && mark in s.marks && c.start <= s.org.rows[id].stamp < mark
    ensures var s := After(c, clock, accounts, run);
            exists e :: e in s.published && e.row.id == id && e.row.stamp == s.org.rows[id].stamp
  {
    RunKeepsCover(c, clock, accounts, run);
    assert MarkInv(c, After(c, clock, accounts, run), mark);
  }

  /** The same deal content, whatever the account is called by now. */
  predicate SameDealContent(x: SfRow, y: SfRow) {
    x.(accountName := None) == y.(accountName := None)
  }

  /** Content stability. Two published events with one key carry the same deal content, if no edit of the deal in
    * that second committed after the lag. */
  lemma OneKeyOneContent(c: Config, clock: int, accounts: map<string, string>, run: seq<Action>, e1: Event, e2: Event)
    requires Careful(c, run)
    requires var s := After(c, clock, accounts, run);
             e1 in s.published && e2 in s.published && (e1.row.id, e1.row.stamp) !in s.org.late
    requires e1.row.id == e2.row.id && e1.row.stamp == e2.row.stamp
    ensures SameDealContent(e1.row, e2.row)
    ensures (forall a :: a in run ==> !Renames(a)) ==> e1.row == e2.row
  {
    RunKeepsTruth(c, clock, accounts, run, None);
    if forall a :: a in run ==> !Renames(a) {
      RunKeepsTruth(c, clock, accounts, run, Some(accounts));
    }
  }

  // ---- agreement at rest ------------------------------------------------------------------

  /** A published event of the deal at its current stamp, showing its current content. */
  predicate CurrentEvent(s: Sys, id: string, e: Event)
    requires id in s.org.rows
  {
    e in s.published && e.row.id == id && e.row.stamp == s.org.rows[id].stamp && Shows(e.row, s.org.rows[id].deal)
  }

  ghost predicate Parked(s: Sys, e: Event) {
    exists m :: m in s.dlq && s.dlq[m].event == e
  }

  /** The order and its invoice are at the deal's current version and carry its current fields. */
  ghost predicate Synced(s: Sys, id: string)
    requires id in s.org.rows
  {
    && id in s.erp.orders && Whole(s.erp, id)
    && s.erp.orders[id].version == s.org.rows[id].stamp
    && exists f :: CurrentEvent(s, id, f) && Decode(Wire(f)) == Ok(Snapshot(id, s.erp.orders[id]))
  }

  /** A won deal at its highest stamp, with no late edit in that second, behind a watermark, over a drained queue. */
  ghost predicate AtRest(c: Config, s: Sys, id: string) {
    && s.main == map[]
    && id in s.org.rows && s.org.rows[id].deal.won
    && id in s.org.top && s.org.rows[id].stamp == s.org.top[id] && (id, s.org.rows[id].stamp) !in s.org.late
    && exists mark :: mark in s.marks && c.start <= s.org.rows[id].stamp < mark
  }

  lemma CurrentIsPublished(c: Config, s: Sys, id: string) returns (e: Event)
    requires CoverInv(c, s) && TruthInv(c, s, None) && AtRest(c, s, id)
    ensures CurrentEvent(s, id, e)
  {
    assert RowInv(s.org, id);
    var mark :| mark in s.marks && c.start <= s.org.rows[id].stamp < mark;
    assert MarkInv(c, s, mark);
    assert Announced(s, id, s.org.rows[id].stamp);
    e :| e in s.published && e.row.id == id && e.row.stamp == s.org.rows[id].stamp;
    assert Faithful(c, s, None, e.row);
  }

  /** A stored order never runs ahead of a deal at its highest stamp. */
  lemma StoredIsCurrent(c: Config, s: Sys, id: string)
    requires OrgInv(s.org) && TruthInv(c, s, None) && ErpInv(s) && AtRest(c, s, id)
    requires Stored(s.erp, id, s.org.rows[id].stamp)
    ensures Synced(s, id)
  {
    assert RowInv(s.org, id);
    assert Whole(s.erp, id);
    var f :| FromEvent(s, id, f);
    assert OrderOf(f.row).orderId == id == f.row.id && OrderOf(f.row).version == f.row.stamp;
    assert Faithful(c, s, None, f.row);
    DecodeWire(f);
    assert CurrentEvent(s, id, f);
  }

  /** Convergence. At rest, a won deal has its current version in the ERP, as order and invoice with the deal's own
    * fields, or has an event for its current version on the dead-letter queue. */
  lemma AtRestEveryDealAgrees(c: Config, clock: int, accounts: map<string, string>, run: seq<Action>, id: string)
    requires Careful(c, run)
    requires AtRest(c, After(c, clock, accounts, run), id)
    ensures var s := After(c, clock, accounts, run);
            Synced(s, id) || exists e :: CurrentEvent(s, id, e) && Parked(s, e)
  {
    hide After, Synced, TruthInv, CoverInv, ErpInv, QueueInv, CurrentEvent;
    var s := After(c, clock, accounts, run);
    RunKeepsCover(c, clock, accounts, run);
    RunKeepsTruth(c, clock, accounts, run, None);
    RunKeeps(c, clock, accounts, run);
    RunKeepsErp(c, clock, accounts, run);
    var e := CurrentIsPublished(c, s, id);
    var w :| KeptBy(s, e, w);
    if w.InErp? {
      StoredIsCurrent(c, s, id);
    } else {
      assert Parked(s, e);
    }
  }

  /** With no account renamed, the order is exactly what the deal maps to now. */
  lemma AtRestOrderIsTheDeal(c: Config, clock: int, accounts: map<string, string>, run: seq<Action>, id: string)
    requires Careful(c, run) && forall a :: a in run ==> !Renames(a)
    requires var s := After(c, clock, accounts, run); AtRest(c, s, id) && !exists e :: CurrentEvent(s, id, e) && Parked(s, e)
    ensures var s := After(c, clock, accounts, run);
            && Mappable(View(s.org, id)) && id in s.erp.orders && Whole(s.erp, id)
            && Snapshot(id, s.erp.orders[id]) == OrderOf(View(s.org, id))
  {
    var s := After(c, clock, accounts, run);
    AtRestEveryDealAgrees(c, clock, accounts, run, id);
    RunKeepsTruth(c, clock, accounts, run, Some(accounts));
    var f :| CurrentEvent(s, id, f) && Decode(Wire(f)) == Ok(Snapshot(id, s.erp.orders[id]));
    assert Faithful(c, s, Some(accounts), f.row);
    assert f.row == View(s.org, id);
    DecodeWire(f);
  }
}
