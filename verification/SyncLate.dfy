/** What becomes of a deal whose version was published with two contents: when the ERP ends on the deal's own, and
  * when it never will. Here the deal itself is edited no more; everything else goes on in any order. */
module SyncLate {
  import opened Prelude
  import opened Calendar
  import opened Events
  import opened Mapping
  import opened Erp
  import opened Org
  import opened Sync
  import opened SyncQueues
  import opened SyncErp
  import opened SyncRuns
  import opened SyncRows
  import opened SyncRepair
  import opened SyncDrain
  import SyncLimits
  import SyncClasses
  import Publisher
  import Poller
  import Reconcile

  // ---- what stays --------------------------------------------------------------------------

  lemma StepIsOutside(c: Config, s: Sys, a: Action)
    requires !a.Salesforce?
    ensures Do(c, s, a).org == s.org
  {
    hide DoWork, DoRedrive, DoPoll, DoReconcile;
  }

  /** What follows a sound state is sound, and only moves the ERP forward. */
  lemma {:induction false} StepsKeep(c: Config, s: Sys, run: seq<Action>)
    requires Sound(s)
    ensures var t := Steps(c, s, run); Sound(t) && Later(s.erp, t.erp)
  {
    hide Sound, Later, Do;
    if run == [] {
      ReflexiveLater(s.erp);
    } else {
      var init, a := run[..|run| - 1], run[|run| - 1];
      StepsKeep(c, s, init);
      StepKeepsSound(c, Steps(c, s, init), a);
      LaterComposes(s.erp, Steps(c, s, init).erp, Steps(c, s, run).erp);
    }
  }

  lemma {:induction false} StepsOutside(c: Config, s: Sys, run: seq<Action>)
    requires LeavesSalesforce(run)
    ensures Steps(c, s, run).org == s.org
  {
    hide Do;
    if run != [] {
      var init, a := run[..|run| - 1], run[|run| - 1];
      assert a in run && forall x :: x in init ==> x in run;
      StepsOutside(c, s, init);
      StepIsOutside(c, Steps(c, s, init), a);
    }
  }

  lemma LeadsKeeps(c: Config, s: Sys, t: Sys)
    requires Sound(s) && Leads(c, s, t)
    ensures Sound(t) && t.org == s.org && Later(s.erp, t.erp)
  {
    hide Steps, Sound, Later;
    var run :| LeavesSalesforce(run) && Steps(c, s, run) == t;
    StepsKeep(c, s, run);
    StepsOutside(c, s, run);
  }

  /** The deal is as it was, unless it was deleted, and so is its highest stamp. */
  predicate SameDeal(a: Org, b: Org, id: string) {
    (id in b.rows ==> id in a.rows && b.rows[id] == a.rows[id]) && Find(b.top, id) == Find(a.top, id)
  }

  lemma StepSparesDeal(c: Config, s: Sys, a: Action, id: string)
    requires !Edits(s, a, id)
    ensures SameDeal(s.org, Do(c, s, a).org, id)
  {
    hide DoWork, DoRedrive, DoPoll, DoReconcile;
    if !a.Salesforce? {
      StepIsOutside(c, s, a);
    }
  }

  lemma {:induction false} StepsSpareDeal(c: Config, s: Sys, run: seq<Action>, id: string)
    requires Spares(c, s, run, id)
    ensures SameDeal(s.org, Steps(c, s, run).org, id)
  {
    hide Do;
    if run != [] {
      var init := run[..|run| - 1];
      StepsSpareDeal(c, s, init, id);
      StepSparesDeal(c, Steps(c, s, init), run[|run| - 1], id);
    }
  }

  lemma FollowsKeeps(c: Config, s: Sys, t: Sys, id: string)
    requires Sound(s) && Follows(c, s, t, id)
    ensures Sound(t) && SameDeal(s.org, t.org, id) && Later(s.erp, t.erp)
  {
    hide Steps, Sound, Later;
    var run :| Spares(c, s, run, id) && Steps(c, s, run) == t;
    StepsKeep(c, s, run);
    StepsSpareDeal(c, s, run, id);
  }

  lemma {:induction false} StepsReach(c: Config, s: Sys, run: seq<Action>, x: SfRow)
    requires Sound(s) && Reached(s, x)
    ensures Reached(Steps(c, s, run), x)
  {
    hide Sound, Do, Reached;
    if run != [] {
      var init := run[..|run| - 1];
      StepsReach(c, s, init, x);
      StepsKeep(c, s, init);
      StepKeepsReached(c, Steps(c, s, init), run[|run| - 1], x);
    }
  }

  // ---- stuck for good ------------------------------------------------------------------------

  /** The ERP is at the deal's highest stamp or past it. */
  predicate Caught(s: Sys, id: string) {
    id in s.org.top && Stored(s.erp, id, s.org.top[id])
  }

  /** No published event of the deal is newer than its order. */
  lemma PublishedIsNotNewer(s: Sys, e: Event, id: string)
    requires SeenInv(s) && Caught(s, id) && e in s.published && e.row.id == id
    ensures Stored(s.erp, id, e.row.stamp)
  {
    hide OrgInv, AllRows, RecRows;
    assert SeenIn(s.org)(e.row);
  }

  lemma OthersOrOld(t: Tables, o: Order, now: string, id: string)
    requires o.orderId == id ==> Stored(t, id, o.version)
    ensures Find(Transact(t, o, now).orders, id) == Find(t.orders, id)
  {
  }

  /** So no step changes the order. */
  lemma StepKeepsOrder(c: Config, s: Sys, a: Action, id: string)
    requires Sound(s) && Caught(s, id)
    ensures Find(Do(c, s, a).erp.orders, id) == Find(s.erp.orders, id)
  {
    hide Conserved, ErpInv, SeenInv, ScanInv, Do, DoWrite, Caught, Stored, Transact, Mappable;
    if a.Write? {
      WriteIsWrite(c, s, a);
      WriteTransacts(s, a.job, a.writtenAt, a.fate);
      var t := Do(c, s, a);
      if t.erp != s.erp {
        var e, at :| Wrote(s, t.erp, e, at);
        if e.row.id == id {
          PublishedIsNotNewer(s, e, id);
        }
        OthersOrOld(s.erp, OrderOf(e.row), at, id);
      }
    } else {
      OthersLeaveErp(c, s, a);
    }
  }

  lemma CaughtStays(s: Sys, t: Sys, id: string)
    requires Caught(s, id) && SameDeal(s.org, t.org, id) && Later(s.erp, t.erp)
    ensures Caught(t, id)
  {
  }

  lemma {:induction false} StepsKeepOrder(c: Config, s: Sys, run: seq<Action>, id: string)
    requires Sound(s) && Caught(s, id) && Spares(c, s, run, id)
    ensures Find(Steps(c, s, run).erp.orders, id) == Find(s.erp.orders, id)
  {
    hide Sound, Do, Caught, Later, SameDeal;
    if run != [] {
      var init := run[..|run| - 1];
      StepsKeepOrder(c, s, init, id);
      StepsKeep(c, s, init);
      StepsSpareDeal(c, s, init, id);
      CaughtStays(s, Steps(c, s, init), id);
      StepKeepsOrder(c, Steps(c, s, init), run[|run| - 1], id);
    }
  }

  /** Once the ERP has caught up with a deal, nothing but a new edit of it changes its order again: no later poll, no
    * delivery, no redrive and no later reconciliation, whatever else happens in Salesforce. */
  lemma StuckForGood(c: Config, s: Sys, t: Sys, id: string)
    requires Reachable(c, s) && Caught(s, id) && Follows(c, s, t, id)
    ensures id in t.erp.orders && t.erp.orders[id] == s.erp.orders[id]
    ensures id in t.org.rows ==> (Agrees(t, id) <==> Agrees(s, id)) && (Differs(t, id) <==> Differs(s, id))
  {
    hide After, Sound, Steps, Spares;
    ReachableIsSound(c, s);
    var run :| Spares(c, s, run, id) && Steps(c, s, run) == t;
    StepsKeepOrder(c, s, run, id);
    StepsKeep(c, s, run);
    StepsSpareDeal(c, s, run, id);
    WholeOrders(s, id);
    WholeOrders(t, id);
  }

  lemma ReachableIsSound(c: Config, s: Sys)
    requires Reachable(c, s)
    ensures Sound(s)
  {
    var clock, accounts, run :| After(c, clock, accounts, run) == s;
    RunIsSound(c, clock, accounts, run);
  }

  lemma WholeOrders(s: Sys, id: string)
    requires Sound(s) && id in s.erp.orders
    ensures Whole(s.erp, id)
  {
    hide Conserved, SeenInv, ScanInv, Sourced;
  }

  // ---- the exact condition ---------------------------------------------------------------------

  /** The row's message waits on a queue, or a poll or a reconciliation holds the row and may publish it. */
  ghost predicate Pending(s: Sys, x: SfRow) {
    || (exists m :: m in s.main && s.main[m].event.row == x)
    || (exists m :: m in s.dlq && s.dlq[m].event.row == x)
    || (exists k :: k in s.runs && s.runs[k].HasRows? && x in s.runs[k].rows)
    || exists k :: k in s.recs && x in s.recs[k].rows && Reconcile.Checked(x, s.recs[k].now, s.recs[k].grace)
  }

  /** A row that can become this version of the deal tells the deal's own fields. */
  ghost function Tells(d: Deal, id: string, stamp: int): SfRow -> bool {
    x => Makes(x, id, stamp) ==> Fits(OrderOf(x), d)
  }

  ghost function Truly(org: Org, id: string): SfRow -> bool
    requires id in org.rows
  {
    Tells(org.rows[id].deal, id, org.rows[id].stamp)
  }

  /** What can be told before any of it happens: the order, where the ERP has the version already; and otherwise
    * everything that is on its way to becoming that version's order. */
  ghost predicate WellTold(s: Sys, id: string)
    requires id in s.org.rows
  {
    if Stored(s.erp, id, s.org.rows[id].stamp) then Agrees(s, id)
    else forall x :: Pending(s, x) ==> Truly(s.org, id)(x)
  }

  /** Some reconciliation on the way from `s` to `t` read the deal at its stamp and enqueued all it wanted. */
  ghost predicate Reconciled(c: Config, s: Sys, t: Sys, id: string)
    requires id in s.org.rows
  {
    exists u, k, stored, x :: ReconciledAt(c, s, t, id, u, k, stored, x)
  }

  ghost predicate ReconciledAt(c: Config, s: Sys, t: Sys, id: string, u: Sys, k: nat, stored: seq<Event>, x: SfRow)
    requires id in s.org.rows
  {
    && Follows(c, s, u, id) && Covers(u, k, x) && x.id == id && x.stamp == s.org.rows[id].stamp
    && EnqueuesAll(u, k, stored) && Follows(c, Do(c, u, Enqueue(k, stored)), t, id)
  }

  /** Whoever reads the deal later still reads the same. */
  lemma ViewIsTrue(s: Sys, t: Sys, id: string)
    requires id in s.org.rows && SameDeal(s.org, t.org, id)
    ensures forall x :: x in Won(t.org) ==> Truly(s.org, id)(x)
  {
  }

  /** Rows that tell the deal truly go on doing so while the deal is not edited. */
  lemma {:induction false} StepsKeepTruth(c: Config, s: Sys, run: seq<Action>, id: string)
    requires id in s.org.rows && Spares(c, s, run, id) && RowsAre(s, Truly(s.org, id))
    ensures RowsAre(Steps(c, s, run), Truly(s.org, id))
  {
    hide RowsAre, Do, Won, Truly, SameDeal;
    if run != [] {
      var init, a := run[..|run| - 1], run[|run| - 1];
      var u := Steps(c, s, init);
      StepsKeepTruth(c, s, init, id);
      if a.Salesforce? {
        SalesforceReadsNothing(c, u, a);
        SameRowsStay(u, Do(c, u, a), Truly(s.org, id));
      } else {
        StepsSpareDeal(c, s, init, id);
        ViewIsTrue(s, u, id);
        StepKeepsRows(c, u, a, Truly(s.org, id));
      }
    }
  }

  lemma SalesforceReadsNothing(c: Config, s: Sys, a: Action)
    requires a.Salesforce?
    ensures var t := Do(c, s, a); t.published == s.published && t.runs == s.runs && t.recs == s.recs
  {
  }

  /** While the ERP is behind, whatever was published waits on a queue. */
  lemma WellToldRows(s: Sys, id: string)
    requires Sound(s) && id in s.org.rows && !Stored(s.erp, id, s.org.rows[id].stamp) && WellTold(s, id)
    ensures RowsAre(s, Truly(s.org, id))
  {
    hide QueueInv, ErpInv, SeenInv, ScanInv, Stored, Mappable, Fits, OrderOf;
    var p := Truly(s.org, id);
    forall e | e in s.published ensures p(e.row) {
      var w :| KeptBy(s, e, w);
      if w != InErp {
        assert Pending(s, e.row);
      }
    }
    forall k | k in s.runs && s.runs[k].HasRows? ensures AllRows(s.runs[k].rows, p) {
      forall x | x in s.runs[k].rows ensures p(x) {
        assert Pending(s, x);
      }
    }
    forall k | k in s.recs ensures RecRows(s.recs[k], p) {
      forall x | x in s.recs[k].rows && Reconcile.Checked(x, s.recs[k].now, s.recs[k].grace) ensures p(x) {
        assert Pending(s, x);
      }
    }
  }

  /** An order at the version is one of the rows told. */
  lemma ToldOrderFits(s: Sys, id: string)
    requires Sound(s) && AtTop(s, id) && RowsAre(s, Truly(s.org, id)) && Stored(s.erp, id, s.org.rows[id].stamp)
    ensures Agrees(s, id)
  {
    hide Conserved, ScanInv, Mappable, Fits;
    StoredIsAtVersion(s, id);
    var f :| FromEvent(s, id, f);
    assert OrderOf(f.row).orderId == id == f.row.id && OrderOf(f.row).version == f.row.stamp;
    assert Truly(s.org, id)(f.row);
  }

  lemma DrainedIsStored(s: Sys, x: SfRow)
    requires Sound(s) && Reached(s, x) && Mappable(x) && Drained(s, x.id, x.stamp)
    ensures Stored(s.erp, x.id, x.stamp)
  {
    hide QueueInv, ErpInv, SeenInv, ScanInv, Stored, Mappable;
    if !Stored(s.erp, x.id, x.stamp) {
      var e :| e in s.published && e.row == x;
      var w :| KeptBy(s, e, w);
      if w.InMain? {
        LeftHas(s.main, w.id, x.id, x.stamp);
      } else if w.InDlq? {
        LeftHas(s.dlq, w.id, x.id, x.stamp);
      }
    }
  }

  /** The promise: from a well told state, reconciled and drained, the ERP agrees with the deal. */
  lemma WellToldAgrees(c: Config, s: Sys, t: Sys, id: string)
    requires Reachable(c, s) && AtTop(s, id) && WellTold(s, id)
    requires Reconciled(c, s, t, id) && id in t.org.rows && Drained(t, id, s.org.rows[id].stamp)
    ensures Agrees(t, id)
  {
    hide Sound, Follows, Do, Drained, Agrees, Covers, EnqueuesAll, Reached, Stored, RowsAre, Truly, Reachable, Later;
    var u, k, stored, x :| ReconciledAt(c, s, t, id, u, k, stored, x);
    var v := Do(c, u, Enqueue(k, stored));
    ReachableIsSound(c, s);
    FollowsKeeps(c, s, u, id);
    EnqueueFollows(c, u, k, stored, id);
    FollowsCompose(c, s, u, v, id);
    FollowsCompose(c, s, v, t, id);
    if Stored(s.erp, id, s.org.rows[id].stamp) {
      StuckForGood(c, s, t, id);
    } else {
      FollowsKeeps(c, s, v, id);
      FollowsKeeps(c, s, t, id);
      WellToldRows(s, id);
      FollowsKeepsTruth(c, s, t, id);
      ScansOf(u);
      EnqueueReaches(c, u, k, stored, x);
      FollowsReach(c, v, t, x, id);
      CoversMappable(u, k, x);
      DrainedIsStored(t, x);
      SameTruth(s, t, id);
      ToldOrderFits(t, id);
    }
  }

  lemma SameTruth(s: Sys, t: Sys, id: string)
    requires AtTop(s, id) && id in t.org.rows && SameDeal(s.org, t.org, id)
    ensures AtTop(t, id) && Truly(t.org, id) == Truly(s.org, id) && t.org.rows[id] == s.org.rows[id]
  {
  }

  lemma EnqueueFollows(c: Config, s: Sys, k: nat, stored: seq<Event>, id: string)
    ensures Follows(c, s, Do(c, s, Enqueue(k, stored)), id)
  {
    hide Do, Follows;
    Stays(c, s);
    LeadsFollows(c, s, s, id);
    FollowsOn(c, s, s, Enqueue(k, stored), id);
  }

  lemma FollowsKeepsTruth(c: Config, s: Sys, t: Sys, id: string)
    requires id in s.org.rows && Follows(c, s, t, id) && RowsAre(s, Truly(s.org, id))
    ensures RowsAre(t, Truly(s.org, id))
  {
    hide Steps, Spares, RowsAre, Truly;
    var run :| Spares(c, s, run, id) && Steps(c, s, run) == t;
    StepsKeepTruth(c, s, run, id);
  }

  lemma ScansOf(s: Sys)
    requires Sound(s)
    ensures ScanInv(s)
  {
  }

  lemma CoversMappable(s: Sys, k: nat, x: SfRow)
    requires Covers(s, k, x)
    ensures Mappable(x)
  {
  }

  lemma FollowsReach(c: Config, s: Sys, t: Sys, x: SfRow, id: string)
    requires Sound(s) && Follows(c, s, t, id) && Reached(s, x)
    ensures Reached(t, x)
  {
    hide Steps, Spares, Sound, Reached;
    var run :| Spares(c, s, run, id) && Steps(c, s, run) == t;
    StepsReach(c, s, run, x);
  }

  // ---- the converse: a false row that is pending can win -----------------------------------------

  lemma SoundIsTidy(s: Sys)
    requires Sound(s)
    ensures Tidy(s)
  {
    hide AllKept, ErpInv, SeenInv, ScanInv, JobInv, RedriveInv;
  }

  /** A poll that fails as a whole may still have stored any of its rows. */
  lemma PollPublishes(c: Config, s: Sys, k: nat, x: SfRow)
    requires k in s.runs && s.runs[k].HasRows? && x in s.runs[k].rows
    ensures Do(c, s, PollSend(k, 0, 0, [Event(x, 0)])) == Publish(s, [Event(x, 0)]).(runs := s.runs - {k})
  {
    hide DoWork, DoRedrive, DoReconcile, Put;
    var rows := s.runs[k].rows;
    var evs := Poller.Package(rows, 0);
    var i :| 0 <= i < |rows| && rows[i] == x;
    assert evs[i] == Event(x, 0) && evs[0..] == evs;
    assert evs[..0] == [] && [Event(x, 0)][0..] == [Event(x, 0)];
    assert Publisher.SafePrefix(evs, 0, [Event(x, 0)]);
  }

  lemma OneMessage(s: Sys, e: Event)
    ensures var t := Publish(s, [e]);
            t.main == s.main[s.next := Msg(e, None, 0, true)] && t.erp == s.erp
  {
    assert Put(s.main, s.next, [e][..0]) == s.main;
  }

  /** While the ERP is behind, what a reconciliation has read and checks is wanted. */
  lemma BehindIsWanted(s: Sys, k: nat, x: SfRow)
    requires ScanInv(s) && Covers(s, k, x) && !Stored(s.erp, x.id, x.stamp)
    ensures Event(x, s.recs[k].now) in Wanted(s.recs[k])
  {
    hide Mappable, Stored;
    UnwantedIsStored(s, k, x);
  }

  /** A pending row can be brought onto a queue. */
  lemma PendingWaits(c: Config, s: Sys, x: SfRow) returns (t: Sys)
    requires Sound(s) && Pending(s, x) && Mappable(x) && !Stored(s.erp, x.id, x.stamp)
    ensures Leads(c, s, t) && t.erp == s.erp
    ensures (exists m :: m in t.main && t.main[m].event.row == x) || exists m :: m in t.dlq && t.dlq[m].event.row == x
  {
    hide Sound, Do, Leads, Mappable, Stored, Publish, Wanted;
    Stays(c, s);
    t := s;
    if k :| k in s.runs && s.runs[k].HasRows? && x in s.runs[k].rows {
      var e := Event(x, 0);
      PollPublishes(c, s, k, x);
      LeadsOn(c, s, s, PollSend(k, 0, 0, [e]));
      OneMessage(s, e);
      t := Do(c, s, PollSend(k, 0, 0, [e]));
      assert s.next in t.main;
    } else if k :| k in s.recs && x in s.recs[k].rows && Reconcile.Checked(x, s.recs[k].now, s.recs[k].grace) {
      var e := Event(x, s.recs[k].now);
      ScansOf(s);
      BehindIsWanted(s, k, x);
      EnqueueIsPublish(c, s, k, [e]);
      LeadsOn(c, s, s, Enqueue(k, [e]));
      OneMessage(s, e);
      t := Do(c, s, Enqueue(k, [e]));
      assert s.next in t.main;
    }
  }

  lemma WrittenIs(t: Tables, x: SfRow)
    requires Mappable(x) && !Stored(t, x.id, x.stamp)
    ensures var u := Transact(t, OrderOf(x), ""); x.id in u.orders && Snapshot(x.id, u.orders[x.id]) == OrderOf(x)
  {
  }

  /** Delivered first, it becomes the order. */
  lemma PendingWins(c: Config, s: Sys, x: SfRow) returns (t: Sys)
    requires Sound(s) && Pending(s, x) && Mappable(x) && !Stored(s.erp, x.id, x.stamp)
    ensures Leads(c, s, t) && x.id in t.erp.orders && Snapshot(x.id, t.erp.orders[x.id]) == OrderOf(x)
  {
    hide Sound, Leads, Mappable, Stored, Transact, OrderOf, Pending;
    var u := PendingWaits(c, s, x);
    LeadsKeeps(c, s, u);
    SoundIsTidy(u);
    WrittenIs(s.erp, x);
    if m :| m in u.main && u.main[m].event.row == x {
      t := WorkOffAnyway(c, u, m);
    } else {
      var m :| m in u.dlq && u.dlq[m].event.row == x;
      WorkOffLetter(c, u, m);
      t := u.(dlq := u.dlq - {m}, next := u.next + 1, erp := Transact(u.erp, OrderOf(x), ""));
    }
    LeadsCompose(c, s, u, t);
  }

  /** A reconciliation that reads the deal as it is and enqueues all it wants. */
  lemma ReconcileIt(c: Config, s: Sys, id: string) returns (t: Sys, k: nat, stored: seq<Event>)
    requires id in s.org.rows && s.org.rows[id].deal.won && Mappable(View(s.org, id))
    ensures Leads(c, s, t) && t.org == s.org && t.erp == s.erp && Covers(t, k, View(s.org, id)) && EnqueuesAll(t, k, stored)
  {
    hide Do, Leads, Mappable, Wanted;
    var row, now := View(s.org, id), s.org.clock + c.skew;
    k := Above(s.recs.Keys);
    var grace := now - row.stamp;
    assert row in Won(s.org);
    Stays(c, s);
    SyncLimits.ReadOneDeal(c, s, k, row, grace);
    LeadsOn(c, s, s, ReadDeals(k, now, grace, [row]));
    t := Do(c, s, ReadDeals(k, now, grace, [row]));
    stored := Wanted(t.recs[k]);
  }

  /** Whatever the ERP holds at the version, a reconciled and drained state can follow in which it holds the same. */
  lemma CanSettle(c: Config, s: Sys, id: string) returns (t: Sys)
    requires Sound(s) && AtTop(s, id) && Mappable(View(s.org, id)) && Stored(s.erp, id, s.org.rows[id].stamp)
    ensures t.org == s.org && Follows(c, s, t, id) && Reconciled(c, s, t, id) && Drained(t, id, s.org.rows[id].stamp)
  {
    hide Sound, Leads, Follows, Do, Covers, EnqueuesAll, Mappable, Stored, Drained, Publish;
    var u, k, stored := ReconcileIt(c, s, id);
    assert EnqueuesAll(u, k, stored);
    LeadsOn(c, s, u, Enqueue(k, stored));
    var v := Do(c, u, Enqueue(k, stored));
    LeadsKeeps(c, s, v);
    SoundIsTidy(v);
    StoredStays(s.erp, v.erp, id, s.org.rows[id].stamp);
    t := Drain(c, v, id, s.org.rows[id].stamp);
    LeadsFollows(c, s, u, id);
    LeadsFollows(c, v, t, id);
    LeadsCompose(c, s, v, t);
    LeadsFollows(c, s, t, id);
    assert ReconciledAt(c, s, t, id, u, k, stored, View(s.org, id));
  }

  /** From a state that is not well told, the ERP can end on the other content, however often the deal is
    * reconciled. */
  lemma IllToldDiffers(c: Config, s: Sys, id: string) returns (t: Sys)
    requires Reachable(c, s) && AtTop(s, id) && Mappable(View(s.org, id)) && !WellTold(s, id)
    ensures Reconciled(c, s, t, id) && id in t.org.rows && Drained(t, id, s.org.rows[id].stamp) && !Agrees(t, id)
  {
    hide Sound, Leads, Follows, Mappable, Stored, Drained, Reachable, Pending, OrderOf, Fits;
    ReachableIsSound(c, s);
    var stamp, u := s.org.rows[id].stamp, s;
    Stays(c, s);
    if !Stored(s.erp, id, stamp) {
      var x :| Pending(s, x) && !Truly(s.org, id)(x);
      u := PendingWins(c, s, x);
      LeadsKeeps(c, s, u);
      MadeIsStored(u, x, id, stamp);
    }
    t := CanSettle(c, u, id);
    ReachLeads(c, s, u);
    StuckForGood(c, u, t, id);
    LeadsFollows(c, s, u, id);
    LateReconciliation(c, s, u, t, id);
  }

  lemma MadeIsStored(s: Sys, x: SfRow, id: string, stamp: int)
    requires id in s.org.rows && Makes(x, id, stamp) && id in s.erp.orders && Snapshot(id, s.erp.orders[id]) == OrderOf(x)
    ensures Stored(s.erp, id, stamp)
  {
  }

  lemma LateReconciliation(c: Config, s: Sys, u: Sys, t: Sys, id: string)
    requires Follows(c, s, u, id) && u.org == s.org && id in s.org.rows && Reconciled(c, u, t, id)
    ensures Reconciled(c, s, t, id)
  {
    hide Follows, Do, Covers, EnqueuesAll;
    var v, k, stored, x :| ReconciledAt(c, u, t, id, v, k, stored, x);
    FollowsCompose(c, s, u, v, id);
    assert ReconciledAt(c, s, t, id, v, k, stored, x);
  }

  /** The exact condition. For a won deal at its highest stamp: while it is not edited again nor deleted, and whatever
    * else happens, every complete reconciliation of it ends, once the queues are drained of it, on the deal's own
    * fields, if and only if the order the ERP has at that version has them; or, where the ERP is behind, every row of
    * that version that waits, is parked, or was read has them. */
  lemma AgreesExactlyWhenWellTold(c: Config, s: Sys, id: string)
    requires Reachable(c, s) && AtTop(s, id) && Mappable(View(s.org, id))
    ensures (forall t :: Reconciled(c, s, t, id) && id in t.org.rows && Drained(t, id, s.org.rows[id].stamp) ==> Agrees(t, id))
        <==> WellTold(s, id)
  {
    hide Reachable, Reconciled, Drained, Agrees, WellTold, Mappable;
    if WellTold(s, id) {
      forall t | Reconciled(c, s, t, id) && id in t.org.rows && Drained(t, id, s.org.rows[id].stamp) ensures Agrees(t, id) {
        WellToldAgrees(c, s, t, id);
      }
    } else {
      var t := IllToldDiffers(c, s, id);
    }
  }

  // ---- the edit that is lost ---------------------------------------------------------------------

  lemma SalesforceDoes(c: Config, s: Sys, step: OrgStep) returns (t: Sys)
    requires Reachable(c, s)
    ensures Reachable(c, t) && t == s.(org := OrgDo(s.org, c.lag, step))
  {
    ReachOn(c, s, Salesforce(step));
    t := Do(c, s, Salesforce(step));
  }

  /** How long a poll has to wait before its window takes in the second that just began. */
  function Wait(lag: int): nat {
    2 * SECOND + if lag > 0 then lag else 0
  }

  lemma WindowOpens(lag: int, stamp: int)
    requires WholeSecond(stamp)
    ensures stamp < Poller.Upper(Truncate(stamp + Wait(lag)), lag)
  {
  }

  lemma BothBegin(c: Config, t: int) returns (s: Sys)
    ensures Reachable(c, s) && s == Init(0, SyncLimits.ACCOUNTS).(org := s.org)
    ensures s.org == NewOrg(t, SyncLimits.ACCOUNTS).(open := map[0 := Edit("006", SyncLimits.Sample("a"), t),
                                                                 1 := Edit("006", SyncLimits.Sample("b"), t)])
  {
    hide Reachable;
    s := Init(t, SyncLimits.ACCOUNTS);
    Starts(c, t);
    s := SalesforceDoes(c, s, Begin(0, "006", SyncLimits.Sample("a")));
    s := SalesforceDoes(c, s, Begin(1, "006", SyncLimits.Sample("b")));
  }

  /** Two edits of one deal in one second, the first committed, the second left open until after the lag. */
  lemma TwoEdits(c: Config) returns (s: Sys)
    ensures Reachable(c, s) && s == Init(0, SyncLimits.ACCOUNTS).(org := s.org)
    ensures var t := SyncLimits.FirstSecond(c.start);
            && s.org.clock == t + Wait(c.lag) && s.org.accounts == SyncLimits.ACCOUNTS
            && s.org.rows.Keys == {"006"} && s.org.rows["006"].deal == SyncLimits.Sample("a") && s.org.rows["006"].stamp == t
            && "006" in s.org.top && s.org.top["006"] == t
            && 1 in s.org.open && s.org.open[1] == Edit("006", SyncLimits.Sample("b"), t)
  {
    hide Reachable, SyncLimits.Sample, Wait;
    s := BothBegin(c, SyncLimits.FirstSecond(c.start));
    s := SalesforceDoes(c, s, Commit(0));
    s := SalesforceDoes(c, s, Tick(Wait(c.lag)));
  }

  lemma Starts(c: Config, clock: int)
    ensures Reachable(c, Init(clock, SyncLimits.ACCOUNTS))
  {
    assert After(c, clock, SyncLimits.ACCOUNTS, []) == Init(clock, SyncLimits.ACCOUNTS);
  }

  /** A whole poll of one deal, up to its last step. */
  lemma PollIt(c: Config, s: Sys, row: SfRow) returns (t: Sys)
    requires s.runs == map[] && s.mark == None && Won(s.org) == {row}
    requires c.start <= row.stamp < Poller.Upper(Truncate(s.org.clock), c.lag)
    ensures Leads(c, s, t) && t == Publish(s, [Event(row, 0)])
  {
    hide Leads, Do, Publish, Poller.Upper, Won;
    var e, upper := Event(row, 0), Poller.Upper(Truncate(s.org.clock), c.lag);
    OneRowAnswers(c, s, c.start, row);
    OneRowIsSafe(row);
    SyncClasses.PollReads(c, s, 0, upper, [row]);
    var s1 := s.(runs := s.runs[0 := HasRows(c.start, upper, [row])]);
    SyncClasses.PollSends(c, s, 0, c.start, upper, [row], 0, 1, [e]);
    LeadsOn(c, s, s1, PollSend(0, 0, 1, [e]));
    var s2 := Do(c, s1, PollSend(0, 0, 1, [e]));
    SyncLimits.StopPoll(c, s2, 0);
    LeadsOn(c, s, s2, PollStop(0));
    t := Do(c, s2, PollStop(0));
    assert s2.runs - {0} == s.runs;
    SyncClasses.PublishKeepsRuns(s, [e]);
  }

  lemma OneRowAnswers(c: Config, s: Sys, from: int, row: SfRow)
    requires var upper := Poller.Upper(Truncate(s.org.clock), c.lag); from <= row.stamp < upper
    ensures Poller.IsAnswer({row}, from, Poller.Upper(Truncate(s.org.clock), c.lag), [row])
  {
    var upper := Poller.Upper(Truncate(s.org.clock), c.lag);
    assert Truncate(upper) == upper;
  }

  lemma OneRowIsSafe(row: SfRow)
    ensures Publisher.SafePrefix(Poller.Package([row], 0), 1, [Event(row, 0)])
  {
    assert Poller.Package([row], 0) == [Event(row, 0)];
  }

  /** Nothing waits anywhere, the won deal is at its highest stamp, which an edit joined late, and the ERP has that
    * version with other content, and keeps it until the deal is edited again or deleted: whatever later polls,
    * deliveries, redrives and reconciliations do, and whatever else changes in Salesforce. */
  ghost predicate LostForGood(c: Config, s: Sys, id: string) {
    && s.main == map[] && s.dlq == map[]
    && AtTop(s, id) && Mappable(View(s.org, id)) && (id, s.org.rows[id].stamp) in s.org.late
    && forall t :: Follows(c, s, t, id) && id in t.org.rows ==> Differs(t, id)
  }

  lemma DiffersForGood(c: Config, s: Sys, id: string)
    requires Reachable(c, s) && Caught(s, id) && Differs(s, id)
    ensures forall t :: Follows(c, s, t, id) && id in t.org.rows ==> Differs(t, id)
  {
    hide Reachable, Follows, Differs;
    forall t | Follows(c, s, t, id) && id in t.org.rows ensures Differs(t, id) {
      StuckForGood(c, s, t, id);
    }
  }

  /** The failing input, for every configuration: the first edit's version is polled, written and acknowledged, then
    * the second edit commits into the same second. */
  lemma LateEditIsLost(c: Config)
    ensures exists s, id :: Reachable(c, s) && LostForGood(c, s, id)
  {
    hide Reachable, Follows, Do, Mappable, OrgDo, Differs, Caught;
    var s := TwoEdits(c);
    var v := FirstEditArrives(c, s);
    var w := SalesforceDoes(c, v, Commit(1));
    SecondEditDiffers(c, v, w);
    DiffersForGood(c, w, "006");
    LateCommitKeepsQueues(c, v, w);
    assert LostForGood(c, w, "006");
  }

  lemma LateCommitKeepsQueues(c: Config, s: Sys, t: Sys)
    requires t == s.(org := OrgDo(s.org, c.lag, Commit(1)))
    ensures t.main == s.main && t.dlq == s.dlq
  {
  }

  lemma SecondEditDiffers(c: Config, s: Sys, t: Sys)
    requires t == s.(org := OrgDo(s.org, c.lag, Commit(1)))
    requires "006" in s.org.rows && 1 in s.org.open && s.org.accounts == SyncLimits.ACCOUNTS
    requires var row := s.org.rows["006"];
             && row.deal == SyncLimits.Sample("a") && WholeSecond(row.stamp) && row.stamp > 0
             && "006" in s.org.top && s.org.top["006"] == row.stamp
             && s.org.open[1] == Edit("006", SyncLimits.Sample("b"), row.stamp) && s.org.clock > row.stamp + c.lag
    requires Mappable(View(s.org, "006"))
    requires "006" in s.erp.orders && Snapshot("006", s.erp.orders["006"]) == OrderOf(View(s.org, "006"))
    ensures AtTop(t, "006") && Differs(t, "006") && Caught(t, "006") && Mappable(View(t.org, "006"))
    ensures ("006", t.org.rows["006"].stamp) in t.org.late
  {
    SyncLimits.SampleIsMappable("b", t.org.rows["006"].stamp, "Acme");
    assert "a"[0] != "b"[0];
  }

  /** The first edit is polled, written and acknowledged. */
  lemma FirstEditArrives(c: Config, s: Sys) returns (t: Sys)
    requires Reachable(c, s) && s == Init(0, SyncLimits.ACCOUNTS).(org := s.org)
    requires s.org.rows.Keys == {"006"} && s.org.accounts == SyncLimits.ACCOUNTS
    requires var v := s.org.rows["006"]; v.deal == SyncLimits.Sample("a") && v.stamp == SyncLimits.FirstSecond(c.start)
    requires s.org.clock == s.org.rows["006"].stamp + Wait(c.lag)
    ensures Reachable(c, t) && t.org == s.org && t.main == map[] && t.dlq == map[]
    ensures "006" in t.erp.orders && Snapshot("006", t.erp.orders["006"]) == OrderOf(View(s.org, "006"))
    ensures Mappable(View(s.org, "006"))
  {
    hide Reachable, Leads, Do, Mappable, OrderOf, Publish, Transact, Stored;
    var row := View(s.org, "006");
    assert Won(s.org) == {row};
    SyncLimits.SampleIsMappable("a", row.stamp, "Acme");
    WindowOpens(c.lag, row.stamp);
    var u := PollIt(c, s, row);
    OneMessage(s, Event(row, 0));
    PublishesToMain(s, Event(row, 0));
    WorkOff(c, u, s.next);
    t := u.(main := u.main - {s.next}, erp := Transact(u.erp, OrderOf(row), ""));
    LeadsCompose(c, s, u, t);
    ReachLeads(c, s, t);
    NothingStored(row);
    WrittenIs(s.erp, row);
  }

  lemma PublishesToMain(s: Sys, e: Event)
    ensures Publish(s, [e]).org == s.org && Publish(s, [e]).dlq == s.dlq
  {
  }

  lemma NothingStored(x: SfRow)
    ensures !Stored(EMPTY, x.id, x.stamp)
  {
  }
}
