/** The ERP over whole runs: its tables always agree, only move forward, and hold nothing that was not published. */
module SyncErp {
  import opened Prelude
  import opened Events
  import opened Mapping
  import opened Erp
  import opened Sync
  import opened SyncQueues

  /** The stored order is exactly what some published event maps to. */
  ghost predicate FromEvent(s: Sys, id: string, e: Event)
    requires id in s.erp.orders
  {
    e in s.published && Mappable(e.row) && Snapshot(id, s.erp.orders[id]) == OrderOf(e.row)
  }

  ghost predicate Sourced(s: Sys) {
    forall id :: id in s.erp.orders ==> exists e :: FromEvent(s, id, e)
  }

  ghost predicate ErpInv(s: Sys) {
    Integrity(s.erp) && Sourced(s)
  }

  /** `erp` is the tables after one transaction for the event. */
  ghost predicate Wrote(s: Sys, erp: Tables, e: Event, now: string) {
    e in s.published && Mappable(e.row) && erp == Transact(s.erp, OrderOf(e.row), now)
  }

  ghost predicate SameErp(s: Sys, t: Sys) {
    t.erp == s.erp && s.published <= t.published
  }

  lemma OthersLeaveErp(c: Config, s: Sys, a: Action)
    requires !a.Write?
    ensures SameErp(s, Do(c, s, a))
  {
    hide DoWork, DoRedrive, DoPoll, DoReconcile;
  }

  lemma AttemptIsTransaction(t: Tables, o: Order, now: string, fate: Fate)
    ensures Attempt(t, o, now, fate).0 == t || Attempt(t, o, now, fate).0 == Transact(t, o, now)
  {
  }

  /** The only step that changes the ERP is a worker's transaction, over a published event. */
  lemma WriteTransacts(s: Sys, job: nat, now: string, fate: Fate)
    requires Conserved(s)
    ensures var t := DoWrite(s, job, now, fate);
            t.published == s.published && (t.erp == s.erp || exists e, at :: Wrote(s, t.erp, e, at))
  {
    if At(s, job, Ready) && Honest(fate) {
      var e := Current(s, job).1;
      var d := Decode(Wire(e));
      if d.Ok? {
        assert JobInv(s, s.jobs[job]);
        assert RecordInv(s, Current(s, job));
        DecodeWire(e);
        AttemptIsTransaction(s.erp, d.value, now, fate);
        var t := DoWrite(s, job, now, fate);
        assert t.erp == s.erp || Wrote(s, t.erp, e, now);
      }
    }
  }

  lemma SameErpKeeps(s: Sys, t: Sys)
    requires ErpInv(s) && SameErp(s, t)
    ensures ErpInv(t) && Later(s.erp, t.erp)
  {
    ReflexiveLater(s.erp);
    forall id | id in t.erp.orders ensures exists x :: FromEvent(t, id, x) {
      var x :| FromEvent(s, id, x);
      assert FromEvent(t, id, x);
    }
  }

  lemma WroteKeeps(s: Sys, t: Sys, e: Event, now: string)
    requires ErpInv(s) && Wrote(s, t.erp, e, now) && t.published == s.published
    ensures ErpInv(t) && Later(s.erp, t.erp)
  {
    TransactKeepsIntegrity(s.erp, OrderOf(e.row), now);
    TransactIsLater(s.erp, OrderOf(e.row), now);
    forall id | id in t.erp.orders ensures exists x :: FromEvent(t, id, x) {
      if id in s.erp.orders && t.erp.orders[id] == s.erp.orders[id] {
        var x :| FromEvent(s, id, x);
        assert FromEvent(t, id, x);
      } else {
        assert FromEvent(t, id, e);
      }
    }
  }

  lemma WriteKeepsErp(s: Sys, job: nat, now: string, fate: Fate)
    requires Conserved(s) && ErpInv(s)
    ensures ErpInv(DoWrite(s, job, now, fate)) && Later(s.erp, DoWrite(s, job, now, fate).erp)
  {
    var t := DoWrite(s, job, now, fate);
    WriteTransacts(s, job, now, fate);
    if t.erp == s.erp {
      SameErpKeeps(s, t);
    } else {
      var e, at :| Wrote(s, t.erp, e, at);
      WroteKeeps(s, t, e, at);
    }
  }

  lemma StepKeepsErp(c: Config, s: Sys, a: Action)
    requires Conserved(s) && ErpInv(s)
    ensures ErpInv(Do(c, s, a)) && Later(s.erp, Do(c, s, a).erp)
  {
    if a.Write? {
      WriteKeepsErp(s, a.job, a.writtenAt, a.fate);
      WriteIsWrite(c, s, a);
    } else {
      OthersLeaveErp(c, s, a);
      SameErpKeeps(s, Do(c, s, a));
    }
  }

  lemma WriteIsWrite(c: Config, s: Sys, a: Action)
    requires a.Write?
    ensures Do(c, s, a) == DoWrite(s, a.job, a.writtenAt, a.fate)
  {
  }

  lemma {:induction false} RunKeepsErp(c: Config, clock: int, accounts: map<string, string>, run: seq<Action>)
    ensures ErpInv(After(c, clock, accounts, run))
  {
    if run != [] {
      var init := run[..|run| - 1];
      RunKeeps(c, clock, accounts, init);
      RunKeepsErp(c, clock, accounts, init);
      StepKeepsErp(c, After(c, clock, accounts, init), run[|run| - 1]);
    }
  }

  /** In every reachable state each order has one invoice that agrees with it and an existing customer, each invoice
    * has its order, and each stored order is exactly the mapping of a published event. */
  lemma TablesAlwaysAgree(c: Config, clock: int, accounts: map<string, string>, run: seq<Action>)
    ensures var s := After(c, clock, accounts, run);
            && Integrity(s.erp)
            && forall id :: id in s.erp.orders ==>
                 exists e :: e in s.published && Decode(Wire(e)) == Ok(Snapshot(id, s.erp.orders[id]))
  {
    var s := After(c, clock, accounts, run);
    RunKeepsErp(c, clock, accounts, run);
    forall id | id in s.erp.orders
      ensures exists e :: e in s.published && Decode(Wire(e)) == Ok(Snapshot(id, s.erp.orders[id]))
    {
      var e :| FromEvent(s, id, e);
      DecodeWire(e);
    }
  }

  /** From any point of a run to any later point, versions and revisions never fall, creation times never change and
    * nothing is deleted. */
  lemma {:induction false} TablesOnlyMoveForward(c: Config, clock: int, accounts: map<string, string>, run: seq<Action>, n: nat)
    requires n <= |run|
    ensures Later(After(c, clock, accounts, run[..n]).erp, After(c, clock, accounts, run).erp)
    decreases |run|
  {
    if n == |run| {
      assert run[..n] == run;
      ReflexiveLater(After(c, clock, accounts, run).erp);
    } else {
      var init := run[..|run| - 1];
      assert init[..n] == run[..n];
      TablesOnlyMoveForward(c, clock, accounts, init, n);
      RunKeeps(c, clock, accounts, init);
      RunKeepsErp(c, clock, accounts, init);
      StepKeepsErp(c, After(c, clock, accounts, init), run[|run| - 1]);
      LaterComposes(After(c, clock, accounts, run[..n]).erp, After(c, clock, accounts, init).erp,
                    After(c, clock, accounts, run).erp);
    }
  }

  // ---- the ERP as a sequence of deliveries ---------------------------------------------------

  ghost predicate OfPublished(s: Sys, d: Delivery) {
    exists e :: e in s.published && Mappable(e.row) && OrderOf(e.row) == d.order
  }

  /** These deliveries, each of a published event, make the ERP what it is. */
  ghost predicate Delivers(s: Sys, ds: seq<Delivery>) {
    s.erp == Deliver(EMPTY, ds) && forall d :: d in ds ==> OfPublished(s, d)
  }

  lemma SameErpDelivers(s: Sys, t: Sys, ds: seq<Delivery>)
    requires Delivers(s, ds) && SameErp(s, t)
    ensures Delivers(t, ds)
  {
    forall d | d in ds ensures OfPublished(t, d) {
      var e :| e in s.published && Mappable(e.row) && OrderOf(e.row) == d.order;
    }
  }

  lemma WroteDelivers(s: Sys, t: Sys, ds: seq<Delivery>, e: Event, now: string)
    requires Delivers(s, ds) && Wrote(s, t.erp, e, now) && t.published == s.published
    ensures Delivers(t, ds + [Delivery(OrderOf(e.row), now)])
  {
    hide Transact, Mappable, OrderOf;
    var more := ds + [Delivery(OrderOf(e.row), now)];
    assert more[..|ds|] == ds;
    forall d | d in more ensures OfPublished(t, d) {
      if d in ds {
        assert OfPublished(s, d);
      } else {
        assert d.order == OrderOf(e.row);
      }
    }
  }

  lemma StepDelivers(c: Config, s: Sys, a: Action, ds: seq<Delivery>) returns (more: seq<Delivery>)
    requires Conserved(s) && Delivers(s, ds)
    ensures Delivers(Do(c, s, a), more)
  {
    hide Conserved, Do, DoWrite, Delivers, Transact, Mappable;
    var t := Do(c, s, a);
    more := ds;
    if a.Write? {
      WriteIsWrite(c, s, a);
      WriteTransacts(s, a.job, a.writtenAt, a.fate);
      if t.erp == s.erp {
        SameErpDelivers(s, t, ds);
      } else {
        var e, at :| Wrote(s, t.erp, e, at);
        WroteDelivers(s, t, ds, e, at);
        more := ds + [Delivery(OrderOf(e.row), at)];
      }
    } else {
      OthersLeaveErp(c, s, a);
      SameErpDelivers(s, t, ds);
    }
  }

  /** In every reachable state the ERP is what some sequence of deliveries, all of published events, leaves behind. So
    * what holds of any deliveries, of orders and of customers, holds of the system. */
  lemma {:induction false} ErpIsDeliveries(c: Config, clock: int, accounts: map<string, string>, run: seq<Action>)
    ensures exists ds :: Delivers(After(c, clock, accounts, run), ds)
  {
    hide Do, Conserved;
    if run == [] {
      DeliverNothing(EMPTY);
      assert Delivers(After(c, clock, accounts, run), []);
    } else {
      var init := run[..|run| - 1];
      ErpIsDeliveries(c, clock, accounts, init);
      RunKeeps(c, clock, accounts, init);
      var ds :| Delivers(After(c, clock, accounts, init), ds);
      var more := StepDelivers(c, After(c, clock, accounts, init), run[|run| - 1], ds);
      assert Delivers(After(c, clock, accounts, run), more);
    }
  }
}
