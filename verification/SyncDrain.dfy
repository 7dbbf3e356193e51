/** Draining: any message that can become an order can be worked off, whichever queue it waits on. */
module SyncDrain {
  import opened Prelude
  import opened Events
  import opened Mapping
  import opened Erp
  import opened Sync
  import opened SyncRuns

  /** A number above all of these. */
  lemma Above(ks: set<nat>) returns (n: nat)
    ensures forall k :: k in ks ==> k < n
    decreases ks
  {
    if ks == {} {
      n := 0;
    } else {
      var k :| k in ks;
      var most := Above(ks - {k});
      n := if most <= k then k + 1 else most;
      assert forall x :: x in ks ==> x == k || x in ks - {k};
    }
  }

  // ---- a message on the main queue --------------------------------------------------------

  /** The job has one record, and is about to write it or has acknowledged it. */
  function OneRecord(m: nat, e: Event, done: bool): Job {
    if done then Job([(m, e)], 1, Ready, {m}) else Job([(m, e)], 0, Ready, {})
  }

  lemma ShowIt(c: Config, s: Sys, m: nat)
    requires m in s.main
    ensures Do(c, s, Expire(m)) == s.(main := s.main[m := s.main[m].(visible := true)])
  {
    hide DoPoll, DoRedrive, DoReconcile;
  }

  lemma ReceiveIt(c: Config, s: Sys, k: nat, m: nat)
    requires m in s.main && s.main[m].visible && s.main[m].received < MAX_RECEIVES && k !in s.jobs
    ensures Do(c, s, Receive(k, [m]))
         == s.(main := Hand(s.main, [m]), jobs := s.jobs[k := OneRecord(m, s.main[m].event, false)])
  {
    hide DoPoll, DoRedrive, DoReconcile, Hand;
    var t := Do(c, s, Receive(k, [m]));
    assert Receivable(s, [m]);
    assert t == DoReceive(s, k, [m]);
    assert t.jobs[k].batch == [(m, s.main[m].event)];
  }

  /** A transaction, accepted or not, leaves the order at the record's version or past it. */
  lemma EvaluatedIsStored(t: Tables, o: Order)
    ensures var (erp, err) := Attempt(t, o, "", Evaluate(true));
            && erp == Transact(t, o, "")
            && (err.Some? ==> !NeedsRead(err.value) && Erp.Classify(err.value, o, None).Ok?)
  {
    hide NewOrder, NewInvoice, NewCustomer;
  }

  lemma WriteIsAttempt(c: Config, s: Sys, k: nat, m: nat, e: Event)
    requires k in s.jobs && s.jobs[k] == OneRecord(m, e, false) && Mappable(e.row)
    ensures Do(c, s, Write(k, "", Evaluate(true))) == DoAttempt(s, k, OrderOf(e.row), "", Evaluate(true))
  {
    hide DoPoll, DoRedrive, DoReconcile, DoAttempt, Wire, Decode, Mappable, OrderOf;
    DecodeWire(e);
  }

  /** So the record is acknowledged. */
  lemma WriteIt(c: Config, s: Sys, k: nat, m: nat, e: Event)
    requires k in s.jobs && s.jobs[k] == OneRecord(m, e, false) && Mappable(e.row)
    ensures Do(c, s, Write(k, "", Evaluate(true)))
         == s.(erp := Transact(s.erp, OrderOf(e.row), ""), jobs := s.jobs[k := OneRecord(m, e, true)])
  {
    hide Do, Attempt, Transact, NeedsRead, Erp.Classify, Mappable, OrderOf;
    WriteIsAttempt(c, s, k, m, e);
    EvaluatedIsStored(s.erp, OrderOf(e.row));
    assert {} + {m} == {m};
  }

  lemma AcknowledgeIt(c: Config, s: Sys, k: nat, m: nat, e: Event)
    requires k in s.jobs && s.jobs[k] == OneRecord(m, e, true)
    ensures Do(c, s, Acknowledge(k, m)) == s.(main := s.main - {m})
  {
    hide DoPoll, DoRedrive, DoReconcile;
  }

  lemma EndJob(c: Config, s: Sys, k: nat)
    ensures Do(c, s, Crash(k)) == s.(jobs := s.jobs - {k})
  {
    hide DoPoll, DoRedrive, DoReconcile;
  }

  lemma HandedAway(s: Sys, m: nat, b: bool)
    requires m in s.main
    ensures Hand(s.main[m := s.main[m].(visible := b)], [m]) - {m} == s.main - {m}
  {
  }

  /** A message that has receives left is written, acknowledged, and gone. */
  lemma WorkOff(c: Config, s: Sys, m: nat)
    requires m in s.main && s.main[m].received < MAX_RECEIVES && Mappable(s.main[m].event.row)
    ensures Leads(c, s, s.(main := s.main - {m}, erp := Transact(s.erp, OrderOf(s.main[m].event.row), "")))
  {
    hide Do, Leads, Mappable, Transact, Hand, OrderOf;
    var e := s.main[m].event;
    var k := Above(s.jobs.Keys);
    Stays(c, s);
    ShowIt(c, s, m);
    LeadsOn(c, s, s, Expire(m));
    var s1 := Do(c, s, Expire(m));
    ReceiveIt(c, s1, k, m);
    LeadsOn(c, s, s1, Receive(k, [m]));
    var s2 := Do(c, s1, Receive(k, [m]));
    WriteIt(c, s2, k, m, e);
    LeadsOn(c, s, s2, Write(k, "", Evaluate(true)));
    var s3 := Do(c, s2, Write(k, "", Evaluate(true)));
    AcknowledgeIt(c, s3, k, m, e);
    LeadsOn(c, s, s3, Acknowledge(k, m));
    var s4 := Do(c, s3, Acknowledge(k, m));
    EndJob(c, s4, k);
    LeadsOn(c, s, s4, Crash(k));
    HandedAway(s, m, true);
    assert s4.jobs - {k} == s.jobs;
  }

  // ---- a message on the dead-letter queue ---------------------------------------------------

  lemma ExhaustIt(c: Config, s: Sys, m: nat)
    requires m in s.main && s.main[m].visible && s.main[m].received >= MAX_RECEIVES
    ensures Do(c, s, Exhaust(m)) == s.(main := s.main - {m}, dlq := s.dlq[m := s.main[m]])
  {
    hide DoPoll, DoRedrive, DoReconcile;
  }

  function OneLetter(m: nat, msg: Msg, sent: bool): Redrive {
    Redrive(true, [(m, msg)], 0, sent)
  }

  lemma PeekIt(c: Config, s: Sys, r: nat, m: nat)
    requires m in s.dlq && r !in s.redrives
    ensures Do(c, s, Peek(r, true, [m])) == s.(redrives := s.redrives[r := OneLetter(m, s.dlq[m], false)])
  {
    hide DoPoll, DoWork, DoReconcile;
    var t := Do(c, s, Peek(r, true, [m]));
    assert t == DoRedrive(s, Peek(r, true, [m]));
    assert t.redrives[r].todo == [(m, s.dlq[m])];
  }

  lemma CopyIt(c: Config, s: Sys, r: nat, m: nat, msg: Msg)
    requires r in s.redrives && s.redrives[r] == OneLetter(m, msg, false)
    ensures Do(c, s, Copy(r)) == s.(main := s.main[s.next := Msg(msg.event, None, 0, true)], next := s.next + 1,
                                    redrives := s.redrives[r := OneLetter(m, msg, true)])
  {
    hide DoPoll, DoWork, DoReconcile;
  }

  lemma DropIt(c: Config, s: Sys, r: nat, m: nat, msg: Msg)
    requires r in s.redrives && s.redrives[r] == OneLetter(m, msg, true)
    ensures var t := Do(c, s, Drop(r, true));
            r in t.redrives && t == s.(dlq := s.dlq - {m}, redrives := s.redrives[r := t.redrives[r]])
  {
    hide DoPoll, DoWork, DoReconcile;
  }

  lemma EndRedrive(c: Config, s: Sys, r: nat)
    ensures Do(c, s, StopRedrive(r)) == s.(redrives := s.redrives - {r})
  {
    hide DoPoll, DoWork, DoReconcile;
  }

  /** A dead letter moves back under a new id. */
  lemma MoveBack(c: Config, s: Sys, m: nat)
    requires m in s.dlq
    ensures Leads(c, s, s.(dlq := s.dlq - {m}, main := s.main[s.next := Msg(s.dlq[m].event, None, 0, true)], next := s.next + 1))
  {
    hide Do, Leads;
    var msg := s.dlq[m];
    var r := Above(s.redrives.Keys);
    Stays(c, s);
    PeekIt(c, s, r, m);
    LeadsOn(c, s, s, Peek(r, true, [m]));
    var s1 := Do(c, s, Peek(r, true, [m]));
    CopyIt(c, s1, r, m, msg);
    LeadsOn(c, s, s1, Copy(r));
    var s2 := Do(c, s1, Copy(r));
    DropIt(c, s2, r, m, msg);
    LeadsOn(c, s, s2, Drop(r, true));
    var s3 := Do(c, s2, Drop(r, true));
    EndRedrive(c, s3, r);
    LeadsOn(c, s, s3, StopRedrive(r));
    assert s3.redrives - {r} == s.redrives;
  }

  /** A dead letter that can become an order moves back, is written, and is gone from both queues. */
  lemma WorkOffLetter(c: Config, s: Sys, m: nat)
    requires m in s.dlq && s.next !in s.main && Mappable(s.dlq[m].event.row)
    ensures Leads(c, s, s.(dlq := s.dlq - {m}, next := s.next + 1, erp := Transact(s.erp, OrderOf(s.dlq[m].event.row), "")))
  {
    hide Leads, Mappable, Transact, OrderOf;
    var t := s.(dlq := s.dlq - {m}, main := s.main[s.next := Msg(s.dlq[m].event, None, 0, true)], next := s.next + 1);
    MoveBack(c, s, m);
    WorkOff(c, t, s.next);
    assert t.main - {s.next} == s.main;
    LeadsCompose(c, s, t, t.(main := t.main - {s.next}, erp := Transact(s.erp, OrderOf(s.dlq[m].event.row), "")));
  }

  /** A message without receives left takes the way over the dead-letter queue. */
  lemma WorkOffAnyway(c: Config, s: Sys, m: nat) returns (t: Sys)
    requires m in s.main && m !in s.dlq && s.next !in s.main && Mappable(s.main[m].event.row)
    ensures Leads(c, s, t)
    ensures s.next <= t.next && t == s.(main := s.main - {m}, next := t.next, erp := Transact(s.erp, OrderOf(s.main[m].event.row), ""))
  {
    hide Do, Leads, Mappable, Transact, OrderOf;
    if s.main[m].received < MAX_RECEIVES {
      WorkOff(c, s, m);
      t := s.(main := s.main - {m}, erp := Transact(s.erp, OrderOf(s.main[m].event.row), ""));
    } else {
      Stays(c, s);
      ShowIt(c, s, m);
      LeadsOn(c, s, s, Expire(m));
      var s1 := Do(c, s, Expire(m));
      ExhaustIt(c, s1, m);
      LeadsOn(c, s, s1, Exhaust(m));
      var s2 := Do(c, s1, Exhaust(m));
      WorkOffLetter(c, s2, m);
      assert s2.dlq - {m} == s.dlq && s2.main == s.main - {m};
      t := s2.(dlq := s2.dlq - {m}, next := s2.next + 1, erp := Transact(s2.erp, OrderOf(s2.dlq[m].event.row), ""));
      LeadsCompose(c, s, s2, t);
    }
  }

  // ---- all messages of one version -------------------------------------------------------------

  /** A row that can become the order of this version. */
  predicate Makes(x: SfRow, id: string, stamp: int) {
    x.id == id && x.stamp == stamp && Mappable(x)
  }

  function Left(q: map<nat, Msg>, id: string, stamp: int): set<nat> {
    set m | m in q && Makes(q[m].event.row, id, stamp)
  }

  /** No message on either queue can become the order of this version. */
  predicate Drained(s: Sys, id: string, stamp: int) {
    Left(s.main, id, stamp) == {} && Left(s.dlq, id, stamp) == {}
  }

  /** New ids are free and no id is on both queues. */
  ghost predicate Tidy(s: Sys) {
    forall m :: m in s.main ==> m < s.next && m !in s.dlq
  }

  /** An ERP that has the version already refuses it again. */
  lemma AgainIsNothing(t: Tables, x: SfRow, id: string, stamp: int)
    requires Stored(t, id, stamp) && Makes(x, id, stamp)
    ensures Transact(t, OrderOf(x), "") == t
  {
  }

  lemma LeftWithout(q: map<nat, Msg>, m: nat, id: string, stamp: int)
    ensures Left(q - {m}, id, stamp) == Left(q, id, stamp) - {m}
  {
    hide Makes;
  }

  lemma LeftHas(q: map<nat, Msg>, m: nat, id: string, stamp: int)
    ensures m in Left(q, id, stamp) <==> m in q && Makes(q[m].event.row, id, stamp)
  {
    hide Makes;
  }

  function Waiting(s: Sys, id: string, stamp: int): nat {
    |Left(s.main, id, stamp)| + |Left(s.dlq, id, stamp)|
  }

  lemma DrainMain(c: Config, s: Sys, id: string, stamp: int, m: nat) returns (t: Sys)
    requires Tidy(s) && Stored(s.erp, id, stamp) && m in Left(s.main, id, stamp)
    ensures Leads(c, s, t) && Tidy(t) && t == s.(main := t.main, next := t.next)
    ensures Waiting(t, id, stamp) < Waiting(s, id, stamp)
  {
    hide Leads, Mappable, Transact, OrderOf, Stored, Left;
    LeftHas(s.main, m, id, stamp);
    t := WorkOffAnyway(c, s, m);
    AgainIsNothing(s.erp, s.main[m].event.row, id, stamp);
    LeftWithout(s.main, m, id, stamp);
  }

  lemma DrainDlq(c: Config, s: Sys, id: string, stamp: int, m: nat) returns (t: Sys)
    requires Tidy(s) && Stored(s.erp, id, stamp) && m in Left(s.dlq, id, stamp)
    ensures Leads(c, s, t) && Tidy(t) && t == s.(dlq := t.dlq, next := t.next)
    ensures Waiting(t, id, stamp) < Waiting(s, id, stamp)
  {
    hide Leads, Mappable, Transact, OrderOf, Stored, Left;
    LeftHas(s.dlq, m, id, stamp);
    WorkOffLetter(c, s, m);
    AgainIsNothing(s.erp, s.dlq[m].event.row, id, stamp);
    LeftWithout(s.dlq, m, id, stamp);
    t := s.(dlq := s.dlq - {m}, next := s.next + 1);
  }

  /** Once the ERP has the version, both queues can be drained of it, and nothing else changes. */
  lemma {:induction false} Drain(c: Config, s: Sys, id: string, stamp: int) returns (t: Sys)
    requires Tidy(s) && Stored(s.erp, id, stamp)
    ensures Leads(c, s, t) && Drained(t, id, stamp)
    ensures t == s.(main := t.main, dlq := t.dlq, next := t.next)
    decreases Waiting(s, id, stamp)
  {
    hide Leads, Stored, Left, Tidy;
    if Drained(s, id, stamp) {
      Stays(c, s);
      t := s;
    } else {
      var u: Sys;
      if Left(s.main, id, stamp) != {} {
        var m :| m in Left(s.main, id, stamp);
        u := DrainMain(c, s, id, stamp, m);
      } else {
        var m :| m in Left(s.dlq, id, stamp);
        u := DrainDlq(c, s, id, stamp, m);
      }
      t := Drain(c, u, id, stamp);
      LeadsCompose(c, s, u, t);
    }
  }
}
