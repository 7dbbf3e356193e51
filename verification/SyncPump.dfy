/** The pump's own queue and the machine's are one queue: a cycle of the pump moves both the same way. */
module SyncPump {
  import opened Mapping
  import opened Outcomes
  import opened Sync
  import opened SyncRuns
  import opened SyncClasses
  import opened EsmPump
  import Queues
  import Worker

  /** The queue shows this message of the machine under its id. */
  predicate Shown(m: Msg, q: Queues.QueueState, id: string) {
    && id in q.messages && q.messages[id].body == Wire(m.event) && q.messages[id].received == m.received
    && (m.visible <==> id !in q.hidden)
  }

  /** The queue holds exactly the machine's messages, under the text of their ids. */
  ghost predicate Mirrors(main: map<nat, Msg>, q: Queues.QueueState) {
    && (forall n :: n in main ==> Shown(main[n], q, Queues.Id(n)))
    && (forall id :: id in q.messages ==> exists n :: n in main && Queues.Known(n, id))
  }

  /** The machine's number for a message of the queue. */
  ghost function NumberOf(main: map<nat, Msg>, q: Queues.QueueState, id: string): (n: nat)
    requires Mirrors(main, q) && id in q.messages
    ensures n in main && Queues.Id(n) == id
  {
    var n :| n in main && Queues.Known(n, id);
    n
  }

  lemma IdsDiffer(m: nat, n: nat)
    requires Queues.Id(m) == Queues.Id(n)
    ensures m == n
  {
  }

  ghost function NumbersOf(main: map<nat, Msg>, q: Queues.QueueState, batch: seq<Queues.Receipt>): (ids: seq<nat>)
    requires Mirrors(main, q) && forall r :: r in batch ==> r.id in q.messages
    ensures |ids| == |batch| && forall i :: 0 <= i < |batch| ==> ids[i] in main && Queues.Id(ids[i]) == batch[i].id
  {
    seq(|batch|, i requires 0 <= i < |batch| => NumberOf(main, q, batch[i].id))
  }

  lemma NumbersAreReceivable(s: Sys, q: Queues.QueueState, pick: seq<string>, ids: seq<nat>)
    requires Mirrors(s.main, q)
    requires var batch := Queues.ReceivedAll(q, pick, BATCH_SIZE).1;
             && batch != [] && |ids| == |batch| && (forall r :: r in batch ==> r.message.received <= MAX_RECEIVES)
             && forall i :: 0 <= i < |batch| ==> ids[i] in s.main && Queues.Id(ids[i]) == batch[i].id
    ensures Receivable(s, ids) && RecordsOf(BatchOf(s, ids), ToRecords(Queues.ReceivedAll(q, pick, BATCH_SIZE).1))
  {
    hide Queues.ReceivedAll, Wire, Queues.OnlyHides, Queues.Id;
    var (t, batch) := Queues.ReceivedAll(q, pick, BATCH_SIZE);
    Queues.ReceivedAllDelivers(q, pick, BATCH_SIZE);
    Queues.ReceivedCounts(q, pick, BATCH_SIZE);
    forall i | 0 <= i < |ids|
      ensures s.main[ids[i]].visible && s.main[ids[i]].received < MAX_RECEIVES
      ensures batch[i].message.body == Wire(s.main[ids[i]].event)
    {
      assert batch[i] in batch;
      assert Queues.Visible(q, batch[i].id) && Queues.Holds(batch, batch[i].id);
      assert Shown(s.main[ids[i]], q, batch[i].id);
    }
  }

  lemma ReceivedShows(m: Msg, q: Queues.QueueState, pick: seq<string>, id: string)
    requires Shown(m, q, id)
    ensures var (t, batch) := Queues.ReceivedAll(q, pick, BATCH_SIZE);
            Shown(if Queues.Holds(batch, id) then m.(received := m.received + 1, visible := false) else m, t, id)
  {
    hide Queues.ReceivedAll, Wire, Queues.Fresh, Queues.Holds;
    Queues.ReceivedAllDelivers(q, pick, BATCH_SIZE);
    Queues.ReceivedCounts(q, pick, BATCH_SIZE);
  }

  /** Receiving shows the same on both sides. */
  lemma ReceivedMirrors(s: Sys, q: Queues.QueueState, pick: seq<string>, ids: seq<nat>)
    requires Mirrors(s.main, q)
    requires var batch := Queues.ReceivedAll(q, pick, BATCH_SIZE).1;
             |ids| == |batch| && forall i :: 0 <= i < |batch| ==> ids[i] in s.main && Queues.Id(ids[i]) == batch[i].id
    ensures Mirrors(Hand(s.main, ids), Queues.ReceivedAll(q, pick, BATCH_SIZE).0)
  {
    hide Queues.ReceivedAll, Wire, Queues.Fresh, Queues.OnlyHides, Shown, Queues.Id;
    var (t, batch) := Queues.ReceivedAll(q, pick, BATCH_SIZE);
    Queues.ReceivedAllDelivers(q, pick, BATCH_SIZE);
    var main := Hand(s.main, ids);
    forall n | n in main ensures Shown(main[n], t, Queues.Id(n)) {
      assert Shown(s.main[n], q, Queues.Id(n));
      HeldNumbers(batch, ids, n);
      ReceivedShows(s.main[n], q, pick, Queues.Id(n));
    }
    forall id | id in t.messages ensures exists n :: n in main && Queues.Known(n, id) {
      assert id in q.messages;
      var n :| n in s.main && Queues.Known(n, id);
      assert n in main;
    }
  }

  lemma HeldNumbers(batch: seq<Queues.Receipt>, ids: seq<nat>, n: nat)
    requires |ids| == |batch| && forall i :: 0 <= i < |batch| ==> Queues.Id(ids[i]) == batch[i].id
    ensures n in ids <==> Queues.Holds(batch, Queues.Id(n))
  {
    if n in ids {
      var i :| 0 <= i < |ids| && ids[i] == n;
      assert batch[i] in batch;
    }
    if Queues.Holds(batch, Queues.Id(n)) {
      var r :| r in batch && r.id == Queues.Id(n);
      var i :| 0 <= i < |batch| && batch[i] == r;
      IdsDiffer(ids[i], n);
    }
  }

  /** Deleting the same messages on both sides. */
  lemma DeletedMirrors(main: map<nat, Msg>, q: Queues.QueueState, numbers: set<nat>, names: set<string>)
    requires Mirrors(main, q)
    requires forall n :: n in main ==> (n in numbers <==> Queues.Id(n) in names)
    ensures Mirrors(main - numbers, q.(messages := q.messages - names))
  {
    hide Wire;
    var p := q.(messages := q.messages - names);
    forall n | n in main - numbers ensures Shown((main - numbers)[n], p, Queues.Id(n)) {
      assert Shown(main[n], q, Queues.Id(n));
    }
    forall id | id in p.messages ensures exists n :: n in main - numbers && Queues.Known(n, id) {
      var n :| n in main && Queues.Known(n, id);
      assert n in main - numbers;
    }
  }

  ghost function Deleted(ids: seq<nat>, names: set<string>): set<nat> {
    set i | 0 <= i < |ids| && Queues.Id(ids[i]) in names :: ids[i]
  }

  lemma DeletedAreAcked(s: Sys, ids: seq<nat>, batch: seq<Queues.Receipt>, outcomes: seq<Outcome>, names: set<string>)
    requires |ids| == |batch| && |outcomes| <= |batch| && forall i :: 0 <= i < |ids| ==> ids[i] in s.main
    requires forall i :: 0 <= i < |batch| ==> Queues.Id(ids[i]) == batch[i].id
    requires names <= AckedIds(ToRecords(batch), outcomes)
    ensures Deleted(ids, names) <= AckedOf(BatchOf(s, ids), outcomes)
    ensures forall n :: n in Deleted(ids, names) <==> Queues.Id(n) in names
  {
    var records := ToRecords(batch);
    forall name | name in names
      ensures exists i :: 0 <= i < |outcomes| && Acknowledged(outcomes[i]) && Queues.Id(ids[i]) == name
    {
      var i :| 0 <= i < |records| && i < |outcomes| && Acknowledged(outcomes[i]) && records[i].messageId == name;
      assert Queues.Id(ids[i]) == name;
    }
    forall n | n in Deleted(ids, names) ensures n in AckedOf(BatchOf(s, ids), outcomes) {
      var i :| 0 <= i < |outcomes| && Acknowledged(outcomes[i]) && Queues.Id(ids[i]) == Queues.Id(n);
      IdsDiffer(ids[i], n);
      assert BatchOf(s, ids)[i].0 == n;
    }
    forall n ensures n in Deleted(ids, names) <==> Queues.Id(n) in names {
      if Queues.Id(n) in names {
        var i :| 0 <= i < |outcomes| && Acknowledged(outcomes[i]) && Queues.Id(ids[i]) == Queues.Id(n);
        IdsDiffer(ids[i], n);
      }
    }
  }

  /** A cycle of the pump, as its contract states it, is a sequence of the machine's actions that leaves the machine's
    * queue showing the same messages: with their receives counted, hidden, and without the deleted ones. */
  lemma RunCycleIsActions(c: Config, s: Sys, job: nat, q: Queues.QueueState, pick: seq<string>, w: Worker.World,
                          env: nat -> Worker.Env, after: Worker.World, outcomes: seq<Outcome>, names: set<string>)
    requires Mirrors(s.main, q) && job !in s.jobs && w.erp == s.erp && OwnWrites(env)
    requires var batch := Queues.ReceivedAll(q, pick, BATCH_SIZE).1;
             && batch != [] && (forall r :: r in batch ==> r.message.received <= MAX_RECEIVES)
             && Worker.Handled(w, ToRecords(batch), env, after, outcomes)
             && names <= AckedIds(ToRecords(batch), outcomes)
    ensures var q1 := Queues.ReceivedAll(q, pick, BATCH_SIZE).0;
            exists t, letters :: && Leads(c, s, t) && t.erp == after.erp && t.jobs == s.jobs && LettersAdded(s, t, letters)
                                 && Mirrors(t.main, q1.(messages := q1.messages - names))
  {
    hide Leads, Mirrors, Worker.HandleAll, AckedIds, AckedOf, Deleted, BatchOf, LettersOf, LettersAdded, Hand, RecordsOf, Receivable;
    var (q1, batch) := Queues.ReceivedAll(q, pick, BATCH_SIZE);
    Queues.ReceivedAllDelivers(q, pick, BATCH_SIZE);
    forall r | r in batch ensures r.id in q.messages {
      assert Queues.Visible(q, r.id);
    }
    var ids, n := NumbersOf(s.main, q, batch), |outcomes|;
    NumbersAreReceivable(s, q, pick, ids);
    ReceivedMirrors(s, q, pick, ids);
    DeletedAreAcked(s, ids, batch, outcomes, names);
    var deleted := Deleted(ids, names);
    assert Worker.World(s.erp, w.dlq) == w;
    CycleIsActions(c, s, job, ids, w.dlq, ToRecords(batch), env, n, deleted);
    var letters := LettersOf(BatchOf(s, ids), outcomes);
    var t :| Leads(c, s, t) && Cycled(s, t, ids, after.erp, deleted, letters);
    DeletedMirrors(Hand(s.main, ids), q1, deleted, names);
  }
}
