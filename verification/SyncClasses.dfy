/** The classes and the step machine describe one system: what a method does is a sequence of actions. */
module SyncClasses {
  import opened Prelude
  import opened Calendar
  import opened Events
  import opened Mapping
  import opened Erp
  import opened Outcomes
  import opened Org
  import opened Sync
  import opened SyncRuns
  import Publisher
  import Poller
  import Reconcile
  import Queues
  import Worker

  // ---- one poll --------------------------------------------------------------------------

  lemma PollReads(c: Config, s: Sys, run: nat, upper: int, rows: seq<SfRow>)
    requires run !in s.runs && upper == Poller.Upper(Truncate(s.org.clock), c.lag) && upper > Mark(c, s)
    requires Poller.IsAnswer(Won(s.org), Mark(c, s), upper, rows)
    ensures Leads(c, s, s.(runs := s.runs[run := HasRows(Mark(c, s), upper, rows)]))
  {
    hide Leads, DoWork, DoRedrive, DoReconcile, Poller.IsAnswer, Won, Poller.Upper;
    Stays(c, s);
    var s1 := s.(runs := s.runs[run := HasMark(Mark(c, s))]);
    assert Do(c, s, PollMark(run)) == s1;
    LeadsOn(c, s, s, PollMark(run));
    var s2 := s.(runs := s.runs[run := HasClock(Mark(c, s), upper)]);
    assert Do(c, s1, PollClock(run)) == s2;
    LeadsOn(c, s, s1, PollClock(run));
    assert Do(c, s2, PollQuery(run, rows)) == s.(runs := s.runs[run := HasRows(Mark(c, s), upper, rows)]);
    LeadsOn(c, s, s2, PollQuery(run, rows));
  }

  lemma PollSends(c: Config, s: Sys, run: nat, from: int, upper: int, rows: seq<SfRow>, now: int, sent: nat, stored: seq<Event>)
    requires run !in s.runs && Publisher.SafePrefix(Poller.Package(rows, now), sent, stored)
    ensures var mark := Poller.NextMark(from, upper, rows, sent);
            Do(c, s.(runs := s.runs[run := HasRows(from, upper, rows)]), PollSend(run, now, sent, stored))
            == Publish(s, stored).(runs := if mark.Some? then s.runs[run := HasSent(mark.value)] else s.runs)
  {
    hide DoWork, DoRedrive, DoReconcile, Publisher.SafePrefix, Poller.NextMark, Put;
    assert s.runs[run := HasRows(from, upper, rows)] - {run} == s.runs;
  }

  lemma PollStores(c: Config, s: Sys, run: nat, next: int, stores: bool)
    requires run !in s.runs
    ensures Do(c, s.(runs := s.runs[run := HasSent(next)]), PollStore(run, stores))
         == if stores then s.(mark := Some(Truncate(next)), marks := s.marks + {Truncate(next)}) else s
  {
    hide DoWork, DoRedrive, DoReconcile;
    assert s.runs[run := HasSent(next)] - {run} == s.runs;
  }

  /** What a poll stored, as messages on the machine's queue, and the watermark it left. */
  ghost predicate PolledTo(c: Config, s: Sys, t: Sys, added: seq<Event>, mark: int) {
    && t == Publish(s, added).(mark := t.mark, marks := t.marks) && Mark(c, t) == mark
  }

  /** A finished run of the poller is a sequence of actions with the same events and the same watermark, whatever the
    * queue answered. */
  lemma PollerRunIsActions(c: Config, s: Sys, run: nat, upper: int, rows: seq<SfRow>, env: Poller.Env,
                           before: seq<Event>, after: seq<Event>, mark: Option<int>, res: Poller.RunResult)
    requires run !in s.runs && upper == Poller.Upper(Truncate(s.org.clock), c.lag) && upper > Mark(c, s)
    requires Poller.IsAnswer(Won(s.org), Mark(c, s), upper, rows)
    requires Poller.Polled(Mark(c, s), upper, rows, env, before, after, mark, res)
    ensures mark.Some? && exists t :: Leads(c, s, t) && PolledTo(c, s, t, after[|before|..], mark.value)
  {
    hide Leads, Do, Poller.IsAnswer, Publisher.Count, Publisher.SafePrefix, Poller.NextMark, Publish, Won, Poller.Upper;
    var from, added, evs := Mark(c, s), after[|before|..], Poller.Package(rows, env.now);
    var (count, ok) := Publisher.Count(evs, env.replies, 0);
    var sent: nat := if count < 0 then 0 else count;
    SomethingSafe(evs, count, added);
    PollReads(c, s, run, upper, rows);
    var s3 := s.(runs := s.runs[run := HasRows(from, upper, rows)]);
    PollSends(c, s, run, from, upper, rows, env.now, sent, added);
    LeadsOn(c, s, s3, PollSend(run, env.now, sent, added));
    var next := Poller.NextMark(from, upper, rows, sent);
    var s4 := Publish(s, added);
    PublishKeepsRuns(s, added);
    if next.Some? {
      var stores := count >= 0 && env.setStored && (ok || sent < |rows|);
      var s5 := s4.(runs := s.runs[run := HasSent(next.value)]);
      PollStores(c, s4, run, next.value, stores);
      LeadsOn(c, s, s5, PollStore(run, stores));
      var t := Do(c, s5, PollStore(run, stores));
      assert PolledTo(c, s, t, added, mark.value);
    } else {
      assert PolledTo(c, s, s4, added, mark.value);
    }
  }

  lemma SomethingSafe(evs: seq<Event>, n: int, added: seq<Event>)
    requires forall e :: e in added ==> e in evs
    requires n >= 0 ==> Publisher.SafePrefix(evs, n, added)
    ensures Publisher.SafePrefix(evs, if n < 0 then 0 else n, added)
  {
    if n < 0 {
      assert evs[..0] == [] && added[0..] == added && evs[0..] == evs;
    }
  }

  lemma PublishKeepsRuns(s: Sys, added: seq<Event>)
    ensures Publish(s, added).runs == s.runs && Publish(s, added).mark == s.mark
  {
  }

  // ---- one record ----------------------------------------------------------------------------

  /** The job went on to its next record, having acknowledged this one or not. */
  ghost predicate Recorded(s: Sys, t: Sys, job: nat, erp: Tables, outcome: Outcome)
    requires job in s.jobs && s.jobs[job].at < |s.jobs[job].batch|
  {
    var (id, e) := Current(s, job);
    && t == s.(erp := erp, dlq := t.dlq, next := t.next,
               jobs := s.jobs[job := Advance(s.jobs[job], if Acknowledged(outcome) then {id} else {})])
    && if outcome.DeadLettered? then
         t.next == s.next + 1 && s.next in t.dlq && t.dlq == s.dlq[s.next := t.dlq[s.next]]
         && t.dlq[s.next].event == e && t.dlq[s.next].reason.Some?
       else t.next == s.next && t.dlq == s.dlq
  }

  lemma ParkRecords(c: Config, s: Sys, p: Sys, job: nat, erp: Tables, reason: string, works: bool)
    requires At(s, job, Ready) && p == s.(erp := erp, jobs := s.jobs[job := s.jobs[job].(phase := Parking(reason))])
    ensures Recorded(s, Do(c, p, Park(job, works)), job, erp, if works then DeadLettered else DlqSendFailed)
  {
    hide DoPoll, DoRedrive, DoReconcile, DoWrite, DoReadBack, DoReceive;
    var t := Do(c, p, Park(job, works));
    assert t == DoPark(p, job, works);
    assert t.jobs == s.jobs[job := t.jobs[job]];
  }

  lemma WriteIsWrite(c: Config, s: Sys, job: nat, now: string, fate: Fate)
    ensures Do(c, s, Write(job, now, fate)) == DoWrite(s, job, now, fate)
    ensures forall works :: Do(c, s, ReadBack(job, works)) == DoReadBack(s, job, works)
  {
    hide DoPoll, DoRedrive, DoReconcile, DoWrite, DoReadBack;
  }

  /** The answer settles the record, or sends it to be parked. */
  lemma SettleRecords(c: Config, s: Sys, m: Sys, job: nat, erp: Tables, r: Result<WriteResult, ErpError>, works: bool) returns (t: Sys)
    requires At(s, job, Ready) && m == s.(erp := erp, jobs := m.jobs)
    requires job in m.jobs && m.jobs == s.jobs[job := m.jobs[job]] && m.jobs[job] == s.jobs[job].(phase := m.jobs[job].phase)
    requires Leads(c, s, Settle(m, job, r))
    ensures Leads(c, s, t)
    ensures Recorded(s, t, job, erp, Ending(r, works))
  {
    hide Leads, Do;
    t := Settle(m, job, r);
    if r.Err? && Outcomes.Classify(ErpFailed(r.error)).kind == Permanent {
      var reason := Outcomes.Classify(ErpFailed(r.error)).reason;
      var p := t;
      assert p == s.(erp := erp, jobs := s.jobs[job := s.jobs[job].(phase := Parking(reason))]);
      ParkRecords(c, s, p, job, erp, reason, works);
      LeadsOn(c, s, p, Park(job, works));
      t := Do(c, p, Park(job, works));
    }
  }

  /** How the worker's record ends for this answer. */
  function Ending(r: Result<WriteResult, ErpError>, works: bool): Outcomes.Outcome {
    match r
    case Ok(v) => Wrote(v)
    case Err(e) =>
      if Outcomes.Classify(ErpFailed(e)).kind == Transient then Retry
      else if works then DeadLettered
      else DlqSendFailed
  }

  lemma HandledOutcome(w: Worker.World, r: Worker.Record, e: Worker.Env, o: Order)
    requires Decode(r.body) == Ok(o) && !e.chaosFails && e.others == []
    ensures var (erp, err) := Attempt(w.erp, o, e.now, e.fate);
            var result := Answer(err, o, e.readFails, Find(erp.orders, o.orderId));
            Worker.HandleSpec(w, r, e).1 == Ending(result, e.parkWorks) && Worker.HandleSpec(w, r, e).0.erp == erp
  {
    hide Decode, Attempt, Erp.Classify;
    DeliverNothing(Attempt(w.erp, o, e.now, e.fate).0);
  }

  lemma UnmappableIsParked(c: Config, s: Sys, job: nat, now: string, fate: Fate, works: bool) returns (t: Sys)
    requires At(s, job, Ready) && Honest(fate) && Decode(Wire(Current(s, job).1)).Err?
    ensures Leads(c, s, t) && Recorded(s, t, job, s.erp, if works then DeadLettered else DlqSendFailed)
  {
    hide Leads, Do, Decode, Wire;
    var reason := Decode(Wire(Current(s, job).1)).error.reason;
    var p := s.(jobs := s.jobs[job := s.jobs[job].(phase := Parking(reason))]);
    WriteIsWrite(c, s, job, now, fate);
    Stays(c, s);
    LeadsOn(c, s, s, Write(job, now, fate));
    ParkRecords(c, s, p, job, s.erp, reason, works);
    LeadsOn(c, s, p, Park(job, works));
    t := Do(c, p, Park(job, works));
  }

  lemma AttemptRecords(c: Config, s: Sys, job: nat, now: string, fate: Fate, readFails: bool, works: bool) returns (t: Sys)
    requires At(s, job, Ready) && Honest(fate) && Decode(Wire(Current(s, job).1)).Ok?
    ensures var o := Decode(Wire(Current(s, job).1)).value;
            var (erp, err) := Attempt(s.erp, o, now, fate);
            var result := Answer(err, o, readFails, Find(erp.orders, o.orderId));
            Leads(c, s, t) && Recorded(s, t, job, erp, Ending(result, works))
  {
    hide Leads, Do, Decode, Wire, Attempt, Settle, Recorded, Judge;
    var o := Decode(Wire(Current(s, job).1)).value;
    var (erp, err) := Attempt(s.erp, o, now, fate);
    var m := s.(erp := erp);
    WriteIsWrite(c, s, job, now, fate);
    Stays(c, s);
    LeadsOn(c, s, s, Write(job, now, fate));
    assert DoWrite(s, job, now, fate) == DoAttempt(s, job, o, now, fate);
    assert m.jobs == s.jobs[job := m.jobs[job]];
    if err.None? {
      t := SettleRecords(c, s, m, job, erp, Ok(Written), works);
    } else if NeedsRead(err.value) {
      var reading := m.(jobs := s.jobs[job := s.jobs[job].(phase := Reading)]);
      WriteIsWrite(c, reading, job, now, fate);
      assert Current(reading, job) == Current(s, job);
      LeadsOn(c, s, reading, ReadBack(job, !readFails));
      t := SettleRecords(c, s, reading, job, erp, Answer(err, o, readFails, Find(erp.orders, o.orderId)), works);
    } else {
      t := SettleRecords(c, s, m, job, erp, Erp.Classify(err.value, o, None), works);
    }
  }

  /** Handling one record is a sequence of actions with the same outcome, whatever the services answer. Other workers'
    * writes in between are their own actions. */
  lemma RecordIsActions(c: Config, s: Sys, job: nat, dlq: Queues.QueueState, r: Worker.Record, e: Worker.Env)
    requires At(s, job, Ready) && r.body == Wire(Current(s, job).1)
    requires Honest(e.fate) && e.others == []
    ensures var (after, outcome) := Worker.HandleSpec(Worker.World(s.erp, dlq), r, e);
            exists t :: Leads(c, s, t) && Recorded(s, t, job, after.erp, outcome)
  {
    hide Leads, Recorded, Decode, Wire, Attempt, Erp.Classify;
    var d := Decode(r.body);
    if d.Err? {
      var t := UnmappableIsParked(c, s, job, e.now, e.fate, e.parkWorks);
    } else if e.chaosFails {
      var down := Fail(ClientError("ServiceUnavailable", []), false);
      DownIsRetried(s.erp, d.value, e.now);
      var t := AttemptRecords(c, s, job, e.now, down, false, e.parkWorks);
    } else {
      HandledOutcome(Worker.World(s.erp, dlq), r, e, d.value);
      var t := AttemptRecords(c, s, job, e.now, e.fate, e.readFails, e.parkWorks);
    }
  }

  lemma DownIsRetried(t: Tables, o: Order, now: string)
    ensures var down := Fail(ClientError("ServiceUnavailable", []), false);
            Honest(down) && Attempt(t, o, now, down) == (t, Some(down.err))
            && Erp.Classify(down.err, o, Find(t.orders, o.orderId)) == Err(Unavailable)
  {
  }

  // ---- one batch ---------------------------------------------------------------------------------

  /** The messages of the records that were acknowledged so far. */
  function AckedOf(batch: seq<(nat, Event)>, outcomes: seq<Outcome>): set<nat>
    requires |outcomes| <= |batch|
  {
    set i | 0 <= i < |outcomes| && Acknowledged(outcomes[i]) :: batch[i].0
  }

  /** The events that were parked so far, in order. */
  function LettersOf(batch: seq<(nat, Event)>, outcomes: seq<Outcome>): seq<Event>
    requires |outcomes| <= |batch|
  {
    if outcomes == [] then []
    else
      var n := |outcomes| - 1;
      LettersOf(batch, outcomes[..n]) + if outcomes[n].DeadLettered? then [batch[n].1] else []
  }

  /** The letters were added under the next ids, each with a reason. */
  ghost predicate LettersAdded(s: Sys, t: Sys, letters: seq<Event>) {
    && t.next == s.next + |letters|
    && (forall m :: m in t.dlq <==> m in s.dlq || s.next <= m < t.next)
    && (forall m :: m in s.dlq && m < s.next ==> t.dlq[m] == s.dlq[m])
    && forall m: nat :: s.next <= m < t.next ==> t.dlq[m].event == letters[m - s.next] && t.dlq[m].reason.Some?
  }

  /** The job has handled its first records with these outcomes. */
  ghost predicate Batched(s: Sys, t: Sys, job: nat, erp: Tables, outcomes: seq<Outcome>)
    requires job in s.jobs && |outcomes| <= |s.jobs[job].batch|
  {
    var batch := s.jobs[job].batch;
    && t == s.(erp := erp, dlq := t.dlq, next := t.next,
               jobs := s.jobs[job := Job(batch, |outcomes|, Ready, AckedOf(batch, outcomes))])
    && LettersAdded(s, t, LettersOf(batch, outcomes))
  }

  lemma OneMoreLetter(s: Sys, t: Sys, u: Sys, letters: seq<Event>, e: Event)
    requires LettersAdded(s, t, letters)
    requires u.next == t.next + 1 && t.next in u.dlq && u.dlq == t.dlq[t.next := u.dlq[t.next]]
    requires u.dlq[t.next].event == e && u.dlq[t.next].reason.Some?
    ensures LettersAdded(s, u, letters + [e])
  {
  }

  lemma OneMoreRecord(s: Sys, t: Sys, u: Sys, job: nat, outcomes: seq<Outcome>, outcome: Outcome)
    requires job in s.jobs && |outcomes| < |s.jobs[job].batch|
    requires Batched(s, t, job, t.erp, outcomes) && Recorded(t, u, job, u.erp, outcome)
    ensures Batched(s, u, job, u.erp, outcomes + [outcome])
  {
    hide LettersAdded;
    var batch, more := s.jobs[job].batch, outcomes + [outcome];
    assert more[..|outcomes|] == outcomes;
    if outcome.DeadLettered? {
      OneMoreLetter(s, t, u, LettersOf(batch, outcomes), batch[|outcomes|].1);
    } else {
      SameLetters(s, t, u, LettersOf(batch, outcomes));
      assert LettersOf(batch, more) == LettersOf(batch, outcomes);
    }
    assert AckedOf(batch, more) == AckedOf(batch, outcomes) + if Acknowledged(outcome) then {batch[|outcomes|].0} else {};
    assert u.jobs == s.jobs[job := u.jobs[job]];
  }

  lemma SameLetters(s: Sys, t: Sys, u: Sys, letters: seq<Event>)
    requires LettersAdded(s, t, letters) && u.next == t.next && u.dlq == t.dlq
    ensures LettersAdded(s, u, letters)
  {
  }

  /** The records the pump makes of a batch. */
  ghost predicate RecordsOf(batch: seq<(nat, Event)>, records: seq<Worker.Record>) {
    |records| == |batch| && forall i :: 0 <= i < |batch| ==> records[i].body == Wire(batch[i].1)
  }

  ghost predicate OwnWrites(env: nat -> Worker.Env) {
    forall i: nat :: Honest(env(i).fate) && env(i).others == []
  }

  /** The worker's loop over its first `n` records is a sequence of actions with the same outcomes, ERP and letters. */
  lemma {:induction false} BatchIsActions(c: Config, s: Sys, job: nat, dlq: Queues.QueueState, records: seq<Worker.Record>,
                                          env: nat -> Worker.Env, n: nat) returns (t: Sys)
    requires job in s.jobs && s.jobs[job] == Job(s.jobs[job].batch, 0, Ready, {})
    requires RecordsOf(s.jobs[job].batch, records) && OwnWrites(env) && n <= |records|
    ensures var (after, outcomes) := Worker.HandleAll(Worker.World(s.erp, dlq), records[..n], env);
            |outcomes| == n && Leads(c, s, t) && Batched(s, t, job, after.erp, outcomes)
  {
    hide Leads, Recorded, Worker.HandleSpec, Decode, Wire;
    var w := Worker.World(s.erp, dlq);
    if n == 0 {
      Stays(c, s);
      t := s;
      assert AckedOf(s.jobs[job].batch, []) == {};
      assert s.jobs[job := s.jobs[job]] == s.jobs;
    } else {
      var u := BatchIsActions(c, s, job, dlq, records, env, n - 1);
      var (before, outcomes) := Worker.HandleAll(w, records[..n - 1], env);
      Worker.OneMore(w, records, env, n - 1);
      RecordIsActions(c, u, job, before.dlq, records[n - 1], env(n - 1));
      var (after, outcome) := Worker.HandleSpec(before, records[n - 1], env(n - 1));
      assert Worker.World(u.erp, before.dlq) == before;
      t :| Leads(c, u, t) && Recorded(u, t, job, after.erp, outcome);
      LeadsCompose(c, s, u, t);
      RecordedErp(u, t, job, after.erp, outcome);
      OneMoreRecord(s, u, t, job, outcomes, outcome);
    }
  }

  lemma RecordedErp(s: Sys, t: Sys, job: nat, erp: Tables, outcome: Outcome)
    requires job in s.jobs && s.jobs[job].at < |s.jobs[job].batch| && Recorded(s, t, job, erp, outcome)
    ensures t.erp == erp
  {
  }

  /** Delete these acknowledged messages. */
  lemma {:induction false} DeleteAcked(c: Config, s: Sys, job: nat, ids: set<nat>)
    requires job in s.jobs && s.jobs[job].at == |s.jobs[job].batch| && ids <= s.jobs[job].acked
    ensures Leads(c, s, s.(main := s.main - ids))
    decreases ids
  {
    hide Leads;
    Stays(c, s);
    if ids == {} {
      assert s.main - ids == s.main;
    } else {
      var id :| id in ids;
      DeleteAcked(c, s, job, ids - {id});
      var t := s.(main := s.main - (ids - {id}));
      AcknowledgeOne(c, t, job, id);
      LeadsOn(c, s, t, Acknowledge(job, id));
      assert t.main - {id} == s.main - ids;
    }
  }

  lemma AcknowledgeOne(c: Config, s: Sys, job: nat, id: nat)
    requires job in s.jobs && s.jobs[job].at == |s.jobs[job].batch| && id in s.jobs[job].acked
    ensures Do(c, s, Acknowledge(job, id)) == s.(main := s.main - {id})
  {
    hide DoPoll, DoRedrive, DoReconcile;
  }

  lemma ReceiveStarts(c: Config, s: Sys, job: nat, ids: seq<nat>)
    requires job !in s.jobs && Receivable(s, ids)
    ensures var t := Do(c, s, Receive(job, ids));
            && t == s.(main := Hand(s.main, ids), jobs := t.jobs) && t.jobs == s.jobs[job := t.jobs[job]]
            && t.jobs[job] == Job(BatchOf(s, ids), 0, Ready, {})
  {
    hide DoPoll, DoRedrive, DoReconcile, Hand;
  }

  function BatchOf(s: Sys, ids: seq<nat>): (batch: seq<(nat, Event)>)
    requires forall i :: 0 <= i < |ids| ==> ids[i] in s.main
    ensures |batch| == |ids|
  {
    seq(|ids|, i requires 0 <= i < |ids| => (ids[i], s.main[ids[i]].event))
  }

  lemma HandBackDoes(c: Config, s: Sys, job: nat)
    requires job in s.jobs && s.jobs[job].at <= |s.jobs[job].batch| && s.jobs[job].phase == Ready
    ensures Do(c, s, HandBack(job)) == s.(jobs := s.jobs[job := s.jobs[job].(at := |s.jobs[job].batch|)])
  {
    hide DoPoll, DoRedrive, DoReconcile;
    assert Do(c, s, HandBack(job)) == DoHandBack(s, job);
    if s.jobs[job].at == |s.jobs[job].batch| {
      assert s.jobs[job := s.jobs[job]] == s.jobs;
    }
  }

  lemma CrashDoes(c: Config, s: Sys, job: nat)
    ensures Do(c, s, Crash(job)) == s.(jobs := s.jobs - {job})
  {
    hide DoPoll, DoRedrive, DoReconcile;
  }

  lemma FinishJob(c: Config, s: Sys, job: nat, ids: set<nat>) returns (t: Sys)
    requires job in s.jobs && s.jobs[job].at <= |s.jobs[job].batch| && s.jobs[job].phase == Ready && ids <= s.jobs[job].acked
    ensures Leads(c, s, t) && t == s.(main := s.main - ids, jobs := s.jobs - {job})
  {
    hide Leads, Do;
    Stays(c, s);
    HandBackDoes(c, s, job);
    LeadsOn(c, s, s, HandBack(job));
    var u := Do(c, s, HandBack(job));
    DeleteAcked(c, u, job, ids);
    var v := u.(main := u.main - ids);
    LeadsCompose(c, s, u, v);
    CrashDoes(c, v, job);
    LeadsOn(c, s, v, Crash(job));
    t := Do(c, v, Crash(job));
    assert t.jobs == s.jobs - {job};
  }

  /** One cycle of the event source mapping, as it left the machine's queue: `deleted` left it, `letters` were parked. */
  ghost predicate Cycled(s: Sys, t: Sys, ids: seq<nat>, erp: Tables, deleted: set<nat>, letters: seq<Event>) {
    && t == s.(erp := erp, dlq := t.dlq, next := t.next, main := Hand(s.main, ids) - deleted)
    && LettersAdded(s, t, letters)
  }

  /** One cycle of the pump is a sequence of actions: receive the batch, handle `n` of its records, hand the rest back,
    * and delete any of the acknowledged messages; none of them when the answer is lost, all of them when it arrives
    * and no delete fails. */
  lemma CycleIsActions(c: Config, s: Sys, job: nat, ids: seq<nat>, dlq: Queues.QueueState, records: seq<Worker.Record>,
                       env: nat -> Worker.Env, n: nat, deleted: set<nat>)
    requires job !in s.jobs && Receivable(s, ids) && RecordsOf(BatchOf(s, ids), records) && OwnWrites(env) && n <= |ids|
    requires var outcomes := Worker.HandleAll(Worker.World(s.erp, dlq), records[..n], env).1;
             |outcomes| == n && deleted <= AckedOf(BatchOf(s, ids), outcomes)
    ensures var (after, outcomes) := Worker.HandleAll(Worker.World(s.erp, dlq), records[..n], env);
            exists t :: Leads(c, s, t) && Cycled(s, t, ids, after.erp, deleted, LettersOf(BatchOf(s, ids), outcomes))
  {
    hide Leads, Do, Hand, Worker.HandleAll, BatchOf, AckedOf, LettersOf;
    var (after, outcomes) := Worker.HandleAll(Worker.World(s.erp, dlq), records[..n], env);
    Stays(c, s);
    ReceiveStarts(c, s, job, ids);
    LeadsOn(c, s, s, Receive(job, ids));
    var s1 := Do(c, s, Receive(job, ids));
    var s2 := BatchIsActions(c, s1, job, dlq, records, env, n);
    LeadsCompose(c, s, s1, s2);
    var t := FinishJob(c, s2, job, deleted);
    LeadsCompose(c, s, s2, t);
    assert t.jobs == s.jobs;
    assert Cycled(s, t, ids, after.erp, deleted, LettersOf(BatchOf(s, ids), outcomes));
  }

  // ---- one reconciliation -----------------------------------------------------------------------

  lemma ReadDoes(c: Config, s: Sys, k: nat, now: int, grace: int, rows: seq<SfRow>)
    requires k !in s.recs && now <= s.org.clock + c.skew && Poller.InOrder(rows) && forall x :: x in rows ==> x in Won(s.org)
    ensures Do(c, s, ReadDeals(k, now, grace, rows)) == s.(recs := s.recs[k := Rec(now, grace, rows, map[])])
  {
    hide DoPoll, DoWork, DoRedrive, Won, Poller.InOrder;
  }

  lemma ScanDoes(c: Config, s: Sys, k: nat, page: set<string>)
    requires k in s.recs
    ensures Do(c, s, Scan(k, page)) == s.(recs := s.recs[k := s.recs[k].(versions := s.recs[k].versions + Page(s.erp, page))])
  {
    hide DoPoll, DoWork, DoRedrive;
  }

  /** The ids a page lists. */
  function IdsOf(page: seq<(string, int)>): set<string> {
    set j | 0 <= j < |page| :: page[j].0
  }

  /** Reading a page entry by entry is taking the versions of its ids at once. */
  lemma {:induction false} PageIsPage(had: map<string, int>, page: seq<(string, int)>, t: Tables)
    requires Reconcile.PageOf(page, t)
    ensures Reconcile.WithPage(had, page) == had + Page(t, IdsOf(page))
  {
    if page != [] {
      var init, last := page[..|page| - 1], page[|page| - 1];
      PageIsPage(had, init, t);
      assert IdsOf(page) == IdsOf(init) + {last.0};
    }
  }

  lemma EnqueueDoes(c: Config, s: Sys, k: nat, stored: seq<Event>)
    requires k in s.recs && forall e :: e in stored ==> e in Wanted(s.recs[k])
    ensures Do(c, s, Enqueue(k, stored)) == Publish(s, stored)
    ensures Do(c, Publish(s, stored), StopRec(k)) == Publish(s, stored).(recs := s.recs - {k})
  {
    hide DoPoll, DoWork, DoRedrive, Wanted, Put;
  }

  /** Everybody else goes on from `s` to `t` and leaves this reconciliation where it was. */
  ghost predicate Meanwhile(c: Config, s: Sys, t: Sys, k: nat) {
    Goes(c, s, t) && k in s.recs && k in t.recs && t.recs[k] == s.recs[k]
  }

  /** Page `p` is read at `us[p]`; then everybody else goes on to `us[p + 1]`. */
  ghost predicate ScansOver(c: Config, us: seq<Sys>, k: nat, pages: seq<seq<(string, int)>>) {
    && |us| == |pages| + 1
    && forall p :: 0 <= p < |pages| ==>
         && Reconcile.PageOf(pages[p], us[p].erp)
         && Meanwhile(c, Do(c, us[p], Scan(k, IdsOf(pages[p]))), us[p + 1], k)
  }

  /** Pages read over a changing ERP leave the machine's reconciliation with what the scan returns. */
  lemma {:induction false} ScansAreActions(c: Config, us: seq<Sys>, k: nat, pages: seq<seq<(string, int)>>, n: nat)
    requires ScansOver(c, us, k, pages) && n <= |pages| && k in us[0].recs && us[0].recs[k].versions == map[]
    ensures Goes(c, us[0], us[n])
    ensures k in us[n].recs && us[n].recs[k] == us[0].recs[k].(versions := Reconcile.FromPages(pages[..n]))
  {
    hide Do, Goes, Reconcile.WithPage;
    if n == 0 {
      GoesNowhere(c, us[0]);
    } else {
      var u := us[n - 1];
      ScansAreActions(c, us, k, pages, n - 1);
      assert pages[..n][..n - 1] == pages[..n - 1];
      PageIsPage(u.recs[k].versions, pages[n - 1], u.erp);
      ScanDoes(c, u, k, IdsOf(pages[n - 1]));
      GoesOn(c, us[0], u, Scan(k, IdsOf(pages[n - 1])));
      GoesCompose(c, us[0], Do(c, u, Scan(k, IdsOf(pages[n - 1]))), us[n]);
    }
  }

  lemma GoesNowhere(c: Config, s: Sys)
    ensures Goes(c, s, s)
  {
    assert Steps(c, s, []) == s;
  }

  /** A run of the reconciler is a sequence of actions: it reads the won deals, scans the orders page by page while
    * everybody else goes on, and publishes whatever the queue stored of what the comparison listed. */
  lemma ReconcilerRunIsActions(c: Config, s: Sys, us: seq<Sys>, k: nat, now: int, grace: int, rows: seq<SfRow>,
                               pages: seq<seq<(string, int)>>, toEnqueue: seq<Event>, stored: seq<Event>)
    requires k !in s.recs && now <= s.org.clock + c.skew && Poller.InOrder(rows) && forall x :: x in rows ==> x in Won(s.org)
    requires ScansOver(c, us, k, pages) && Meanwhile(c, Do(c, s, ReadDeals(k, now, grace, rows)), us[0], k)
    requires toEnqueue == Reconcile.EnqueuedAmong(rows, Reconcile.FromPages(pages), now, grace)
    requires forall e :: e in stored ==> e in toEnqueue
    ensures var t := us[|pages|]; Goes(c, s, Publish(t, stored).(recs := t.recs - {k}))
  {
    hide Goes, Do, Put, Reconcile.EnqueuedAmong, Reconcile.FromPages, Won, Poller.InOrder;
    GoesNowhere(c, s);
    ReadDoes(c, s, k, now, grace, rows);
    GoesOn(c, s, s, ReadDeals(k, now, grace, rows));
    GoesCompose(c, s, Do(c, s, ReadDeals(k, now, grace, rows)), us[0]);
    ScansAreActions(c, us, k, pages, |pages|);
    assert pages[..|pages|] == pages;
    var t := us[|pages|];
    GoesCompose(c, s, us[0], t);
    EnqueueDoes(c, t, k, stored);
    GoesOn(c, s, t, Enqueue(k, stored));
    GoesOn(c, s, Do(c, t, Enqueue(k, stored)), StopRec(k));
  }
}
