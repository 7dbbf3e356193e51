/** No published event is ever lost: it is on the main queue, on the dead-letter queue, or in the ERP. */
module SyncQueues {
  import opened Prelude
  import opened Events
  import opened Mapping
  import opened Erp
  import opened Sync
  import Publisher
  import Poller

  // ---- where messages can be ----------------------------------------------------------

  ghost predicate MainInv(s: Sys) {
    forall id :: id in s.main ==> id < s.next && s.main[id].event in s.published && id !in s.dlq
  }

  ghost predicate DlqInv(s: Sys) {
    forall id :: id in s.dlq ==> id < s.next && s.dlq[id].event in s.published
  }

  /** A record in a worker's hands has the body its message has. */
  predicate RecordInv(s: Sys, r: (nat, Event)) {
    r.0 < s.next && r.1 in s.published && (r.0 in s.main ==> s.main[r.0].event == r.1)
  }

  ghost predicate JobInv(s: Sys, j: Job) {
    && j.at <= |j.batch|
    && (forall r :: r in j.batch ==> RecordInv(s, r))
    && (forall id :: id in j.acked ==> id < s.next)
  }

  /** A dead letter never returns to the main queue under its own id. */
  predicate LetterInv(s: Sys, t: (nat, Msg)) {
    t.0 < s.next && t.1.event in s.published && t.0 !in s.main && (t.0 in s.dlq ==> s.dlq[t.0].event == t.1.event)
  }

  ghost predicate RedriveInv(s: Sys, r: Redrive) {
    && r.at <= |r.todo|
    && (forall t :: t in r.todo ==> LetterInv(s, t))
    && (r.sent ==> r.at < |r.todo|)
  }

  ghost predicate QueueInv(s: Sys) {
    && MainInv(s) && DlqInv(s)
    && (forall k :: k in s.jobs ==> JobInv(s, s.jobs[k]))
    && (forall k :: k in s.redrives ==> RedriveInv(s, s.redrives[k]))
  }

  // ---- what keeps an event --------------------------------------------------------------

  /** Some job will acknowledge this message. */
  ghost predicate Acking(s: Sys, id: nat) {
    exists k :: k in s.jobs && id in s.jobs[k].acked
  }

  /** Some redrive is about to delete this dead letter. */
  ghost predicate Moving(s: Sys, id: nat) {
    exists k :: k in s.redrives && s.redrives[k].sent && s.redrives[k].at < |s.redrives[k].todo|
                && s.redrives[k].todo[s.redrives[k].at].0 == id
  }

  predicate StoredEvent(t: Tables, e: Event) {
    Stored(t, e.row.id, e.row.stamp)
  }

  datatype Keeper = InMain(id: nat) | InDlq(id: nat) | InErp

  /** `w` holds the event and nothing already under way will remove it. */
  ghost predicate KeptBy(s: Sys, e: Event, w: Keeper) {
    match w
    case InMain(id) => id in s.main && s.main[id].event == e && !Acking(s, id)
    case InDlq(id) => id in s.dlq && s.dlq[id].event == e && !Moving(s, id)
    case InErp => StoredEvent(s.erp, e)
  }

  ghost predicate Kept(s: Sys, e: Event) {
    exists w :: KeptBy(s, e, w)
  }

  ghost predicate AllKept(s: Sys) {
    forall e :: e in s.published ==> Kept(s, e)
  }

  ghost predicate Conserved(s: Sys) {
    QueueInv(s) && AllKept(s)
  }

  // ---- publishing ------------------------------------------------------------------------

  lemma {:induction false} PutHolds(main: map<nat, Msg>, next: nat, evs: seq<Event>)
    requires forall id :: id in main ==> id < next
    ensures var put := Put(main, next, evs);
            && (forall id :: id in main ==> id in put && put[id] == main[id])
            && (forall id :: id in put ==> id in main || next <= id < next + |evs|)
  {
    if evs != [] {
      PutHolds(main, next, evs[..|evs| - 1]);
    }
  }

  lemma {:induction false} PutAt(main: map<nat, Msg>, next: nat, evs: seq<Event>, i: nat)
    requires i < |evs|
    ensures var put := Put(main, next, evs); next + i in put && put[next + i] == Msg(evs[i], None, 0, true)
  {
    var n := |evs| - 1;
    var put := Put(main, next, evs);
    assert put == Put(main, next, evs[..n])[next + n := Msg(evs[n], None, 0, true)];
    if i < n {
      PutAt(main, next, evs[..n], i);
    }
  }

  lemma PublishKeepsQueues(s: Sys, evs: seq<Event>)
    requires QueueInv(s)
    ensures QueueInv(Publish(s, evs))
  {
    hide JobInv, RedriveInv, Put;
    var t := Publish(s, evs);
    PutHolds(s.main, s.next, evs);
    forall id | id in t.main ensures id < t.next && t.main[id].event in t.published && id !in t.dlq {
      if id !in s.main {
        PutAt(s.main, s.next, evs, id - s.next);
        assert evs[id - s.next] in t.published;
      }
    }
    RecordsStay(s, t);
  }

  lemma PublishKeeps(s: Sys, evs: seq<Event>)
    requires Conserved(s)
    ensures Conserved(Publish(s, evs))
  {
    hide QueueInv, Put;
    var t := Publish(s, evs);
    PublishKeepsQueues(s, evs);
    MainIsBelow(s);
    PutHolds(s.main, s.next, evs);
    forall e | e in t.published ensures Kept(t, e) {
      if e in s.published {
        var w :| KeptBy(s, e, w);
        assert KeptBy(t, e, w);
      } else {
        PublishedIsKept(s, evs, e);
      }
    }
  }

  lemma PublishedIsKept(s: Sys, evs: seq<Event>, e: Event)
    requires QueueInv(s) && e in evs
    ensures Kept(Publish(s, evs), e)
  {
    hide QueueInv, Put, KeptBy, Acking;
    var t := Publish(s, evs);
    var i :| 0 <= i < |evs| && evs[i] == e;
    var id := s.next + i;
    NewIsNotAcked(s, id);
    PutAt(s.main, s.next, evs, i);
    AckedByTheSameJobs(s, t, id);
    InMainKeeps(t, e, id);
  }

  lemma AckedByTheSameJobs(s: Sys, t: Sys, id: nat)
    requires t.jobs == s.jobs
    ensures Acking(t, id) <==> Acking(s, id)
  {
  }

  lemma InMainKeeps(t: Sys, e: Event, id: nat)
    requires id in t.main && t.main[id].event == e && !Acking(t, id)
    ensures Kept(t, e)
  {
    assert KeptBy(t, e, InMain(id));
  }

  lemma MainIsBelow(s: Sys)
    requires QueueInv(s)
    ensures forall id :: id in s.main ==> id < s.next
  {
  }

  lemma NewIsNotAcked(s: Sys, id: nat)
    requires QueueInv(s) && id >= s.next
    ensures !Acking(s, id)
  {
    forall k | k in s.jobs ensures id !in s.jobs[k].acked {
      assert JobInv(s, s.jobs[k]);
    }
  }

  lemma NewIsNotMoving(s: Sys, id: nat)
    requires QueueInv(s) && id >= s.next
    ensures !Moving(s, id)
  {
    forall k | k in s.redrives && s.redrives[k].sent && s.redrives[k].at < |s.redrives[k].todo|
      ensures s.redrives[k].todo[s.redrives[k].at].0 != id
    {
      assert RedriveInv(s, s.redrives[k]);
      assert LetterInv(s, s.redrives[k].todo[s.redrives[k].at]);
    }
  }

  // ---- a state that changes only in harmless ways --------------------------------------------

  /** The same queues and ids, at least the same history, and an ERP that only moved forward. */
  ghost predicate SameQueues(s: Sys, t: Sys) {
    && t.main.Keys == s.main.Keys && (forall id :: id in s.main ==> t.main[id].event == s.main[id].event)
    && t.dlq == s.dlq && t.next == s.next && t.published == s.published
    && Later(s.erp, t.erp)
  }

  /** Messages keep their events; a message may end, or move to the dead-letter queue; new ones get new ids. */
  ghost predicate Undisturbed(s: Sys, t: Sys) {
    && s.next <= t.next && s.published <= t.published
    && (forall id :: id in t.main ==> id >= s.next || (id in s.main && t.main[id].event == s.main[id].event))
    && (forall id :: id in t.dlq ==> id >= s.next || id in s.main || (id in s.dlq && t.dlq[id].event == s.dlq[id].event))
  }

  lemma RecordsStay(s: Sys, t: Sys)
    requires QueueInv(s) && Undisturbed(s, t)
    ensures forall k :: k in s.jobs ==> JobInv(t, s.jobs[k])
    ensures forall k :: k in s.redrives ==> RedriveInv(t, s.redrives[k])
  {
    forall k | k in s.jobs ensures JobInv(t, s.jobs[k]) {
      assert JobInv(s, s.jobs[k]);
      forall r | r in s.jobs[k].batch ensures RecordInv(t, r) {
        assert RecordInv(s, r);
      }
    }
    forall k | k in s.redrives ensures RedriveInv(t, s.redrives[k]) {
      assert RedriveInv(s, s.redrives[k]);
      forall x | x in s.redrives[k].todo ensures LetterInv(t, x) {
        assert LetterInv(s, x);
      }
    }
  }

  /** Jobs and redrives may end, start, or move on, as long as nothing new is about to be removed. */
  lemma QuietStep(s: Sys, t: Sys)
    requires Conserved(s) && SameQueues(s, t)
    requires forall k :: k in t.jobs ==> JobInv(t, t.jobs[k])
    requires forall k :: k in t.redrives ==> RedriveInv(t, t.redrives[k])
    requires forall id :: Acking(t, id) ==> Acking(s, id)
    requires forall id :: Moving(t, id) ==> Moving(s, id)
    ensures Conserved(t)
  {
    RecordsStay(s, t);
    forall e | e in t.published ensures Kept(t, e) {
      var w :| KeptBy(s, e, w);
      assert KeptBy(t, e, w);
    }
  }

  /** Acknowledging a record whose order is stored at its version or later. */
  lemma AckStored(s: Sys, t: Sys, job: nat)
    requires Conserved(s) && job in s.jobs && s.jobs[job].at < |s.jobs[job].batch|
    requires var (id, e) := Current(s, job);
             && Stored(t.erp, e.row.id, e.row.stamp) && Later(s.erp, t.erp)
             && t == s.(erp := t.erp, jobs := s.jobs[job := Advance(s.jobs[job], {id})])
    ensures Conserved(t)
  {
    var (id, e) := Current(s, job);
    RecordsStay(s, t);
    assert JobInv(s, s.jobs[job]);
    assert RecordInv(s, (id, e));
    assert JobInv(t, t.jobs[job]) by {
      assert JobInv(t, s.jobs[job]);
    }
    assert forall k :: k in t.jobs ==> JobInv(t, t.jobs[k]);
    forall x | x in t.published ensures Kept(t, x) {
      var w :| KeptBy(s, x, w);
      if w == InMain(id) {
        assert KeptBy(t, x, InErp);
      } else {
        assert KeptBy(t, x, w) by { AckingOnly(s, t, job, id); }
      }
    }
  }

  lemma AckingOnly(s: Sys, t: Sys, job: nat, id: nat)
    requires job in s.jobs && s.jobs[job].at < |s.jobs[job].batch|
    requires t.jobs == s.jobs[job := Advance(s.jobs[job], {id})]
    ensures forall x :: Acking(t, x) ==> Acking(s, x) || x == id
  {
    forall x | Acking(t, x) ensures Acking(s, x) || x == id {
      var k :| k in t.jobs && x in t.jobs[k].acked;
      assert k in s.jobs;
    }
  }

  /** A job that goes on without acknowledging anything. */
  lemma JobMoves(s: Sys, t: Sys, job: nat, j: Job)
    requires Conserved(s) && job in s.jobs && j.batch == s.jobs[job].batch && j.acked == s.jobs[job].acked && j.at <= |j.batch|
    requires Later(s.erp, t.erp) && t == s.(erp := t.erp, jobs := s.jobs[job := j])
    ensures Conserved(t)
  {
    RecordsStay(s, t);
    assert JobInv(t, s.jobs[job]);
    assert JobInv(t, j);
    forall id | Acking(t, id) ensures Acking(s, id) {
      var k :| k in t.jobs && id in t.jobs[k].acked;
      assert k in s.jobs && id in s.jobs[k].acked;
    }
    QuietStep(s, t);
  }

  // ---- worker steps -------------------------------------------------------------------------

  lemma SettleKeeps(s: Sys, erp: Tables, job: nat, r: Result<WriteResult, ErpError>)
    requires Conserved(s) && Later(s.erp, erp)
    requires job in s.jobs && s.jobs[job].at < |s.jobs[job].batch|
    requires r.Ok? ==> StoredEvent(erp, Current(s, job).1)
    ensures Conserved(Settle(s.(erp := erp), job, r))
  {
    hide Conserved, Later;
    var t := Settle(s.(erp := erp), job, r);
    if r.Ok? {
      AckStored(s, t, job);
    } else {
      JobMoves(s, t, job, t.jobs[job]);
    }
  }

  lemma DecodedIsOwn(e: Event)
    requires Decode(Wire(e)).Ok?
    ensures var o := Decode(Wire(e)).value; o.orderId == e.row.id && o.version == e.row.stamp && o.version > 0
  {
    DecodeWire(e);
  }

  lemma ReflexiveLater(t: Tables)
    ensures Later(t, t)
  {
  }

  lemma WriteKeeps(s: Sys, job: nat, now: string, fate: Fate)
    requires Conserved(s)
    ensures Conserved(DoWrite(s, job, now, fate))
  {
    if At(s, job, Ready) && Honest(fate) {
      var e := Current(s, job).1;
      var d := Decode(Wire(e));
      ReflexiveLater(s.erp);
      if d.Err? {
        var t := DoWrite(s, job, now, fate);
        JobMoves(s, t, job, t.jobs[job]);
      } else {
        DecodedIsOwn(e);
        AttemptKeeps(s, job, d.value, now, fate);
      }
    }
  }

  lemma AttemptKeeps(s: Sys, job: nat, o: Order, now: string, fate: Fate)
    requires Conserved(s) && At(s, job, Ready) && Honest(fate)
    requires o.orderId == Current(s, job).1.row.id && o.version == Current(s, job).1.row.stamp
    ensures Conserved(DoAttempt(s, job, o, now, fate))
  {
    var (erp, err) := Attempt(s.erp, o, now, fate);
    RaceSafe(s.erp, o, now, fate, [], false);
    if err.None? {
      SettleKeeps(s, erp, job, Ok(Written));
    } else if NeedsRead(err.value) {
      var t := DoAttempt(s, job, o, now, fate);
      JobMoves(s, t, job, t.jobs[job]);
    } else {
      SettleKeeps(s, erp, job, Erp.Classify(err.value, o, None));
    }
  }

  lemma ReadBackKeeps(s: Sys, job: nat, works: bool)
    requires Conserved(s)
    ensures Conserved(DoReadBack(s, job, works))
  {
    ReflexiveLater(s.erp);
    if At(s, job, Reading) && !works {
      SettleKeeps(s, s.erp, job, Err(READ_FAILED));
    } else if At(s, job, Reading) && Decode(Wire(Current(s, job).1)).Ok? {
      var e := Current(s, job).1;
      var o := Decode(Wire(e)).value;
      DecodedIsOwn(e);
      SettleKeeps(s, s.erp, job, Judge(Find(s.erp.orders, o.orderId), o));
    }
  }

  lemma ParkKeeps(s: Sys, job: nat, works: bool)
    requires Conserved(s)
    ensures Conserved(DoPark(s, job, works))
  {
    var t := DoPark(s, job, works);
    ReflexiveLater(s.erp);
    if job in s.jobs && s.jobs[job].at < |s.jobs[job].batch| && s.jobs[job].phase.Parking? {
      if works {
        ParkedKeeps(s, job);
      } else {
        JobMoves(s, t, job, t.jobs[job]);
      }
    }
  }

  lemma ParkedKeepsQueues(s: Sys, job: nat)
    requires QueueInv(s)
    requires job in s.jobs && s.jobs[job].at < |s.jobs[job].batch| && s.jobs[job].phase.Parking?
    ensures QueueInv(DoPark(s, job, true))
    ensures Current(s, job).0 in s.main ==> s.main[Current(s, job).0].event == Current(s, job).1
  {
    hide RedriveInv;
    var t := DoPark(s, job, true);
    assert JobInv(s, s.jobs[job]) && RecordInv(s, Current(s, job));
    RecordsStay(s, t);
    assert JobInv(t, s.jobs[job]);
  }

  lemma ParkedKeeps(s: Sys, job: nat)
    requires Conserved(s)
    requires job in s.jobs && s.jobs[job].at < |s.jobs[job].batch| && s.jobs[job].phase.Parking?
    ensures Conserved(DoPark(s, job, true))
  {
    hide QueueInv, Acking;
    var t := DoPark(s, job, true);
    var (id, e) := Current(s, job);
    ParkedKeepsQueues(s, job);
    DlqIsBelow(s);
    NewIsNotMoving(s, s.next);
    AckingOnly(s, t, job, id);
    assert forall x :: Moving(t, x) ==> Moving(s, x);
    forall x | x in t.published ensures Kept(t, x) {
      var w :| KeptBy(s, x, w);
      if w == InMain(id) {
        assert KeptBy(t, x, InDlq(s.next));
      } else {
        assert KeptBy(t, x, w);
      }
    }
  }

  lemma DlqIsBelow(s: Sys)
    requires QueueInv(s)
    ensures forall id :: id in s.dlq ==> id < s.next
  {
  }

  lemma ReceivedIsSound(s: Sys, job: nat, ids: seq<nat>)
    requires QueueInv(s) && job !in s.jobs && Receivable(s, ids)
    ensures JobInv(DoReceive(s, job, ids), DoReceive(s, job, ids).jobs[job])
  {
    hide RedriveInv, DlqInv;
    var t := DoReceive(s, job, ids);
    forall r | r in t.jobs[job].batch ensures RecordInv(t, r) {
      var i :| 0 <= i < |ids| && r == (ids[i], s.main[ids[i]].event);
    }
  }

  lemma ReceivedAcksNothing(s: Sys, job: nat, ids: seq<nat>)
    requires job !in s.jobs && Receivable(s, ids)
    ensures forall id :: Acking(DoReceive(s, job, ids), id) ==> Acking(s, id)
  {
    var t := DoReceive(s, job, ids);
    forall id | Acking(t, id) ensures Acking(s, id) {
      var k :| k in t.jobs && id in t.jobs[k].acked;
      assert k in s.jobs;
    }
  }

  lemma ReceiveKeeps(s: Sys, job: nat, ids: seq<nat>)
    requires Conserved(s)
    ensures Conserved(DoReceive(s, job, ids))
  {
    hide RedriveInv, LetterInv, JobInv, Acking, AllKept;
    if job !in s.jobs && Receivable(s, ids) {
      var t := DoReceive(s, job, ids);
      ReflexiveLater(s.erp);
      RecordsStay(s, t);
      ReceivedIsSound(s, job, ids);
      ReceivedAcksNothing(s, job, ids);
      QuietStep(s, t);
    }
  }

  lemma ExhaustKeeps(s: Sys, id: nat)
    requires Conserved(s)
    ensures Conserved(DoExhaust(s, id))
  {
    if id in s.main && s.main[id].visible && s.main[id].received >= MAX_RECEIVES {
      var t := DoExhaust(s, id);
      RecordsStay(s, t);
      NotMovingFromMain(s, id);
      forall x | x in t.published ensures Kept(t, x) {
        var w :| KeptBy(s, x, w);
        assert KeptBy(t, x, if w == InMain(id) then InDlq(id) else w);
      }
    }
  }

  lemma NotMovingFromMain(s: Sys, id: nat)
    requires QueueInv(s) && id in s.main
    ensures !Moving(s, id)
  {
    forall k | k in s.redrives && s.redrives[k].sent && s.redrives[k].at < |s.redrives[k].todo|
      ensures s.redrives[k].todo[s.redrives[k].at].0 != id
    {
      assert RedriveInv(s, s.redrives[k]);
      assert LetterInv(s, s.redrives[k].todo[s.redrives[k].at]);
    }
  }

  lemma AcknowledgeKeeps(s: Sys, job: nat, id: nat)
    requires Conserved(s)
    ensures Conserved(DoAcknowledge(s, job, id))
  {
    var t := DoAcknowledge(s, job, id);
    if t != s {
      assert Acking(s, id);
      RecordsStay(s, t);
      forall x | x in t.published ensures Kept(t, x) {
        var w :| KeptBy(s, x, w);
        assert KeptBy(t, x, w);
      }
    }
  }

  lemma ExpireKeeps(s: Sys, id: nat)
    requires Conserved(s) && id in s.main
    ensures Conserved(s.(main := s.main[id := s.main[id].(visible := true)]))
  {
    var t := s.(main := s.main[id := s.main[id].(visible := true)]);
    ReflexiveLater(s.erp);
    RecordsStay(s, t);
    QuietStep(s, t);
  }

  lemma CrashKeeps(s: Sys, job: nat)
    requires Conserved(s)
    ensures Conserved(s.(jobs := s.jobs - {job}))
  {
    var t := s.(jobs := s.jobs - {job});
    ReflexiveLater(s.erp);
    RecordsStay(s, t);
    forall id | Acking(t, id) ensures Acking(s, id) {
      var k :| k in t.jobs && id in t.jobs[k].acked;
      assert k in s.jobs;
    }
    QuietStep(s, t);
  }

  lemma HandBackKeeps(s: Sys, job: nat)
    requires Conserved(s)
    ensures Conserved(DoHandBack(s, job))
  {
    if At(s, job, Ready) {
      ReflexiveLater(s.erp);
      JobMoves(s, DoHandBack(s, job), job, s.jobs[job].(at := |s.jobs[job].batch|));
    }
  }

  lemma WorkKeeps(s: Sys, a: Action)
    requires Conserved(s)
    ensures Conserved(DoWork(s, a))
  {
    hide Conserved, LeavesReaders, OnlyQueues, DoReceive, DoExhaust, DoWrite, DoReadBack, DoPark, DoHandBack, DoAcknowledge;
    match a {
      case Receive(job, ids) => ReceiveKeeps(s, job, ids);
      case Expire(id) =>
        if id in s.main {
          ExpireKeeps(s, id);
        }
      case Exhaust(id) => ExhaustKeeps(s, id);
      case Write(job, now, fate) => WriteKeeps(s, job, now, fate);
      case ReadBack(job, works) => ReadBackKeeps(s, job, works);
      case Park(job, works) => ParkKeeps(s, job, works);
      case HandBack(job) => HandBackKeeps(s, job);
      case Crash(job) => CrashKeeps(s, job);
      case Acknowledge(job, id) => AcknowledgeKeeps(s, job, id);
      case _ =>
    }
  }

  // ---- redrive steps --------------------------------------------------------------------------

  lemma RedriveMoves(s: Sys, t: Sys, r: nat)
    requires Conserved(s) && t == s.(redrives := t.redrives)
    requires t.redrives.Keys <= s.redrives.Keys + {r}
    requires forall k :: k in t.redrives && k != r ==> t.redrives[k] == s.redrives[k]
    requires r in t.redrives ==> RedriveInv(s, t.redrives[r]) && !t.redrives[r].sent
    ensures Conserved(t)
  {
    ReflexiveLater(s.erp);
    RecordsStay(s, t);
    if r in t.redrives {
      forall x | x in t.redrives[r].todo ensures LetterInv(t, x) {
        assert LetterInv(s, x);
      }
    }
    forall id | Moving(t, id) ensures Moving(s, id) {
      var k :| k in t.redrives && t.redrives[k].sent && t.redrives[k].at < |t.redrives[k].todo|
               && t.redrives[k].todo[t.redrives[k].at].0 == id;
      assert k in s.redrives && s.redrives[k] == t.redrives[k];
    }
    assert forall id :: Acking(t, id) ==> Acking(s, id);
    QuietStep(s, t);
  }

  ghost predicate Copyable(s: Sys, r: nat) {
    OnMessage(s, r) && !s.redrives[r].sent
    && (s.redrives[r].todo[s.redrives[r].at].1.reason.None? || s.redrives[r].all)
  }

  lemma CopyUndisturbed(s: Sys, r: nat)
    requires QueueInv(s) && Copyable(s, r)
    ensures var t := DoRedrive(s, Copy(r));
            MainInv(t) && DlqInv(t) && Undisturbed(s, t) && t.jobs == s.jobs
  {
    hide JobInv;
    var x := s.redrives[r].todo[s.redrives[r].at];
    assert RedriveInv(s, s.redrives[r]) && LetterInv(s, x);
  }

  lemma CopyRedrives(s: Sys, r: nat)
    requires QueueInv(s) && Copyable(s, r)
    ensures var t := DoRedrive(s, Copy(r)); forall k :: k in t.redrives ==> RedriveInv(t, t.redrives[k])
  {
    hide JobInv, LetterInv, MainInv, DlqInv, Undisturbed;
    var t := DoRedrive(s, Copy(r));
    CopyUndisturbed(s, r);
    RecordsStay(s, t);
    forall k | k in t.redrives ensures RedriveInv(t, t.redrives[k]) {
      assert RedriveInv(t, s.redrives[k]);
    }
  }

  lemma CopyKeepsQueues(s: Sys, r: nat)
    requires QueueInv(s) && Copyable(s, r)
    ensures QueueInv(DoRedrive(s, Copy(r)))
    ensures var (id, m) := s.redrives[r].todo[s.redrives[r].at]; id in s.dlq ==> s.dlq[id].event == m.event
  {
    hide JobInv, MainInv, DlqInv, Undisturbed, DoRedrive;
    var t := DoRedrive(s, Copy(r));
    assert RedriveInv(s, s.redrives[r]) && LetterInv(s, s.redrives[r].todo[s.redrives[r].at]);
    CopyUndisturbed(s, r);
    CopyRedrives(s, r);
    RecordsStay(s, t);
  }

  lemma CopyMovesOne(s: Sys, r: nat)
    requires Copyable(s, r)
    ensures forall x :: Moving(DoRedrive(s, Copy(r)), x) ==> Moving(s, x) || x == s.redrives[r].todo[s.redrives[r].at].0
  {
    var t := DoRedrive(s, Copy(r));
    forall x | Moving(t, x) ensures Moving(s, x) || x == s.redrives[r].todo[s.redrives[r].at].0 {
      var k :| k in t.redrives && t.redrives[k].sent && t.redrives[k].at < |t.redrives[k].todo|
               && t.redrives[k].todo[t.redrives[k].at].0 == x;
      if k != r {
        assert s.redrives[k] == t.redrives[k];
      }
    }
  }

  lemma CopyKeeps(s: Sys, r: nat)
    requires Conserved(s) && Copyable(s, r)
    ensures Conserved(DoRedrive(s, Copy(r)))
  {
    hide QueueInv, Moving;
    var t := DoRedrive(s, Copy(r));
    var id := s.redrives[r].todo[s.redrives[r].at].0;
    CopyKeepsQueues(s, r);
    CopyMovesOne(s, r);
    NewIsNotAcked(s, s.next);
    MainIsBelow(s);
    forall x | x in t.published ensures Kept(t, x) {
      var w :| KeptBy(s, x, w);
      assert KeptBy(t, x, if w == InDlq(id) then InMain(s.next) else w);
    }
  }

  lemma DropKeepsQueues(s: Sys, r: nat)
    requires QueueInv(s) && OnMessage(s, r) && s.redrives[r].sent
    ensures QueueInv(DoRedrive(s, Drop(r, true)))
  {
    hide JobInv;
    var t := DoRedrive(s, Drop(r, true));
    RecordsStay(s, t);
    assert RedriveInv(t, s.redrives[r]);
  }

  lemma DropKeeps(s: Sys, r: nat)
    requires Conserved(s) && OnMessage(s, r) && s.redrives[r].sent
    ensures Conserved(DoRedrive(s, Drop(r, true)))
  {
    hide QueueInv, Acking;
    var t := DoRedrive(s, Drop(r, true));
    DropKeepsQueues(s, r);
    assert Moving(s, s.redrives[r].todo[s.redrives[r].at].0);
    forall x | Moving(t, x) ensures Moving(s, x) {
      var k :| k in t.redrives && t.redrives[k].sent && t.redrives[k].at < |t.redrives[k].todo|
               && t.redrives[k].todo[t.redrives[k].at].0 == x;
      assert k != r && s.redrives[k] == t.redrives[k];
    }
    assert forall x :: Acking(t, x) <==> Acking(s, x) by { AckingByJobs(s, t); }
    forall x | x in t.published ensures Kept(t, x) {
      var w :| KeptBy(s, x, w);
      assert KeptBy(t, x, w);
    }
  }

  lemma AckingByJobs(s: Sys, t: Sys)
    requires t.jobs == s.jobs
    ensures forall x :: Acking(t, x) <==> Acking(s, x)
  {
  }

  lemma PeekKeeps(s: Sys, r: nat, all: bool, ids: seq<nat>)
    requires Conserved(s)
    ensures Conserved(DoRedrive(s, Peek(r, all, ids)))
  {
    hide AllKept, JobInv;
    var t := DoRedrive(s, Peek(r, all, ids));
    if t != s {
      forall x | x in t.redrives[r].todo ensures LetterInv(s, x) {
        var i :| 0 <= i < |ids| && x == (ids[i], s.dlq[ids[i]]);
      }
      RedriveMoves(s, t, r);
    }
  }

  lemma SkipKeeps(s: Sys, r: nat)
    requires Conserved(s)
    ensures Conserved(DoRedrive(s, Skip(r)))
  {
    hide AllKept, JobInv, MainInv, DlqInv, LetterInv;
    var t := DoRedrive(s, Skip(r));
    if t != s {
      assert RedriveInv(s, s.redrives[r]);
      RedriveMoves(s, t, r);
    }
  }

  lemma RedriveKeeps(s: Sys, a: Action)
    requires Conserved(s)
    ensures Conserved(DoRedrive(s, a))
  {
    hide Conserved;
    var t := DoRedrive(s, a);
    match a {
      case Peek(r, all, ids) => PeekKeeps(s, r, all, ids);
      case Skip(r) => SkipKeeps(s, r);
      case Copy(r) =>
        if t != s {
          CopyKeeps(s, r);
        }
      case Drop(r, works) =>
        if t != s {
          if works {
            DropKeeps(s, r);
          } else {
            RedriveMoves(s, t, r);
          }
        }
      case StopRedrive(r) => RedriveMoves(s, t, r);
      case _ =>
    }
  }

  // ---- every step -----------------------------------------------------------------------------

  lemma ElsewhereKeeps(s: Sys, t: Sys)
    requires Conserved(s) && t == s.(org := t.org, mark := t.mark, marks := t.marks, runs := t.runs, recs := t.recs)
    ensures Conserved(t)
  {
    ReflexiveLater(s.erp);
    RecordsStay(s, t);
    QuietStep(s, t);
  }

  lemma SendKeeps(c: Config, s: Sys, run: nat, now: int, sent: nat, stored: seq<Event>)
    requires Conserved(s)
    ensures Conserved(DoPoll(c, s, PollSend(run, now, sent, stored)))
  {
    var t := DoPoll(c, s, PollSend(run, now, sent, stored));
    PublishKeeps(s, stored);
    if t != s {
      ElsewhereKeeps(Publish(s, stored), t);
    }
  }

  lemma PollKeeps(c: Config, s: Sys, a: Action)
    requires Conserved(s)
    ensures Conserved(DoPoll(c, s, a))
  {
    hide Conserved, Publisher.SafePrefix, Poller.IsAnswer, Poller.NextMark, Poller.Upper, Publish;
    if a.PollSend? {
      SendKeeps(c, s, a.run, a.now, a.sent, a.stored);
    } else {
      ElsewhereKeeps(s, DoPoll(c, s, a));
    }
  }

  lemma ReconcileKeeps(c: Config, s: Sys, a: Action)
    requires Conserved(s)
    ensures Conserved(DoReconcile(c, s, a))
  {
    var t := DoReconcile(c, s, a);
    if a.Enqueue? {
      PublishKeeps(s, a.stored);
      if t != s {
        ElsewhereKeeps(Publish(s, a.stored), t);
      }
    } else {
      ElsewhereKeeps(s, t);
    }
  }

  lemma StepKeeps(c: Config, s: Sys, a: Action)
    requires Conserved(s)
    ensures Conserved(Do(c, s, a))
  {
    if a.Salesforce? {
      ElsewhereKeeps(s, Do(c, s, a));
    } else {
      PollKeeps(c, s, a);
      RedriveKeeps(s, a);
      ReconcileKeeps(c, s, a);
      WorkKeeps(s, a);
    }
  }

  lemma {:induction false} RunKeeps(c: Config, clock: int, accounts: map<string, string>, run: seq<Action>)
    ensures Conserved(After(c, clock, accounts, run))
  {
    if run != [] {
      RunKeeps(c, clock, accounts, run[..|run| - 1]);
      StepKeeps(c, After(c, clock, accounts, run[..|run| - 1]), run[|run| - 1]);
    }
  }

  /** In every reachable state, each event ever published is still on the main queue, or on the dead-letter queue,
    * or the stored order of its deal is at the event's version or past it. */
  lemma NoEventIsLost(c: Config, clock: int, accounts: map<string, string>, run: seq<Action>, e: Event)
    requires e in After(c, clock, accounts, run).published
    ensures var s := After(c, clock, accounts, run);
            || (exists id :: id in s.main && s.main[id].event == e)
            || (exists id :: id in s.dlq && s.dlq[id].event == e)
            || (e.row.id in s.erp.orders && s.erp.orders[e.row.id].version >= e.row.stamp)
  {
    RunKeeps(c, clock, accounts, run);
    var w :| KeptBy(After(c, clock, accounts, run), e, w);
  }
}
