/** The event source mapping: receive a batch, invoke the worker, and delete exactly what it answered for. */
module EsmPump {
  import opened Prelude
  import opened Events
  import opened Erp
  import opened Outcomes
  import opened Queues
  import opened Worker

  const BATCH_SIZE := 10

  /** What comes back from an invocation. */
  datatype Reply = NoReply | FunctionError | NotJson | Blank | Payload(json: Json)

  datatype Verdict = BatchFailed | Raised | Failed(ids: set<string>)

  predicate Falsy(j: Json) {
    match j
    case JNull => true
    case JBool(b) => !b
    case JInt(n) => n == 0
    case JDec(d) => d.unscaled == 0
    case JNonFinite => false
    case JStr(s) => s == ""
    case JList(items) => items == []
    case JObj(fields) => fields == map[]
  }

  /** The id an entry of batchItemFailures names, if it is well formed. */
  function Identifier(item: Json): Option<string> {
    if item.JObj? && Get(item.fields, "itemIdentifier").JStr? && Get(item.fields, "itemIdentifier").s != "" then
      Some(Get(item.fields, "itemIdentifier").s)
    else None
  }

  predicate GoodItem(item: Json, ids: set<string>) {
    Identifier(item).Some? && Identifier(item).value in ids
  }

  /** How the pump reads a reply: an unusable reply fails the whole batch, an empty one succeeds it. */
  function Read(reply: Reply, ids: set<string>): Verdict {
    match reply
    case NoReply => BatchFailed
    case FunctionError => BatchFailed
    case NotJson => BatchFailed
    case Blank => Failed({})
    case Payload(json) =>
      if json.JObj? && "errorType" in json.fields then BatchFailed
      else if Falsy(json) then Failed({})
      else if !json.JObj? then Raised
      else if Get(json.fields, "batchItemFailures") == JNull then Failed({})
      else if !Get(json.fields, "batchItemFailures").JList? then BatchFailed
      else
        var items := Get(json.fields, "batchItemFailures").items;
        if exists i :: 0 <= i < |items| && !GoodItem(items[i], ids) then BatchFailed
        else Failed(set i | 0 <= i < |items| && Identifier(items[i]).Some? :: Identifier(items[i]).value)
  }

  method Invoke(reply: Reply, ids: set<string>) returns (v: Verdict)
    ensures v == Read(reply, ids)
  {
    match reply {
      case NoReply => return BatchFailed;
      case FunctionError => return BatchFailed;
      case NotJson => return BatchFailed;
      case Blank => return Failed({});
      case Payload(json) =>
        if json.JObj? && "errorType" in json.fields {
          return BatchFailed;
        }
        if Falsy(json) {
          return Failed({});
        }
        if !json.JObj? {
          return Raised;
        }
        if Get(json.fields, "batchItemFailures") == JNull {
          return Failed({});
        }
        if !Get(json.fields, "batchItemFailures").JList? {
          return BatchFailed;
        }
        var items := Get(json.fields, "batchItemFailures").items;
        var failed := {};
        for i := 0 to |items|
          invariant forall k :: 0 <= k < i ==> GoodItem(items[k], ids)
          invariant failed == set k | 0 <= k < i && Identifier(items[k]).Some? :: Identifier(items[k]).value
        {
          var id := Identifier(items[i]);
          if id.None? || id.value !in ids {
            assert !GoodItem(items[i], ids);
            return BatchFailed;
          }
          failed := failed + {id.value};
        }
        return Failed(failed);
    }
  }

  ghost predicate Names(items: seq<Json>, id: string) {
    exists i :: 0 <= i < |items| && Identifier(items[i]) == Some(id)
  }

  /** A reply that never came, is an error, or is not JSON fails the whole batch, and so does one malformed or foreign
    * entry in a list of failures. An empty reply, or one without the list, is a success of the whole batch. A list of
    * well-formed entries names exactly the failed messages. Anything else raises. */
  lemma ReplyMeans(reply: Reply, ids: set<string>)
    ensures reply in {NoReply, FunctionError, NotJson} ==> Read(reply, ids) == BatchFailed
    ensures reply in {Blank, Payload(JNull), Payload(JObj(map[])), Payload(JList([])), Payload(JStr("")), Payload(JBool(false))} ==>
              Read(reply, ids) == Failed({})
    ensures reply.Payload? && reply.json.JObj? && "errorType" in reply.json.fields ==> Read(reply, ids) == BatchFailed
    ensures reply.Payload? && reply.json.JObj? && "errorType" !in reply.json.fields && reply.json.fields != map[] ==>
              var list := Get(reply.json.fields, "batchItemFailures");
              && (list == JNull ==> Read(reply, ids) == Failed({}))
              && (list != JNull && !list.JList? ==> Read(reply, ids) == BatchFailed)
              && (list.JList? ==>
                    if forall i :: 0 <= i < |list.items| ==> NamesOneOf(list.items[i], ids)
                    then Read(reply, ids).Failed? && forall id :: id in Read(reply, ids).ids <==> Names(list.items, id)
                    else Read(reply, ids) == BatchFailed)
    ensures reply.Payload? && !reply.json.JObj? && !Falsy(reply.json) ==> Read(reply, ids) == Raised
  {
    if reply.Payload? && reply.json.JObj? && "errorType" !in reply.json.fields && reply.json.fields != map[] {
      var list := Get(reply.json.fields, "batchItemFailures");
      if list.JList? {
        ListMeans(reply, list.items, ids);
      }
    }
  }

  ghost predicate NamesOneOf(item: Json, ids: set<string>) {
    exists id :: id in ids && Identifier(item) == Some(id)
  }

  lemma GoodMeans(item: Json, ids: set<string>)
    ensures GoodItem(item, ids) <==> NamesOneOf(item, ids)
  {
    if GoodItem(item, ids) {
      assert Identifier(item) == Some(Identifier(item).value);
    }
  }

  lemma ListMeans(reply: Reply, items: seq<Json>, ids: set<string>)
    requires reply.Payload? && reply.json.JObj? && "errorType" !in reply.json.fields
    requires reply.json.fields != map[] && Get(reply.json.fields, "batchItemFailures") == JList(items)
    ensures if forall i :: 0 <= i < |items| ==> NamesOneOf(items[i], ids)
            then Read(reply, ids).Failed? && forall id :: id in Read(reply, ids).ids <==> Names(items, id)
            else Read(reply, ids) == BatchFailed
  {
    hide GoodItem, NamesOneOf, Identifier;
    forall i | 0 <= i < |items| ensures GoodItem(items[i], ids) <==> NamesOneOf(items[i], ids) {
      GoodMeans(items[i], ids);
    }
    if forall i :: 0 <= i < |items| ==> NamesOneOf(items[i], ids) {
      var failed := Read(reply, ids).ids;
      forall id ensures id in failed <==> Names(items, id) {
        if Names(items, id) {
          var i :| 0 <= i < |items| && Identifier(items[i]) == Some(id);
          assert Identifier(items[i]).value == id;
        }
        if id in failed {
          var i :| 0 <= i < |items| && Identifier(items[i]).Some? && Identifier(items[i]).value == id;
          assert Identifier(items[i]) == Some(id);
        }
      }
    }
  }

  /** The worker's partial batch response as JSON. */
  function Encode(failures: seq<string>): Json {
    JObj(map["batchItemFailures" := JList(EncodeItems(failures))])
  }

  function EncodeItems(failures: seq<string>): (items: seq<Json>)
    ensures |items| == |failures|
    ensures forall i :: 0 <= i < |items| ==> items[i] == JObj(map["itemIdentifier" := JStr(failures[i])])
  {
    if failures == [] then []
    else EncodeItems(failures[..|failures| - 1]) + [JObj(map["itemIdentifier" := JStr(failures[|failures| - 1])])]
  }

  /** A well-formed partial response reads back as exactly the ids it lists. */
  lemma ReadEncoded(failures: seq<string>, ids: set<string>)
    requires forall f :: f in failures ==> f in ids && f != ""
    ensures Read(Payload(Encode(failures)), ids) == Failed(set f | f in failures)
  {
    var items := EncodeItems(failures);
    var json := Encode(failures);
    assert Get(json.fields, "batchItemFailures") == JList(items);
    forall i | 0 <= i < |items| ensures Identifier(items[i]) == Some(failures[i]) {
      assert failures[i] in failures;
      assert Get(items[i].fields, "itemIdentifier") == JStr(failures[i]);
    }
    assert forall i :: 0 <= i < |items| ==> GoodItem(items[i], ids) by {
      assert forall i :: 0 <= i < |failures| ==> failures[i] in failures;
    }
    var named := set i | 0 <= i < |items| && Identifier(items[i]).Some? :: Identifier(items[i]).value;
    forall f ensures f in named <==> f in failures {
      if f in failures {
        var i :| 0 <= i < |failures| && failures[i] == f;
        assert Identifier(items[i]).value == f;
      }
    }
  }

  function ToRecords(batch: seq<Receipt>): (records: seq<Record>)
    ensures |records| == |batch|
    ensures forall i :: 0 <= i < |batch| ==>
              records[i] == Record(batch[i].id, batch[i].message.body, batch[i].message.eventKey, batch[i].message.received)
  {
    seq(|batch|, i requires 0 <= i < |batch| =>
      Record(batch[i].id, batch[i].message.body, batch[i].message.eventKey, batch[i].message.received))
  }

  /** The ids of the records that were acknowledged. */
  ghost function AckedIds(records: seq<Record>, outcomes: seq<Outcome>): set<string> {
    set i | 0 <= i < |records| && i < |outcomes| && Acknowledged(outcomes[i]) :: records[i].messageId
  }

  datatype Stats = Stats(batches: nat, deleted: nat, itemFailures: nat, batchFailures: nat)

  /** How one cycle ended. */
  datatype Cycle = Cycle(batch: seq<Receipt>, answered: bool)

  /** What a cycle adds to the statistics: a batch, and either its failed items and deletes or one failed batch. */
  function Counted(s: Stats, c: Cycle, failed: set<string>): Stats {
    if c.batch == [] then s
    else if !c.answered then s.(batches := s.batches + 1, batchFailures := s.batchFailures + 1)
    else Stats(s.batches + 1, s.deleted + Succeeded(c.batch, failed), s.itemFailures + |failed|, s.batchFailures)
  }

  class Pump {
    const queue: Queue
    const worker: Worker
    var stats: Stats

    constructor (queue: Queue, worker: Worker)
      ensures this.queue == queue && this.worker == worker && stats == Stats(0, 0, 0, 0)
    {
      this.queue, this.worker, stats := queue, worker, Stats(0, 0, 0, 0);
    }

    /** One receive, one invocation, and the deletes. `lost` are the deletes that fail; `replyLost` drops the
      * response on the way. The messages of the batch that leave the queue are exactly those whose record was
      * acknowledged, unless the invocation died or its answer was lost: then none leaves. */
    method RunCycle(pick: seq<string>, env: nat -> Env, crashAfter: int, replyLost: bool, lost: set<string>)
      returns (c: Cycle, ghost outcomes: seq<Outcome>)
      requires worker.dlq != queue
      requires forall i: nat :: Honest(env(i).fate)
      requires "" !in queue.messages
      modifies this, queue, worker.db, worker.dlq
      ensures c.batch == ReceivedAll(old(queue.State()), pick, BATCH_SIZE).1
      ensures Handled(old(worker.State()), ToRecords(c.batch), env, worker.State(), outcomes)
      ensures queue.messages == ReceivedAll(old(queue.State()), pick, BATCH_SIZE).0.messages
                                - (if c.answered then AckedIds(ToRecords(c.batch), outcomes) - lost else {})
      ensures queue.hidden == ReceivedAll(old(queue.State()), pick, BATCH_SIZE).0.hidden
      ensures StopsAfter(ToRecords(c.batch), env, crashAfter, |outcomes|)
      ensures c.batch != [] ==> (c.answered <==> !replyLost && !(0 < crashAfter <= |outcomes|))
      ensures stats == Counted(old(stats), c, set f | f in Failures(ToRecords(c.batch), outcomes))
    {
      hide Handled, Failures, Succeeded, ReceivedAll, Done, Read, SameMessages, OnlyHides, Sound, HandleAll;
      var batch := queue.Receive(pick, BATCH_SIZE);
      ghost var before, received := old(queue.State()), queue.State();
      ReceivedAllDelivers(before, pick, BATCH_SIZE);
      if batch == [] {
        StartHandled(worker.State(), ToRecords(batch), env);
        return Cycle([], true), [];
      }
      stats := stats.(batches := stats.batches + 1);
      var verdict;
      verdict, outcomes := InvokeWorker(batch, env, crashAfter, replyLost);
      assert queue.State() == received;
      if !verdict.Failed? {
        stats := stats.(batchFailures := stats.batchFailures + 1);
        return Cycle(batch, false), outcomes;
      }
      stats := stats.(itemFailures := stats.itemFailures + |verdict.ids|);
      DeleteDone(before, batch, verdict.ids, lost);
      NotFailedIsAcked(batch, ToRecords(batch), outcomes, verdict.ids);
      return Cycle(batch, true), outcomes;
    }

    /** Hand the batch to the worker and read its answer. */
    method InvokeWorker(batch: seq<Receipt>, env: nat -> Env, crashAfter: int, replyLost: bool)
      returns (verdict: Verdict, ghost outcomes: seq<Outcome>)
      requires worker.dlq != queue
      requires forall i: nat :: Honest(env(i).fate)
      requires forall i, j :: 0 <= i < j < |batch| ==> batch[i].id != batch[j].id
      requires forall r :: r in batch ==> r.id != ""
      modifies worker.db, worker.dlq
      ensures Handled(old(worker.State()), ToRecords(batch), env, worker.State(), outcomes)
      ensures StopsAfter(ToRecords(batch), env, crashAfter, |outcomes|)
      ensures verdict.Failed? <==> !replyLost && !(0 < crashAfter <= |outcomes|)
      ensures verdict.Failed? ==> verdict.ids == set f | f in Failures(ToRecords(batch), outcomes)
    {
      var records := ToRecords(batch);
      var response;
      response, outcomes := worker.Handler(records, env, crashAfter);
      var reply := if replyLost then NoReply
                   else if response.Crashed? then FunctionError else Payload(Encode(response.failures));
      verdict := Invoke(reply, set r | r in batch :: r.id);
      ReplyIsUsable(batch, records, outcomes, response, replyLost);
    }

    /** Delete every message of the batch that did not fail. */
    method DeleteDone(ghost before: QueueState, batch: seq<Receipt>, failed: set<string>, lost: set<string>)
      requires Fresh(before, queue.State(), batch)
      modifies this, queue
      ensures queue.messages == old(queue.messages) - Done(batch, failed, lost) && queue.hidden == old(queue.hidden)
      ensures stats == old(stats).(deleted := old(stats.deleted) + Succeeded(batch, failed))
    {
      for i := 0 to |batch|
        invariant queue.messages == old(queue.messages) - Done(batch[..i], failed, lost)
        invariant queue.receipts == old(queue.receipts) && queue.hidden == old(queue.hidden)
        invariant stats == old(stats).(deleted := old(stats.deleted) + Succeeded(batch[..i], failed))
      {
        assert batch[i] in batch && batch[..i + 1][..i] == batch[..i];
        DoneStep(batch, i, failed, lost);
        if batch[i].id !in failed {
          assert batch[i].id !in Done(batch[..i], failed, lost) by { EarlierAreOthers(batch, i, failed, lost); }
          var _ := queue.Delete(batch[i], batch[i].id !in lost);
          stats := stats.(deleted := stats.deleted + 1);
        }
      }
      assert batch[..|batch|] == batch;
    }
  }

  /** How many messages of the batch did not fail: the deletes asked for, whether they work or not. */
  function Succeeded(batch: seq<Receipt>, failed: set<string>): nat {
    if batch == [] then 0
    else Succeeded(batch[..|batch| - 1], failed) + if batch[|batch| - 1].id in failed then 0 else 1
  }

  /** Of a batch that was answered, each message is counted once: as failed, or as deleted. */
  lemma {:induction false} CountsAddUp(batch: seq<Receipt>, failed: set<string>)
    requires forall i, j :: 0 <= i < j < |batch| ==> batch[i].id != batch[j].id
    requires failed <= set r | r in batch :: r.id
    ensures Succeeded(batch, failed) + |failed| == |batch|
  {
    if batch == [] {
      assert failed == {};
    } else {
      var n := |batch| - 1;
      var init, last := batch[..n], batch[n].id;
      forall id | id in failed - {last} ensures id in set r | r in init :: r.id {
        var i :| 0 <= i < |batch| && batch[i].id == id;
        assert init[i] == batch[i];
      }
      CountsAddUp(init, failed - {last});
      SameSucceeded(init, failed, last);
      assert failed == failed - {last} + if last in failed then {last} else {};
    }
  }

  lemma {:induction false} SameSucceeded(batch: seq<Receipt>, failed: set<string>, id: string)
    requires forall i :: 0 <= i < |batch| ==> batch[i].id != id
    ensures Succeeded(batch, failed) == Succeeded(batch, failed - {id})
  {
    if batch != [] {
      SameSucceeded(batch[..|batch| - 1], failed, id);
    }
  }

  function Done(batch: seq<Receipt>, failed: set<string>, lost: set<string>): set<string> {
    set r | r in batch && r.id !in failed && r.id !in lost :: r.id
  }

  lemma DoneStep(batch: seq<Receipt>, i: nat, failed: set<string>, lost: set<string>)
    requires i < |batch|
    ensures Done(batch[..i + 1], failed, lost)
            == Done(batch[..i], failed, lost) + (if batch[i].id in failed || batch[i].id in lost then {} else {batch[i].id})
  {
    assert batch[..i + 1] == batch[..i] + [batch[i]];
  }

  lemma EarlierAreOthers(batch: seq<Receipt>, i: nat, failed: set<string>, lost: set<string>)
    requires i < |batch| && forall a, b :: 0 <= a < b < |batch| ==> batch[a].id != batch[b].id
    ensures batch[i].id !in Done(batch[..i], failed, lost)
  {
  }

  /** A reply is read as the ids the worker listed exactly when it arrives and the worker lived. */
  lemma ReplyIsUsable(batch: seq<Receipt>, records: seq<Record>, outcomes: seq<Outcome>, response: Response, replyLost: bool)
    requires records == ToRecords(batch)
    requires forall i, j :: 0 <= i < j < |batch| ==> batch[i].id != batch[j].id
    requires forall r :: r in batch ==> r.id != ""
    requires response.Returned? ==> response.failures == Failures(records, outcomes)
    ensures var reply := if replyLost then NoReply
                         else if response.Crashed? then FunctionError else Payload(Encode(response.failures));
            var verdict := Read(reply, set r | r in batch :: r.id);
            && (verdict.Failed? <==> !replyLost && response.Returned?)
            && (verdict.Failed? ==> verdict.ids == set f | f in Failures(records, outcomes))
  {
    if response.Returned? && !replyLost {
      var ids := set r | r in batch :: r.id;
      FailuresExact(records, outcomes);
      forall f | f in response.failures ensures f in ids && f != "" {
        var i :| 0 <= i < |records| && records[i].messageId == f;
        assert batch[i] in batch;
      }
      ReadEncoded(response.failures, ids);
    }
  }

  lemma NotFailedIsAcked(batch: seq<Receipt>, records: seq<Record>, outcomes: seq<Outcome>, failed: set<string>)
    requires records == ToRecords(batch) && failed == set f | f in Failures(records, outcomes)
    requires forall i, j :: 0 <= i < j < |batch| ==> batch[i].id != batch[j].id
    ensures forall lost: set<string> :: Done(batch, failed, lost) == AckedIds(records, outcomes) - lost
  {
    FailuresExact(records, outcomes);
    forall lost: set<string>
      ensures Done(batch, failed, lost) == AckedIds(records, outcomes) - lost
    {
      forall id ensures id in Done(batch, failed, lost) <==> id in AckedIds(records, outcomes) - lost {
        if id in Done(batch, failed, lost) {
          var r :| r in batch && r.id == id && r.id !in failed;
          var i :| 0 <= i < |batch| && batch[i] == r;
          assert records[i].messageId == id;
        }
        if id in AckedIds(records, outcomes) - lost {
          var i :| 0 <= i < |records| && i < |outcomes| && Acknowledged(outcomes[i]) && records[i].messageId == id;
          assert batch[i] in batch;
        }
      }
    }
  }

  /** Whatever a cycle deletes was safe to delete: its order is in the ERP, or a dead letter has its body. */
  lemma DeletedWasSafe(w: World, batch: seq<Receipt>, env: nat -> Env, after: World, outcomes: seq<Outcome>, id: string)
    requires Handled(w, ToRecords(batch), env, after, outcomes)
    requires Sound(w.dlq) && forall i: nat :: Honest(env(i).fate)
    requires id in AckedIds(ToRecords(batch), outcomes)
    ensures exists r :: r in batch && r.id == id && SafeToDelete(after, r.message.body)
  {
    var records, n := ToRecords(batch), |outcomes|;
    BatchIsSafe(w, records[..n], env);
    var i :| 0 <= i < |records| && i < n && Acknowledged(outcomes[i]) && records[i].messageId == id;
    assert records[..n][i] == records[i];
    assert batch[i] in batch && batch[i].id == id && SafeToDelete(after, batch[i].message.body);
  }
}
