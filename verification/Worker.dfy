/** The worker: each record of a batch ends written, parked, or left for a retry, and only failures are reported. */
module Worker {
  import opened Prelude
  import opened Mapping
  import opened Erp
  import opened Outcomes
  import opened Queues

  datatype Record = Record(messageId: string, body: Body, eventKey: string, attempt: nat)

  /** What the services do while one record is processed. */
  datatype Env = Env(
    outOfTime: bool,
    chaosFails: bool,
    now: string,
    fate: Fate,
    others: seq<Delivery>,
    readFails: bool,
    parkWorks: bool,
    parkedAt: int)

  datatype Response = Crashed | Returned(failures: seq<string>)

  /** The world a worker changes. */
  datatype World = World(erp: Tables, dlq: QueueState)

  /** What a record is called: its event key, or without one its message id. */
  function NameOfRecord(r: Record): string {
    if r.eventKey != "" then r.eventKey else r.messageId
  }

  /** A message attribute must not be empty. */
  function OrDash(v: string): string {
    if v == "" then "-" else v
  }

  /** The parked copy of a record: the same body, with a reason. */
  function Letter(r: Record, reason: string, at: int): Message {
    Message(r.body, OrDash(NameOfRecord(r)), OrDash(reason), at, 0)
  }

  function ParkSpec(w: World, r: Record, reason: string, e: Env): (World, Outcome) {
    if e.parkWorks then (w.(dlq := Sent(w.dlq, Letter(r, reason, e.parkedAt))), DeadLettered) else (w, DlqSendFailed)
  }

  /** What a failure leads to: park it for good, or retry. */
  function FailSpec(w: World, r: Record, f: Failure, e: Env): (World, Outcome) {
    if Outcomes.Classify(f).kind == Permanent then ParkSpec(w, r, Outcomes.Classify(f).reason, e) else (w, Retry)
  }

  function HandleSpec(w: World, r: Record, e: Env): (World, Outcome) {
    match Decode(r.body)
    case Err(p) => FailSpec(w, r, Unmappable(p), e)
    case Ok(o) =>
      if e.chaosFails then FailSpec(w, r, ErpFailed(Unavailable), e)
      else
        var (erp, result) := WriteSpec(w.erp, o, e.now, e.fate, e.others, e.readFails);
        match result
        case Ok(v) => (w.(erp := erp), Wrote(v))
        case Err(x) => FailSpec(w.(erp := erp), r, ErpFailed(x), e)
  }

  /** The world and the outcomes after a whole sequence of records. */
  function HandleAll(w: World, records: seq<Record>, env: nat -> Env): (World, seq<Outcome>) {
    if records == [] then (w, [])
    else
      var n := |records| - 1;
      var (before, outcomes) := HandleAll(w, records[..n], env);
      var (after, outcome) := HandleSpec(before, records[n], env(n));
      (after, outcomes + [outcome])
  }

  /** The world and the outcomes once the first records of a batch are handled. */
  ghost predicate Handled(first: World, records: seq<Record>, env: nat -> Env, w: World, outcomes: seq<Outcome>) {
    |outcomes| <= |records| && (w, outcomes) == HandleAll(first, records[..|outcomes|], env)
  }

  /** A batch stops after `n` records: no record is started once the time is short or the process has crashed, and
    * none is left over without such a reason. */
  ghost predicate StopsAfter(records: seq<Record>, env: nat -> Env, crashAfter: int, n: nat) {
    && n <= |records| && (forall i :: 0 <= i < n ==> !env(i).outOfTime) && (0 < crashAfter ==> n <= crashAfter)
    && (n == |records| || env(n).outOfTime || 0 < n == crashAfter)
  }

  /** Where a batch stops follows from the clock and the crash alone. */
  lemma StopsOnce(records: seq<Record>, env: nat -> Env, crashAfter: int, m: nat, n: nat)
    requires StopsAfter(records, env, crashAfter, m) && StopsAfter(records, env, crashAfter, n)
    ensures m == n
  {
    assert m < n ==> !env(m).outOfTime;
    assert n < m ==> !env(n).outOfTime;
  }

  /** The records reported as failed: those left for a retry, and those never started. */
  function Failures(records: seq<Record>, outcomes: seq<Outcome>): seq<string> {
    if records == [] then []
    else
      var n := |records| - 1;
      Failures(records[..n], outcomes)
      + (if n < |outcomes| && Acknowledged(outcomes[n]) then [] else [records[n].messageId])
  }

  class Worker {
    const db: Database
    const dlq: Queue

    constructor (db: Database, dlq: Queue)
      ensures this.db == db && this.dlq == dlq
    {
      this.db, this.dlq := db, dlq;
    }

    function State(): World
      reads db, dlq
    {
      World(db.State(), dlq.State())
    }

    /** Work through a batch. A crash loses the response; otherwise exactly the records that were not
      * acknowledged are reported. */
    method Handler(records: seq<Record>, env: nat -> Env, crashAfter: int) returns (r: Response, ghost outcomes: seq<Outcome>)
      requires forall i: nat :: Honest(env(i).fate)
      modifies db, dlq
      ensures Handled(old(State()), records, env, State(), outcomes)
      ensures r.Returned? ==> r.failures == Failures(records, outcomes)
      ensures StopsAfter(records, env, crashAfter, |outcomes|)
      ensures r.Crashed? <==> 0 < crashAfter <= |outcomes|
    {
      hide Handled, HandleAll;
      var failures := [];
      outcomes := [];
      ghost var first := State();
      StartHandled(first, records, env);
      for i := 0 to |records|
        invariant |outcomes| == i && !(0 < crashAfter <= i) && forall k :: 0 <= k < i ==> !env(k).outOfTime
        invariant Handled(first, records, env, State(), outcomes)
        invariant failures == Failures(records[..i], outcomes)
      {
        if env(i).outOfTime {
          var rest := HandBack(records, i, outcomes);
          return Returned(failures + rest), outcomes;
        }
        var outcome := HandleNext(first, records, env, i, outcomes);
        FailuresStep(records, outcomes, i, outcome);
        outcomes := outcomes + [outcome];
        if outcome == Retry || outcome == DlqSendFailed {
          failures := failures + [records[i].messageId];
        }
        if 0 < crashAfter <= i + 1 {
          return Crashed, outcomes;
        }
      }
      assert records[..|records|] == records;
      r := Returned(failures);
    }

    /** Handle record `i`, the records before it having been handled. */
    method HandleNext(ghost first: World, records: seq<Record>, env: nat -> Env, i: nat, ghost outcomes: seq<Outcome>)
      returns (outcome: Outcome)
      requires i == |outcomes| < |records| && Honest(env(i).fate)
      requires Handled(first, records, env, State(), outcomes)
      modifies db, dlq
      ensures Handled(first, records, env, State(), outcomes + [outcome])
    {
      OneMore(first, records, env, i);
      outcome := HandleRecord(records[i], env(i));
    }

    /** The ids of the records from `i` on. */
    method HandBack(records: seq<Record>, i: nat, ghost outcomes: seq<Outcome>) returns (rest: seq<string>)
      requires i == |outcomes| <= |records|
      ensures Failures(records[..i], outcomes) + rest == Failures(records, outcomes)
    {
      rest := [];
      for k := i to |records|
        invariant Failures(records[..i], outcomes) + rest == Failures(records[..k], outcomes)
      {
        assert records[..k + 1][..k] == records[..k];
        rest := rest + [records[k].messageId];
      }
      assert records[..|records|] == records;
    }

    method HandleRecord(r: Record, e: Env) returns (outcome: Outcome)
      requires Honest(e.fate)
      modifies db, dlq
      ensures (State(), outcome) == HandleSpec(old(State()), r, e)
    {
      var failure: Failure;
      var order := Decode(r.body);
      if order.Err? {
        failure := Unmappable(order.error);
      } else if e.chaosFails {
        failure := ErpFailed(Unavailable);
      } else {
        var result := db.WriteOrder(order.value, e.now, e.fate, e.others, e.readFails);
        if result.Ok? {
          return Wrote(result.value);
        }
        failure := ErpFailed(result.error);
      }
      var decision := Outcomes.Classify(failure);
      if decision.kind == Permanent {
        var parked := DeadLetter(r, decision.reason, e);
        return if parked then DeadLettered else DlqSendFailed;
      }
      return Retry;
    }

    /** True if the record is safe to delete. */
    method DeadLetter(r: Record, reason: string, e: Env) returns (parked: bool)
      modifies dlq
      ensures parked == e.parkWorks
      ensures dlq.State() == if parked then Sent(old(dlq.State()), Letter(r, reason, e.parkedAt)) else old(dlq.State())
    {
      if e.parkWorks {
        dlq.Send(Letter(r, reason, e.parkedAt));
      }
      return e.parkWorks;
    }
  }

  lemma StartHandled(w: World, records: seq<Record>, env: nat -> Env)
    ensures Handled(w, records, env, w, [])
  {
    assert records[..0] == [];
  }

  lemma OneMore(w: World, records: seq<Record>, env: nat -> Env, i: nat)
    requires i < |records|
    ensures var (before, outcomes) := HandleAll(w, records[..i], env);
            var (after, outcome) := HandleSpec(before, records[i], env(i));
            HandleAll(w, records[..i + 1], env) == (after, outcomes + [outcome])
  {
    assert records[..i + 1][..i] == records[..i];
  }

  lemma {:induction false} FailuresIgnoreTail(records: seq<Record>, outcomes: seq<Outcome>, outcome: Outcome)
    requires |records| <= |outcomes|
    ensures Failures(records, outcomes + [outcome]) == Failures(records, outcomes)
  {
    if records != [] {
      FailuresIgnoreTail(records[..|records| - 1], outcomes, outcome);
    }
  }

  lemma FailuresStep(records: seq<Record>, outcomes: seq<Outcome>, i: nat, outcome: Outcome)
    requires i == |outcomes| < |records|
    ensures Failures(records[..i + 1], outcomes + [outcome])
            == Failures(records[..i], outcomes) + (if Acknowledged(outcome) then [] else [records[i].messageId])
  {
    assert records[..i + 1][..i] == records[..i];
    FailuresIgnoreTail(records[..i], outcomes, outcome);
  }

  // ---- what an outcome means ------------------------------------------------------------------

  /** A record whose order the database evaluates is written exactly when nothing at its version or past it is stored,
    * a duplicate exactly of its own version, and stale exactly behind a higher one. */
  lemma EvaluatedOutcome(w: World, r: Record, e: Env)
    requires Decode(r.body).Ok? && !e.chaosFails && e.fate == Evaluate(true)
    ensures var o, outcome := Decode(r.body).value, HandleSpec(w, r, e).1;
            var stored := Find(w.erp.orders, o.orderId);
            && (outcome == Wrote(Written) <==> stored.None? || stored.value.version < o.version)
            && (outcome == Wrote(Duplicate) <==> stored.Some? && stored.value.version == o.version)
            && (outcome == Wrote(Stale) <==> stored.Some? && stored.value.version > o.version)
  {
    hide Decode, Deliver, Transact;
    var o := Decode(r.body).value;
    if !Accepts(w.erp, o) {
      RefusalMeans(w.erp, o, e.now, e.fate, e.others, e.readFails);
    }
  }

  /** A dead letter is the record's own body under its own name, with the reason it was given up for. */
  lemma ParkedLetter(w: World, r: Record, e: Env)
    requires HandleSpec(w, r, e).1 == DeadLettered
    ensures var dlq := HandleSpec(w, r, e).0.dlq;
            && dlq.issued == w.dlq.issued + 1 && Id(w.dlq.issued) in dlq.messages
            && var m := dlq.messages[Id(w.dlq.issued)];
               && m.body == r.body && m.sentAt == e.parkedAt && m.received == 0
               && (r.eventKey != "" ==> m.eventKey == r.eventKey)
               && (r.eventKey == "" && r.messageId != "" ==> m.eventKey == r.messageId)
               && (Decode(r.body).Err? && Decode(r.body).error.reason != "" ==> m.reason == Decode(r.body).error.reason)
               && (Decode(r.body).Ok? ==> m.reason == "erp_rejected")
               && m.eventKey != "" && m.reason != ""
  {
    hide Decode, WriteSpec;
  }

  // ---- what an acknowledgement means ---------------------------------------------------------

  /** A record is given up, parked or not, exactly when its data is bad: it cannot be mapped, or the database refused
    * it as invalid. Everything else that fails is retried. */
  lemma GivenUpExactly(w: World, r: Record, e: Env)
    requires Honest(e.fate)
    ensures var outcome := HandleSpec(w, r, e).1;
            outcome in {DeadLettered, DlqSendFailed} <==>
              || Decode(r.body).Err?
              || (!e.chaosFails && e.fate.Fail? && InvalidData(e.fate.err))
  {
    hide Decode, Deliver, Transact, Accepts, Judge, Sent, InvalidData, Erp.Classify;
    var d := Decode(r.body);
    if d.Ok? && !e.chaosFails {
      var (after, err) := Attempt(w.erp, d.value, e.now, e.fate);
      var final := Deliver(after, e.others);
      if err.Some? {
        RejectedExactly(err.value, d.value, Find(final.orders, d.value.orderId));
        if e.fate.Evaluate? {
          RefusalIsNotInvalid(w.erp, d.value, e.now, e.fate);
        }
      }
    }
  }

  /** A record is left for a retry exactly when it can be mapped and something transient happened: the injected
    * failure, a database error that is not about the data, or a refusal whose fallback read failed. */
  lemma RetriedExactly(w: World, r: Record, e: Env)
    requires Honest(e.fate)
    ensures HandleSpec(w, r, e).1 == Retry <==>
              && Decode(r.body).Ok?
              && var o := Decode(r.body).value;
                 || e.chaosFails
                 || (e.fate.Fail? && !InvalidData(e.fate.err))
                 || (e.fate == Evaluate(false) && !Accepts(w.erp, o) && e.readFails)
  {
    hide Decode, Deliver, Transact, Accepts, Sent, InvalidData, Erp.Classify;
    var d := Decode(r.body);
    if d.Ok? && !e.chaosFails {
      if e.fate.Fail? {
        FailureMeans(w.erp, d.value, e.now, e.fate, e.others, e.readFails);
      } else if !Accepts(w.erp, d.value) {
        RefusalMeans(w.erp, d.value, e.now, e.fate, e.others, e.readFails);
        if e.readFails && !e.fate.withItem {
          FailedReadIsTransient(w.erp, d.value, e.now, e.others);
        }
      }
    }
  }

  lemma FailedReadIsTransient(t: Tables, o: Order, now: string, others: seq<Delivery>)
    requires !Accepts(t, o)
    ensures WriteSpec(t, o, now, Evaluate(false), others, true).1 == Err(READ_FAILED)
  {
    hide Deliver, Transact;
  }

  lemma RefusalIsNotInvalid(t: Tables, o: Order, now: string, f: Fate)
    requires f.Evaluate? && !Accepts(t, o)
    ensures Attempt(t, o, now, f).1.Some? && !InvalidData(Attempt(t, o, now, f).1.value)
  {
  }

  /** A record that is safe to delete: its order is stored at its version or later, or a dead letter has its body. */
  ghost predicate SafeToDelete(w: World, body: Body) {
    || (Decode(body).Ok? && Stored(w.erp, Decode(body).value.orderId, Decode(body).value.version))
    || exists id :: id in w.dlq.messages && w.dlq.messages[id].body == body && w.dlq.messages[id].reason != ""
  }

  /** The world only gains: the ERP moves forward and no dead letter disappears. */
  ghost predicate Gains(a: World, b: World) {
    Later(a.erp, b.erp) && forall id :: id in a.dlq.messages ==> id in b.dlq.messages && b.dlq.messages[id] == a.dlq.messages[id]
  }

  lemma GainsKeepSafe(a: World, b: World, body: Body)
    requires Gains(a, b) && SafeToDelete(a, body)
    ensures SafeToDelete(b, body)
  {
    if exists id :: id in a.dlq.messages && a.dlq.messages[id].body == body && a.dlq.messages[id].reason != "" {
      var id :| id in a.dlq.messages && a.dlq.messages[id].body == body && a.dlq.messages[id].reason != "";
      assert id in b.dlq.messages;
    } else {
      StoredStays(a.erp, b.erp, Decode(body).value.orderId, Decode(body).value.version);
    }
  }

  lemma GainsCompose(a: World, b: World, c: World)
    requires Gains(a, b) && Gains(b, c)
    ensures Gains(a, c)
  {
    LaterComposes(a.erp, b.erp, c.erp);
  }

  lemma FailIsSafe(w: World, r: Record, f: Failure, e: Env)
    requires Sound(w.dlq)
    ensures var (after, outcome) := FailSpec(w, r, f, e);
            && Sound(after.dlq) && Gains(w, after)
            && (Acknowledged(outcome) ==> SafeToDelete(after, r.body))
            && outcome in {DeadLettered, DlqSendFailed, Retry}
            && (outcome == Retry <==> Outcomes.Classify(f).kind == Transient)
  {
    var (after, outcome) := FailSpec(w, r, f, e);
    DeliverIsLater(w.erp, []);
    SentIsFresh(w.dlq, Letter(r, Outcomes.Classify(f).reason, e.parkedAt));
    if outcome == DeadLettered {
      assert after.dlq.messages[Id(w.dlq.issued)] == Letter(r, Outcomes.Classify(f).reason, e.parkedAt);
    }
  }

  /** An acknowledged record is safe to delete, and handling it undoes nothing. */
  lemma HandleIsSafe(w: World, r: Record, e: Env)
    requires Sound(w.dlq) && Honest(e.fate)
    ensures var (after, outcome) := HandleSpec(w, r, e);
            Sound(after.dlq) && Gains(w, after) && (Acknowledged(outcome) ==> SafeToDelete(after, r.body))
  {
    var d := Decode(r.body);
    DeliverIsLater(w.erp, []);
    if d.Err? {
      FailIsSafe(w, r, Unmappable(d.error), e);
    } else if e.chaosFails {
      FailIsSafe(w, r, ErpFailed(Unavailable), e);
    } else {
      WriteIsSafe(w, r, d.value, e);
    }
  }

  lemma WriteIsSafe(w: World, r: Record, o: Order, e: Env)
    requires Sound(w.dlq) && Honest(e.fate) && Decode(r.body) == Ok(o) && !e.chaosFails
    ensures var (after, outcome) := HandleSpec(w, r, e);
            Sound(after.dlq) && Gains(w, after) && (Acknowledged(outcome) ==> SafeToDelete(after, r.body))
  {
    var (erp, result) := WriteSpec(w.erp, o, e.now, e.fate, e.others, e.readFails);
    RaceSafe(w.erp, o, e.now, e.fate, e.others, e.readFails);
    var mid := w.(erp := erp);
    if result.Err? {
      FailIsSafe(mid, r, ErpFailed(result.error), e);
      GainsCompose(w, mid, HandleSpec(w, r, e).0);
    }
  }

  /** Every acknowledged record of a batch is safe to delete. */
  ghost predicate AllSafe(w: World, records: seq<Record>, outcomes: seq<Outcome>) {
    |outcomes| <= |records|
    && forall i :: 0 <= i < |outcomes| && Acknowledged(outcomes[i]) ==> SafeToDelete(w, records[i].body)
  }

  lemma AllSafeMore(a: World, b: World, records: seq<Record>, outcomes: seq<Outcome>, r: Record, outcome: Outcome)
    requires Gains(a, b) && AllSafe(a, records, outcomes) && |outcomes| == |records|
    requires Acknowledged(outcome) ==> SafeToDelete(b, r.body)
    ensures AllSafe(b, records + [r], outcomes + [outcome])
  {
    forall i | 0 <= i < |outcomes| && Acknowledged(outcomes[i]) ensures SafeToDelete(b, records[i].body) {
      GainsKeepSafe(a, b, records[i].body);
    }
  }

  lemma ReflexiveGains(w: World)
    ensures Gains(w, w)
  {
    DeliverIsLater(w.erp, []);
  }

  /** The same at the end of the batch, for every record that was acknowledged. */
  lemma {:induction false} BatchIsSafe(w: World, records: seq<Record>, env: nat -> Env)
    requires Sound(w.dlq) && forall i: nat :: Honest(env(i).fate)
    ensures var (after, outcomes) := HandleAll(w, records, env);
            |outcomes| == |records| && Sound(after.dlq) && Gains(w, after) && AllSafe(after, records, outcomes)
  {
    ReflexiveGains(w);
    if records != [] {
      var n := |records| - 1;
      BatchIsSafe(w, records[..n], env);
      var (before, outcomes) := HandleAll(w, records[..n], env);
      HandleIsSafe(before, records[n], env(n));
      var (after, outcome) := HandleSpec(before, records[n], env(n));
      GainsCompose(w, before, after);
      AllSafeMore(before, after, records[..n], outcomes, records[n], outcome);
      assert records[..n] + [records[n]] == records;
      assert HandleAll(w, records, env) == (after, outcomes + [outcome]);
    }
  }

  /** The response is exact: a record is missing from it exactly when it was acknowledged. */
  lemma {:induction false} FailuresExact(records: seq<Record>, outcomes: seq<Outcome>)
    requires forall i, j :: 0 <= i < j < |records| ==> records[i].messageId != records[j].messageId
    ensures forall i :: 0 <= i < |records| ==>
              (records[i].messageId in Failures(records, outcomes) <==> !(i < |outcomes| && Acknowledged(outcomes[i])))
    ensures forall id :: id in Failures(records, outcomes) ==> exists i :: 0 <= i < |records| && records[i].messageId == id
  {
    if records != [] {
      var n := |records| - 1;
      var init := records[..n];
      FailuresExact(init, outcomes);
      forall i | 0 <= i < |records|
        ensures records[i].messageId in Failures(records, outcomes) <==> !(i < |outcomes| && Acknowledged(outcomes[i]))
      {
        if i < n {
          assert init[i] == records[i];
        } else {
          assert forall k :: 0 <= k < |init| ==> init[k].messageId != records[n].messageId;
        }
      }
      forall id | id in Failures(records, outcomes)
        ensures exists i :: 0 <= i < |records| && records[i].messageId == id
      {
        if id in Failures(init, outcomes) {
          var i :| 0 <= i < |init| && init[i].messageId == id;
          assert records[i].messageId == id;
        } else {
          assert records[n].messageId == id;
        }
      }
    }
  }
}
