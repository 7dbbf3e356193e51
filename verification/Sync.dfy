/** The whole pipeline as one step machine: every interleaving of edits, polls, deliveries, crashes, lost
  * acknowledgements, redrives and reconciliations is a sequence of these actions. An action that is not possible
  * in a state changes nothing, so every sequence of actions is a run. */
module Sync {
  import opened Prelude
  import opened Calendar
  import opened Events
  import opened Mapping
  import opened Erp
  import opened Outcomes
  import opened Org
  import Publisher
  import Poller
  import Reconcile

  /** `start` is where the first poll begins; `skew` is how far the reconciler's own clock may run ahead of
    * Salesforce's. */
  datatype Config = Config(lag: int, start: int, skew: int)

  const MAX_RECEIVES := 5
  const BATCH := 10

  /** A queued message; `reason` is set when the worker parked it. */
  datatype Msg = Msg(event: Event, reason: Option<string>, received: nat, visible: bool)

  /** One poll between its service calls. */
  datatype Run =
    | HasMark(from: int)
    | HasClock(from: int, upper: int)
    | HasRows(from: int, upper: int, rows: seq<SfRow>)
    | HasSent(next: int)

  datatype Phase = Ready | Reading | Parking(reason: string)

  /** One worker invocation: its batch, the record it is at, and the records it will acknowledge. */
  datatype Job = Job(batch: seq<(nat, Event)>, at: nat, phase: Phase, acked: set<nat>)

  /** One operator's redrive; `sent` is set between the copy and the delete of the message it is at. */
  datatype Redrive = Redrive(all: bool, todo: seq<(nat, Msg)>, at: nat, sent: bool)

  /** One reconciliation after it read the won deals: its clock, how recent a deal it leaves alone, and the order
    * versions it has scanned so far. */
  datatype Rec = Rec(now: int, grace: int, rows: seq<SfRow>, versions: map<string, int>)

  /** `marks` and `published` are history: every watermark ever written and every event ever put on the queue. */
  datatype Sys = Sys(
    org: Org,
    mark: Option<int>,
    marks: set<int>,
    runs: map<nat, Run>,
    main: map<nat, Msg>,
    dlq: map<nat, Msg>,
    next: nat,
    jobs: map<nat, Job>,
    redrives: map<nat, Redrive>,
    recs: map<nat, Rec>,
    erp: Tables,
    published: set<Event>)

  datatype Action =
    | Salesforce(step: OrgStep)
    | PollMark(run: nat)
    | PollClock(run: nat)
    | PollQuery(run: nat, rows: seq<SfRow>)
    | PollSend(run: nat, now: int, sent: nat, stored: seq<Event>)
    | PollStore(run: nat, stores: bool)
    | PollStop(run: nat)
    | Receive(job: nat, ids: seq<nat>)
    | Expire(id: nat)
    | Exhaust(id: nat)
    | Write(job: nat, writtenAt: string, fate: Fate)
    | ReadBack(job: nat, works: bool)
    | Park(job: nat, works: bool)
    | HandBack(job: nat)
    | Crash(job: nat)
    | Acknowledge(job: nat, id: nat)
    | Peek(redrive: nat, all: bool, ids: seq<nat>)
    | Skip(redrive: nat)
    | Copy(redrive: nat)
    | Drop(redrive: nat, works: bool)
    | StopRedrive(redrive: nat)
    | ReadDeals(rec: nat, now: int, grace: int, rows: seq<SfRow>)
    | Scan(rec: nat, page: set<string>)
    | Enqueue(rec: nat, stored: seq<Event>)
    | StopRec(rec: nat)

  function Init(clock: int, accounts: map<string, string>): Sys {
    Sys(NewOrg(clock, accounts), None, {}, map[], map[], map[], 0, map[], map[], map[], EMPTY, {})
  }

  function Mark(c: Config, s: Sys): int {
    if s.mark.Some? then s.mark.value else c.start
  }

  /** Fresh messages for events the queue stored. */
  function Put(main: map<nat, Msg>, next: nat, evs: seq<Event>): map<nat, Msg> {
    if evs == [] then main
    else Put(main, next, evs[..|evs| - 1])[next + |evs| - 1 := Msg(evs[|evs| - 1], None, 0, true)]
  }

  function Publish(s: Sys, evs: seq<Event>): Sys {
    s.(main := Put(s.main, s.next, evs), next := s.next + |evs|, published := s.published + (set e | e in evs))
  }

  /** Only the queues and those who move messages between them changed. */
  predicate OnlyQueues(s: Sys, t: Sys) {
    t == s.(main := t.main, dlq := t.dlq, next := t.next, jobs := t.jobs, redrives := t.redrives)
  }

  /** Salesforce, the pollers, the reconciliations and the history are as they were. */
  predicate LeavesReaders(s: Sys, t: Sys) {
    && t.org == s.org && t.mark == s.mark && t.marks == s.marks && t.runs == s.runs && t.recs == s.recs
    && t.published == s.published
  }

  // ---- polling ----------------------------------------------------------------------

  /** A poll reads Salesforce and writes the queue and the watermark. */
  ghost function DoPoll(c: Config, s: Sys, a: Action): (t: Sys)
    ensures t.erp == s.erp && t.org == s.org && t.recs == s.recs && s.published <= t.published && s.marks <= t.marks
  {
    match a
    case PollMark(run) =>
      if run in s.runs then s else s.(runs := s.runs[run := HasMark(Mark(c, s))])
    case PollClock(run) =>
      if run !in s.runs || !s.runs[run].HasMark? then s
      else
        var from, upper := s.runs[run].from, Poller.Upper(Truncate(s.org.clock), c.lag);
        if upper <= from then s.(runs := s.runs - {run}) else s.(runs := s.runs[run := HasClock(from, upper)])
    case PollQuery(run, rows) =>
      if run !in s.runs || !s.runs[run].HasClock? then s
      else
        var from, upper := s.runs[run].from, s.runs[run].upper;
        if !Poller.IsAnswer(Won(s.org), from, upper, rows) then s
        else s.(runs := s.runs[run := HasRows(from, upper, rows)])
    case PollSend(run, now, sent, stored) =>
      if run !in s.runs || !s.runs[run].HasRows? then s
      else
        var from, upper, rows := s.runs[run].from, s.runs[run].upper, s.runs[run].rows;
        if !Publisher.SafePrefix(Poller.Package(rows, now), sent, stored) then s
        else
          var mark := Poller.NextMark(from, upper, rows, sent);
          Publish(s, stored).(runs := if mark.Some? then s.runs[run := HasSent(mark.value)] else s.runs - {run})
    case PollStore(run, stores) =>
      if run !in s.runs || !s.runs[run].HasSent? then s
      else if !stores then s.(runs := s.runs - {run})
      else
        var mark := Truncate(s.runs[run].next);
        s.(runs := s.runs - {run}, mark := Some(mark), marks := s.marks + {mark})
    case PollStop(run) => s.(runs := s.runs - {run})
    case _ => s
  }

  // ---- the worker -------------------------------------------------------------------

  predicate Receivable(s: Sys, ids: seq<nat>) {
    0 < |ids| <= BATCH
    && forall i :: 0 <= i < |ids| ==> ids[i] in s.main && s.main[ids[i]].visible && s.main[ids[i]].received < MAX_RECEIVES
  }

  function Hand(main: map<nat, Msg>, ids: seq<nat>): map<nat, Msg> {
    map id | id in main ::
      if id in ids then main[id].(received := main[id].received + 1, visible := false) else main[id]
  }

  function DoReceive(s: Sys, job: nat, ids: seq<nat>): (t: Sys)
    ensures OnlyQueues(s, t)
  {
    if job in s.jobs || !Receivable(s, ids) then s
    else
      var batch := seq(|ids|, i requires 0 <= i < |ids| => (ids[i], s.main[ids[i]].event));
      s.(main := Hand(s.main, ids), jobs := s.jobs[job := Job(batch, 0, Ready, {})])
  }

  /** The sixth receive moves a message to the dead-letter queue instead. */
  function DoExhaust(s: Sys, id: nat): (t: Sys)
    ensures OnlyQueues(s, t)
  {
    if id in s.main && s.main[id].visible && s.main[id].received >= MAX_RECEIVES then
      s.(main := s.main - {id}, dlq := s.dlq[id := s.main[id]])
    else s
  }

  predicate At(s: Sys, job: nat, phase: Phase) {
    job in s.jobs && s.jobs[job].at < |s.jobs[job].batch| && s.jobs[job].phase == phase
  }

  /** The record a job is at. */
  function Current(s: Sys, job: nat): (nat, Event)
    requires job in s.jobs && s.jobs[job].at < |s.jobs[job].batch|
  {
    s.jobs[job].batch[s.jobs[job].at]
  }

  function Advance(j: Job, acked: set<nat>): Job {
    Job(j.batch, j.at + 1, Ready, j.acked + acked)
  }

  /** Go on after an ERP answer: acknowledge, park, or leave for a retry. */
  function Settle(s: Sys, job: nat, r: Result<WriteResult, ErpError>): (t: Sys)
    requires job in s.jobs && s.jobs[job].at < |s.jobs[job].batch|
    ensures OnlyQueues(s, t)
  {
    var j := s.jobs[job];
    match r
    case Ok(_) => s.(jobs := s.jobs[job := Advance(j, {Current(s, job).0})])
    case Err(e) =>
      if Outcomes.Classify(ErpFailed(e)).kind == Permanent then
        s.(jobs := s.jobs[job := j.(phase := Parking(Outcomes.Classify(ErpFailed(e)).reason))])
      else s.(jobs := s.jobs[job := Advance(j, {})])
  }

  function DoAttempt(s: Sys, job: nat, o: Order, now: string, fate: Fate): (t: Sys)
    requires At(s, job, Ready)
    ensures LeavesReaders(s, t) && t.erp == Attempt(s.erp, o, now, fate).0
  {
    var (erp, err) := Attempt(s.erp, o, now, fate);
    if err.None? then Settle(s.(erp := erp), job, Ok(Written))
    else if NeedsRead(err.value) then s.(erp := erp, jobs := s.jobs[job := s.jobs[job].(phase := Reading)])
    else Settle(s.(erp := erp), job, Erp.Classify(err.value, o, None))
  }

  function DoWrite(s: Sys, job: nat, now: string, fate: Fate): (t: Sys)
    ensures LeavesReaders(s, t)
  {
    if !At(s, job, Ready) || !Honest(fate) then s
    else
      match Decode(Wire(Current(s, job).1))
      case Err(e) => s.(jobs := s.jobs[job := s.jobs[job].(phase := Parking(e.reason))])
      case Ok(o) => DoAttempt(s, job, o, now, fate)
  }

  /** The fallback read, at any later moment. One that fails leaves the record for a retry. */
  function DoReadBack(s: Sys, job: nat, works: bool): (t: Sys)
    ensures OnlyQueues(s, t)
  {
    if !At(s, job, Reading) then s
    else if !works then Settle(s, job, Err(READ_FAILED))
    else
      match Decode(Wire(Current(s, job).1))
      case Err(_) => s
      case Ok(o) => Settle(s, job, Judge(Find(s.erp.orders, o.orderId), o))
  }

  /** Send the current record to the dead-letter queue; acknowledge it only if that works. */
  function DoPark(s: Sys, job: nat, works: bool): (t: Sys)
    ensures OnlyQueues(s, t)
  {
    if !(job in s.jobs && s.jobs[job].at < |s.jobs[job].batch| && s.jobs[job].phase.Parking?) then s
    else
      var (id, e) := Current(s, job);
      if !works then s.(jobs := s.jobs[job := Advance(s.jobs[job], {})])
      else s.(dlq := s.dlq[s.next := Msg(e, Some(s.jobs[job].phase.reason), 0, true)],
              next := s.next + 1,
              jobs := s.jobs[job := Advance(s.jobs[job], {id})])
  }

  /** Near its time limit a job hands the rest of its batch back. */
  function DoHandBack(s: Sys, job: nat): (t: Sys)
    ensures OnlyQueues(s, t)
  {
    if !At(s, job, Ready) then s else s.(jobs := s.jobs[job := s.jobs[job].(at := |s.jobs[job].batch|)])
  }

  /** Delete one acknowledged record. This only happens after the whole batch was answered for. */
  function DoAcknowledge(s: Sys, job: nat, id: nat): (t: Sys)
    ensures OnlyQueues(s, t)
  {
    if job in s.jobs && s.jobs[job].at == |s.jobs[job].batch| && id in s.jobs[job].acked then s.(main := s.main - {id}) else s
  }

  /** Only the worker touches the ERP. */
  function DoWork(s: Sys, a: Action): (t: Sys)
    ensures LeavesReaders(s, t) && (!a.Write? ==> t.erp == s.erp)
  {
    match a
    case Receive(job, ids) => DoReceive(s, job, ids)
    case Expire(id) => if id in s.main then s.(main := s.main[id := s.main[id].(visible := true)]) else s
    case Exhaust(id) => DoExhaust(s, id)
    case Write(job, now, fate) => DoWrite(s, job, now, fate)
    case ReadBack(job, works) => DoReadBack(s, job, works)
    case Park(job, works) => DoPark(s, job, works)
    case HandBack(job) => DoHandBack(s, job)
    case Crash(job) => s.(jobs := s.jobs - {job})
    case Acknowledge(job, id) => DoAcknowledge(s, job, id)
    case _ => s
  }

  // ---- operators and the reconciler ---------------------------------------------------

  predicate OnMessage(s: Sys, r: nat) {
    r in s.redrives && s.redrives[r].at < |s.redrives[r].todo|
  }

  function DoRedrive(s: Sys, a: Action): (t: Sys)
    ensures OnlyQueues(s, t)
  {
    match a
    case Peek(r, all, ids) =>
      if r in s.redrives || exists i :: 0 <= i < |ids| && ids[i] !in s.dlq then s
      else
        var todo := seq(|ids|, i requires 0 <= i < |ids| => (ids[i], s.dlq[ids[i]]));
        s.(redrives := s.redrives[r := Redrive(all, todo, 0, false)])
    case Skip(r) =>
      if OnMessage(s, r) && !s.redrives[r].sent then
        s.(redrives := s.redrives[r := s.redrives[r].(at := s.redrives[r].at + 1)])
      else s
    case Copy(r) =>
      if !OnMessage(s, r) || s.redrives[r].sent then s
      else
        var m := s.redrives[r].todo[s.redrives[r].at].1;
        if m.reason.Some? && !s.redrives[r].all then s
        else s.(main := s.main[s.next := Msg(m.event, None, 0, true)],
                next := s.next + 1,
                redrives := s.redrives[r := s.redrives[r].(sent := true)])
    case Drop(r, works) =>
      if !OnMessage(s, r) || !s.redrives[r].sent then s
      else if !works then s.(redrives := s.redrives - {r})
      else s.(dlq := s.dlq - {s.redrives[r].todo[s.redrives[r].at].0},
              redrives := s.redrives[r := s.redrives[r].(at := s.redrives[r].at + 1, sent := false)])
    case StopRedrive(r) => s.(redrives := s.redrives - {r})
    case _ => s
  }

  /** The order versions one page of a scan returns. */
  function Page(t: Tables, ids: set<string>): map<string, int> {
    map id | id in ids && id in t.orders :: t.orders[id].version
  }

  /** What the comparison of a reconciliation asks to enqueue. */
  function Wanted(r: Rec): seq<Event> {
    Reconcile.EnqueuedAmong(r.rows, r.versions, r.now, r.grace)
  }

  /** The reconciler reads its clock, then the won deals, then the orders page by page, and enqueues in several
    * requests, each of which may store any of its entries. */
  ghost function DoReconcile(c: Config, s: Sys, a: Action): (t: Sys)
    ensures t.erp == s.erp && t.org == s.org && t.mark == s.mark && t.marks == s.marks && t.runs == s.runs
    ensures s.published <= t.published
  {
    match a
    case ReadDeals(k, now, grace, rows) =>
      if k in s.recs || now > s.org.clock + c.skew || !Poller.InOrder(rows) || (exists x :: x in rows && x !in Won(s.org))
      then s
      else s.(recs := s.recs[k := Rec(now, grace, rows, map[])])
    case Scan(k, page) =>
      if k !in s.recs then s
      else s.(recs := s.recs[k := s.recs[k].(versions := s.recs[k].versions + Page(s.erp, page))])
    case Enqueue(k, stored) =>
      if k !in s.recs then s
      else
        var wanted := Wanted(s.recs[k]);
        if exists e :: e in stored && e !in wanted then s else Publish(s, stored)
    case StopRec(k) => s.(recs := s.recs - {k})
    case _ => s
  }

  // ---- runs ---------------------------------------------------------------------------

  ghost function Do(c: Config, s: Sys, a: Action): Sys {
    if a.Salesforce? then s.(org := OrgDo(s.org, c.lag, a.step))
    else if a.PollMark? || a.PollClock? || a.PollQuery? || a.PollSend? || a.PollStore? || a.PollStop? then DoPoll(c, s, a)
    else if a.Peek? || a.Skip? || a.Copy? || a.Drop? || a.StopRedrive? then DoRedrive(s, a)
    else if a.ReadDeals? || a.Scan? || a.Enqueue? || a.StopRec? then DoReconcile(c, s, a)
    else DoWork(s, a)
  }

  /** The state after a run from an empty system, over an org that already has some accounts. */
  ghost function After(c: Config, clock: int, accounts: map<string, string>, run: seq<Action>): Sys {
    if run == [] then Init(clock, accounts)
    else Do(c, After(c, clock, accounts, run[..|run| - 1]), run[|run| - 1])
  }
}
