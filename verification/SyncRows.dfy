/** What holds of every won row holds of every row that was read or published: no step makes rows up. */
module SyncRows {
  import opened Events
  import opened Org
  import opened Sync
  import opened SyncPolls
  import Publisher
  import Poller
  import Reconcile

  ghost predicate AllRows(rows: seq<SfRow>, p: SfRow -> bool) {
    forall x :: x in rows ==> p(x)
  }

  /** What a reconciliation has read counts once it is old enough to be compared. */
  ghost predicate RecRows(r: Rec, p: SfRow -> bool) {
    forall x :: x in r.rows && Reconcile.Checked(x, r.now, r.grace) ==> p(x)
  }

  ghost predicate EventRows(evs: set<Event>, p: SfRow -> bool) {
    forall e :: e in evs ==> p(e.row)
  }

  /** Every row that was published, or that a poll or a reconciliation holds and may yet publish. */
  ghost predicate RowsAre(s: Sys, p: SfRow -> bool) {
    && EventRows(s.published, p)
    && (forall k :: k in s.runs && s.runs[k].HasRows? ==> AllRows(s.runs[k].rows, p))
    && (forall k :: k in s.recs ==> RecRows(s.recs[k], p))
  }

  lemma RowsWeaken(s: Sys, t: Sys, p: SfRow -> bool, q: SfRow -> bool)
    requires RowsAre(s, p) && forall x :: p(x) ==> q(x)
    requires t.published == s.published && t.runs == s.runs && t.recs == s.recs
    ensures RowsAre(t, q)
  {
    forall k | k in s.runs && s.runs[k].HasRows? ensures AllRows(s.runs[k].rows, q) {
      assert AllRows(s.runs[k].rows, p);
    }
    forall k | k in s.recs ensures RecRows(s.recs[k], q) {
      assert RecRows(s.recs[k], p);
    }
  }

  lemma PublishKeepsRows(s: Sys, evs: seq<Event>, p: SfRow -> bool)
    requires RowsAre(s, p) && forall e :: e in evs ==> p(e.row)
    ensures RowsAre(Publish(s, evs), p)
  {
    hide AllRows, RecRows, Put;
  }

  lemma SentRowsAre(rows: seq<SfRow>, now: int, sent: nat, stored: seq<Event>, p: SfRow -> bool)
    requires AllRows(rows, p) && Publisher.SafePrefix(Poller.Package(rows, now), sent, stored)
    ensures forall e :: e in stored ==> p(e.row)
  {
    var evs := Poller.Package(rows, now);
    forall e | e in stored ensures p(e.row) {
      var i :| 0 <= i < |stored| && stored[i] == e;
      if i < sent {
        assert evs[..sent][i] == e;
        assert e == evs[i] && e.row == rows[i];
      } else {
        assert stored[sent..][i - sent] == e && e in evs[sent..];
        var j :| 0 <= j < |evs[sent..]| && evs[sent..][j] == e;
        assert e.row == rows[sent + j];
      }
    }
  }

  lemma AnswerIsWon(won: set<SfRow>, from: int, upper: int, rows: seq<SfRow>)
    requires Poller.IsAnswer(won, from, upper, rows)
    ensures forall x :: x in rows ==> x in won
  {
  }

  lemma QueryKeepsRows(c: Config, s: Sys, run: nat, rows: seq<SfRow>, p: SfRow -> bool)
    requires RowsAre(s, p) && forall x :: x in Won(s.org) ==> p(x)
    ensures RowsAre(DoPoll(c, s, PollQuery(run, rows)), p)
  {
    hide RecRows, EventRows, Poller.IsAnswer, Won;
    var t := DoPoll(c, s, PollQuery(run, rows));
    if t != s {
      AnswerIsWon(Won(s.org), s.runs[run].from, s.runs[run].upper, rows);
      assert AllRows(rows, p);
    }
  }

  lemma SendKeepsRows(c: Config, s: Sys, run: nat, now: int, sent: nat, stored: seq<Event>, p: SfRow -> bool)
    requires RowsAre(s, p)
    ensures RowsAre(DoPoll(c, s, PollSend(run, now, sent, stored)), p)
  {
    hide AllRows, RecRows, EventRows, Publisher.SafePrefix, Poller.NextMark, Put;
    var t := DoPoll(c, s, PollSend(run, now, sent, stored));
    if t != s {
      SentRowsAre(s.runs[run].rows, now, sent, stored, p);
      PublishKeepsRows(s, stored, p);
      FewerRuns(Publish(s, stored), t, run, p);
    }
  }

  /** A poll that reads and publishes nothing. */
  lemma FewerRuns(s: Sys, t: Sys, run: nat, p: SfRow -> bool)
    requires RowsAre(s, p) && t == s.(runs := t.runs, mark := t.mark, marks := t.marks)
    requires forall k :: k in t.runs && k != run ==> k in s.runs && t.runs[k] == s.runs[k]
    requires run in t.runs && t.runs[run].HasRows? ==> run in s.runs && t.runs[run] == s.runs[run]
    ensures RowsAre(t, p)
  {
    hide AllRows, RecRows, EventRows;
  }

  lemma StoreKeepsRows(c: Config, s: Sys, run: nat, stores: bool, p: SfRow -> bool)
    requires RowsAre(s, p)
    ensures RowsAre(DoPoll(c, s, PollStore(run, stores)), p)
  {
    hide RowsAre;
    FewerRuns(s, DoPoll(c, s, PollStore(run, stores)), run, p);
  }

  lemma MarkKeepsRows(c: Config, s: Sys, run: nat, p: SfRow -> bool)
    requires RowsAre(s, p)
    ensures RowsAre(DoPoll(c, s, PollMark(run)), p) && RowsAre(DoPoll(c, s, PollStop(run)), p)
  {
    hide RowsAre;
    FewerRuns(s, DoPoll(c, s, PollMark(run)), run, p);
    FewerRuns(s, DoPoll(c, s, PollStop(run)), run, p);
  }

  lemma ClockKeepsRows(c: Config, s: Sys, run: nat, p: SfRow -> bool)
    requires RowsAre(s, p)
    ensures RowsAre(DoPoll(c, s, PollClock(run)), p)
  {
    hide RowsAre, DoPoll;
    ClockMoves(c, s, run);
    FewerRuns(s, DoPoll(c, s, PollClock(run)), run, p);
  }

  lemma PollKeepsRows(c: Config, s: Sys, a: Action, p: SfRow -> bool)
    requires RowsAre(s, p) && forall x :: x in Won(s.org) ==> p(x)
    ensures RowsAre(DoPoll(c, s, a), p)
  {
    hide RowsAre, DoPoll, Won;
    match a {
      case PollMark(run) => MarkKeepsRows(c, s, run, p);
      case PollClock(run) => ClockKeepsRows(c, s, run, p);
      case PollQuery(run, rows) => QueryKeepsRows(c, s, run, rows, p);
      case PollSend(run, now, sent, stored) => SendKeepsRows(c, s, run, now, sent, stored, p);
      case PollStore(run, stores) => StoreKeepsRows(c, s, run, stores, p);
      case PollStop(run) => MarkKeepsRows(c, s, run, p);
      case _ => OthersDoNotPoll(c, s, a);
    }
  }

  lemma WantedRowsAre(r: Rec, stored: seq<Event>, p: SfRow -> bool)
    requires RecRows(r, p) && forall e :: e in stored ==> e in Wanted(r)
    ensures forall e :: e in stored ==> p(e.row)
  {
    Reconcile.EnqueuedExactly(r.rows, r.versions, r.now, r.grace);
  }

  lemma ReconcileKeepsRows(c: Config, s: Sys, a: Action, p: SfRow -> bool)
    requires RowsAre(s, p) && forall x :: x in Won(s.org) ==> p(x)
    ensures RowsAre(DoReconcile(c, s, a), p)
  {
    hide AllRows, Won, Wanted, Poller.InOrder, Put;
    var t := DoReconcile(c, s, a);
    if t != s {
      match a {
        case ReadDeals(k, now, grace, rows) =>
        case Scan(k, page) => assert RecRows(s.recs[k], p);
        case Enqueue(k, stored) =>
          WantedRowsAre(s.recs[k], stored, p);
          PublishKeepsRows(s, stored, p);
        case _ =>
      }
    }
  }

  /** Only Salesforce changes what its rows show. */
  lemma StepKeepsRows(c: Config, s: Sys, a: Action, p: SfRow -> bool)
    requires RowsAre(s, p) && !a.Salesforce? && forall x :: x in Won(s.org) ==> p(x)
    ensures RowsAre(Do(c, s, a), p)
  {
    hide RowsAre, DoWork, DoRedrive, DoPoll, DoReconcile, Won;
    PollKeepsRows(c, s, a, p);
    ReconcileKeepsRows(c, s, a, p);
    SameRowsStay(s, DoWork(s, a), p);
    SameRowsStay(s, DoRedrive(s, a), p);
  }

  lemma SameRowsStay(s: Sys, t: Sys, p: SfRow -> bool)
    requires RowsAre(s, p) && t.published == s.published && t.runs == s.runs && t.recs == s.recs
    ensures RowsAre(t, p)
  {
    RowsWeaken(s, t, p, p);
  }
}
