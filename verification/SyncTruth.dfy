/** Every published event shows what its deal really held at its stamp. */
module SyncTruth {
  import opened Prelude
  import opened Calendar
  import opened Events
  import opened Org
  import opened Sync
  import opened SyncPolls
  import Publisher
  import Poller
  import Reconcile

  /** With this grace the reconciler leaves a deal alone until its second is settled, even by a clock that runs
    * ahead. */
  predicate Patient(c: Config, grace: int) {
    grace >= c.lag + SECOND + c.skew
  }

  ghost predicate AllPatient(c: Config, s: Sys) {
    forall k :: k in s.recs ==> Patient(c, s.recs[k].grace)
  }

  /** The row shows the account's name as fixed in `accounts`. */
  predicate Named(accounts: map<string, string>, x: SfRow) {
    x.accountName == (if x.accountId.Some? && x.accountId.value in accounts then Some(accounts[x.accountId.value]) else None)
  }

  /** Genuine, and, in a run that renames no account, with the account's one name. */
  predicate Faithful(c: Config, s: Sys, names: Option<map<string, string>>, x: SfRow) {
    Genuine(s.org, c.lag, x) && (names.Some? ==> Named(names.value, x))
  }

  ghost predicate AllFaithful(c: Config, s: Sys, names: Option<map<string, string>>, rows: seq<SfRow>) {
    forall x :: x in rows ==> Faithful(c, s, names, x)
  }

  /** What a reconciliation will enqueue, if it is patient, is settled. */
  ghost predicate RecInv(c: Config, s: Sys, names: Option<map<string, string>>, r: Rec) {
    Patient(c, r.grace) ==> forall x :: x in r.rows && Reconcile.Checked(x, r.now, r.grace) ==> Faithful(c, s, names, x)
  }

  ghost predicate TruthInv(c: Config, s: Sys, names: Option<map<string, string>>) {
    && (names.Some? ==> s.org.accounts == names.value)
    && (forall e :: e in s.published ==> Faithful(c, s, names, e.row))
    && (forall k :: k in s.runs && s.runs[k].HasRows? ==> AllFaithful(c, s, names, s.runs[k].rows))
    && (forall k :: k in s.recs ==> RecInv(c, s, names, s.recs[k]))
  }

  lemma OrgStepKeepsTruth(c: Config, s: Sys, names: Option<map<string, string>>, step: OrgStep)
    requires OrgInv(s.org) && TruthInv(c, s, names)
    requires names.Some? ==> !step.Rename?
    ensures TruthInv(c, s.(org := OrgDo(s.org, c.lag, step)), names)
  {
    var t := s.(org := OrgDo(s.org, c.lag, step));
    forall x | Faithful(c, s, names, x) ensures Faithful(c, t, names, x) {
      GenuineStays(s.org, c.lag, step, x);
    }
    forall k | k in t.runs && t.runs[k].HasRows? ensures AllFaithful(c, t, names, t.runs[k].rows) {
      assert AllFaithful(c, s, names, s.runs[k].rows);
    }
    forall k | k in t.recs ensures RecInv(c, t, names, t.recs[k]) {
      assert RecInv(c, s, names, s.recs[k]);
    }
  }

  lemma QueriedIsFaithful(c: Config, s: Sys, names: Option<map<string, string>>, from: int, upper: int, rows: seq<SfRow>)
    requires OrgInv(s.org) && WindowInv(c, s, from, upper) && Poller.IsAnswer(Won(s.org), from, upper, rows)
    requires names.Some? ==> s.org.accounts == names.value
    ensures AllFaithful(c, s, names, rows)
  {
    assert Truncate(upper) == upper;
    forall x | x in rows ensures Faithful(c, s, names, x) {
      ViewIsSeen(s.org, x);
      assert x.stamp + SECOND <= upper;
    }
  }

  lemma ReadIsFaithful(c: Config, s: Sys, names: Option<map<string, string>>, now: int, grace: int, rows: seq<SfRow>)
    requires OrgInv(s.org) && now <= s.org.clock + c.skew && forall x :: x in rows ==> x in Won(s.org)
    requires names.Some? ==> s.org.accounts == names.value
    ensures RecInv(c, s, names, Rec(now, grace, rows, map[]))
  {
    if Patient(c, grace) {
      forall x | x in rows && Reconcile.Checked(x, now, grace) ensures Faithful(c, s, names, x) {
        ViewIsSeen(s.org, x);
      }
    }
  }

  lemma SentIsFaithful(c: Config, s: Sys, names: Option<map<string, string>>, rows: seq<SfRow>, now: int, sent: nat,
                       stored: seq<Event>)
    requires AllFaithful(c, s, names, rows) && Publisher.SafePrefix(Poller.Package(rows, now), sent, stored)
    ensures forall e :: e in stored ==> Faithful(c, s, names, e.row)
  {
    var evs := Poller.Package(rows, now);
    forall e | e in stored ensures Faithful(c, s, names, e.row) {
      var i :| 0 <= i < |stored| && stored[i] == e;
      if i < sent {
        assert evs[..sent][i] == e;
        assert evs[i] == Event(rows[i], now);
      } else {
        assert stored[sent..][i - sent] == e;
        assert e in evs[sent..];
        var j :| 0 <= j < |evs[sent..]| && evs[sent..][j] == e;
        assert e.row == rows[sent + j];
      }
    }
  }

  /** A poll that takes one more step, and changes at most its own entry. */
  lemma RunMovesTruly(c: Config, s: Sys, names: Option<map<string, string>>, t: Sys, run: nat)
    requires TruthInv(c, s, names) && t.org == s.org && t.recs == s.recs
    requires forall k :: k in t.runs && k != run ==> k in s.runs && t.runs[k] == s.runs[k]
    requires run in t.runs && t.runs[run].HasRows? ==> AllFaithful(c, s, names, t.runs[run].rows)
    requires forall e :: e in t.published ==> e in s.published || Faithful(c, s, names, e.row)
    ensures TruthInv(c, t, names)
  {
    forall k | k in t.runs && t.runs[k].HasRows? ensures AllFaithful(c, t, names, t.runs[k].rows) {
      if k != run {
        assert AllFaithful(c, s, names, s.runs[k].rows);
      }
    }
    forall k | k in t.recs ensures RecInv(c, t, names, t.recs[k]) {
      assert RecInv(c, s, names, s.recs[k]);
    }
  }

  lemma QueryKeepsTruth(c: Config, s: Sys, names: Option<map<string, string>>, run: nat, rows: seq<SfRow>)
    requires CoverInv(c, s) && TruthInv(c, s, names)
    ensures TruthInv(c, DoPoll(c, s, PollQuery(run, rows)), names)
  {
    var t := DoPoll(c, s, PollQuery(run, rows));
    if t != s {
      assert RunInv(c, s, s.runs[run]);
      QueriedIsFaithful(c, s, names, s.runs[run].from, s.runs[run].upper, rows);
      RunMovesTruly(c, s, names, t, run);
    }
  }

  lemma SendKeepsTruth(c: Config, s: Sys, names: Option<map<string, string>>, run: nat, now: int, sent: nat, stored: seq<Event>)
    requires CoverInv(c, s) && TruthInv(c, s, names)
    ensures TruthInv(c, DoPoll(c, s, PollSend(run, now, sent, stored)), names)
  {
    var t := DoPoll(c, s, PollSend(run, now, sent, stored));
    if t != s {
      assert AllFaithful(c, s, names, s.runs[run].rows);
      SentIsFaithful(c, s, names, s.runs[run].rows, now, sent, stored);
      RunMovesTruly(c, s, names, t, run);
    }
  }

  lemma MarkKeepsTruth(c: Config, s: Sys, names: Option<map<string, string>>, run: nat)
    requires TruthInv(c, s, names)
    ensures TruthInv(c, DoPoll(c, s, PollMark(run)), names)
  {
    var t := DoPoll(c, s, PollMark(run));
    if t != s {
      RunMovesTruly(c, s, names, t, run);
    }
  }

  lemma ClockKeepsTruth(c: Config, s: Sys, names: Option<map<string, string>>, run: nat)
    requires TruthInv(c, s, names)
    ensures TruthInv(c, DoPoll(c, s, PollClock(run)), names)
  {
    hide DoPoll, AllFaithful, Faithful;
    var t := DoPoll(c, s, PollClock(run));
    ClockMoves(c, s, run);
    RunMovesTruly(c, s, names, t, run);
  }

  lemma StoreKeepsTruth(c: Config, s: Sys, names: Option<map<string, string>>, run: nat, stores: bool)
    requires TruthInv(c, s, names)
    ensures TruthInv(c, DoPoll(c, s, PollStore(run, stores)), names)
  {
    var t := DoPoll(c, s, PollStore(run, stores));
    if t != s {
      RunMovesTruly(c, s, names, t, run);
    }
  }

  lemma StopKeepsTruth(c: Config, s: Sys, names: Option<map<string, string>>, run: nat)
    requires TruthInv(c, s, names)
    ensures TruthInv(c, DoPoll(c, s, PollStop(run)), names)
  {
    hide Faithful, AllFaithful;
    RunMovesTruly(c, s, names, DoPoll(c, s, PollStop(run)), run);
  }

  lemma PollKeepsTruth(c: Config, s: Sys, names: Option<map<string, string>>, a: Action)
    requires CoverInv(c, s) && TruthInv(c, s, names)
    ensures TruthInv(c, DoPoll(c, s, a), names)
  {
    hide CoverInv, TruthInv, DoPoll;
    match a {
      case PollMark(run) => MarkKeepsTruth(c, s, names, run);
      case PollClock(run) => ClockKeepsTruth(c, s, names, run);
      case PollQuery(run, rows) => QueryKeepsTruth(c, s, names, run, rows);
      case PollSend(run, now, sent, stored) => SendKeepsTruth(c, s, names, run, now, sent, stored);
      case PollStore(run, stores) => StoreKeepsTruth(c, s, names, run, stores);
      case PollStop(run) => StopKeepsTruth(c, s, names, run);
      case _ => OthersDoNotPoll(c, s, a);
    }
  }

  /** A reconciliation that starts, or ends by publishing. */
  lemma RecMovesTruly(c: Config, s: Sys, names: Option<map<string, string>>, t: Sys)
    requires TruthInv(c, s, names) && t.org == s.org && t.runs == s.runs
    requires forall k :: k in t.recs ==> RecInv(c, s, names, t.recs[k])
    requires forall e :: e in t.published ==> e in s.published || Faithful(c, s, names, e.row)
    ensures TruthInv(c, t, names)
  {
    forall k | k in t.runs && t.runs[k].HasRows? ensures AllFaithful(c, t, names, t.runs[k].rows) {
      assert AllFaithful(c, s, names, s.runs[k].rows);
    }
    forall k | k in t.recs ensures RecInv(c, t, names, t.recs[k]) {
      assert RecInv(c, s, names, t.recs[k]);
    }
  }

  lemma ReconcileKeepsTruth(c: Config, s: Sys, names: Option<map<string, string>>, a: Action)
    requires CoverInv(c, s) && TruthInv(c, s, names)
    requires a.Enqueue? ==> AllPatient(c, s)
    ensures TruthInv(c, DoReconcile(c, s, a), names)
  {
    var t := DoReconcile(c, s, a);
    if t != s {
      match a {
        case ReadDeals(k, now, grace, rows) =>
          ReadIsFaithful(c, s, names, now, grace, rows);
          RecMovesTruly(c, s, names, t);
        case Scan(k, page) =>
          assert RecInv(c, s, names, s.recs[k]);
          RecMovesTruly(c, s, names, t);
        case Enqueue(k, stored) =>
          var r := s.recs[k];
          Reconcile.EnqueuedExactly(r.rows, r.versions, r.now, r.grace);
          assert RecInv(c, s, names, r);
          RecMovesTruly(c, s, names, t);
        case StopRec(k) =>
          RecMovesTruly(c, s, names, t);
        case _ =>
      }
    }
  }

  /** Steps that touch neither Salesforce, nor what was read, nor what was published. */
  lemma ElsewhereKeepsTruth(c: Config, s: Sys, names: Option<map<string, string>>, t: Sys)
    requires TruthInv(c, s, names) && t.org == s.org && t.runs == s.runs && t.recs == s.recs && t.published == s.published
    ensures TruthInv(c, t, names)
  {
    RecMovesTruly(c, s, names, t);
  }
}
