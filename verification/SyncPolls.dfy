/** What the pollers read, and why nothing below a watermark was missed. */
module SyncPolls {
  import opened Calendar
  import opened Events
  import opened Org
  import opened Sync
  import Publisher
  import Poller

  // ---- coverage -----------------------------------------------------------------------

  /** This version of the deal was published. */
  ghost predicate Announced(s: Sys, id: string, stamp: int) {
    exists e :: e in s.published && e.row.id == id && e.row.stamp == stamp
  }

  /** Everything won, on time, and stamped from the start up to the mark was published. */
  ghost predicate Covered(c: Config, s: Sys, mark: int) {
    forall id :: OnTimeWon(s.org, id) && c.start <= s.org.rows[id].stamp < mark ==> Announced(s, id, s.org.rows[id].stamp)
  }

  ghost predicate MarkInv(c: Config, s: Sys, mark: int) {
    WholeSecond(mark) && mark + c.lag <= s.org.clock && Covered(c, s, mark)
  }

  predicate Origin(c: Config, s: Sys, from: int) {
    from == c.start || from in s.marks
  }

  predicate WindowInv(c: Config, s: Sys, from: int, upper: int) {
    Origin(c, s, from) && from < upper && WholeSecond(upper) && upper + c.lag <= s.org.clock
  }

  /** The rows list every on-time won deal of the window. */
  ghost predicate Complete(s: Sys, from: int, upper: int, rows: seq<SfRow>) {
    forall id :: OnTimeWon(s.org, id) && Truncate(from) <= s.org.rows[id].stamp < upper ==> Listed(rows, id, s.org.rows[id].stamp)
  }

  ghost predicate Listed(rows: seq<SfRow>, id: string, stamp: int) {
    exists i :: 0 <= i < |rows| && rows[i].id == id && rows[i].stamp == stamp
  }

  ghost predicate RunInv(c: Config, s: Sys, r: Run) {
    match r
    case HasMark(from) => Origin(c, s, from)
    case HasClock(from, upper) => WindowInv(c, s, from, upper)
    case HasRows(from, upper, rows) =>
      && WindowInv(c, s, from, upper) && Poller.InOrder(rows) && Complete(s, from, upper, rows)
      && forall r :: r in rows ==> WholeSecond(r.stamp) && r.stamp + SECOND <= upper
    case HasSent(next) => MarkInv(c, s, next)
  }

  ghost predicate CoverInv(c: Config, s: Sys) {
    && OrgInv(s.org)
    && (s.mark.Some? ==> s.mark.value in s.marks)
    && (forall m :: m in s.marks ==> MarkInv(c, s, m))
    && (forall k :: k in s.runs ==> RunInv(c, s, s.runs[k]))
  }

  lemma OrgStepKeepsMark(c: Config, s: Sys, step: OrgStep, mark: int)
    requires OrgInv(s.org) && MarkInv(c, s, mark)
    ensures MarkInv(c, s.(org := OrgDo(s.org, c.lag, step)), mark)
  {
    var t := s.(org := OrgDo(s.org, c.lag, step));
    forall id | OnTimeWon(t.org, id) && c.start <= t.org.rows[id].stamp < mark
      ensures Announced(t, id, t.org.rows[id].stamp)
    {
      NothingNewBehind(s.org, c.lag, step, mark, id);
      assert Announced(s, id, s.org.rows[id].stamp);
    }
  }

  lemma OrgStepKeepsRun(c: Config, s: Sys, step: OrgStep, r: Run)
    requires OrgInv(s.org) && RunInv(c, s, r)
    ensures RunInv(c, s.(org := OrgDo(s.org, c.lag, step)), r)
  {
    var t := s.(org := OrgDo(s.org, c.lag, step));
    match r {
      case HasMark(_) =>
      case HasClock(_, _) =>
      case HasRows(from, upper, rows) =>
        forall id | OnTimeWon(t.org, id) && Truncate(from) <= t.org.rows[id].stamp < upper
          ensures Listed(rows, id, t.org.rows[id].stamp)
        {
          NothingNewBehind(s.org, c.lag, step, upper, id);
        }
      case HasSent(next) => OrgStepKeepsMark(c, s, step, next);
    }
  }

  lemma OrgStepKeepsCover(c: Config, s: Sys, step: OrgStep)
    requires CoverInv(c, s)
    ensures CoverInv(c, s.(org := OrgDo(s.org, c.lag, step)))
  {
    OrgInvStays(s.org, c.lag, step);
    forall m | m in s.marks ensures MarkInv(c, s.(org := OrgDo(s.org, c.lag, step)), m) {
      OrgStepKeepsMark(c, s, step, m);
    }
    forall k | k in s.runs ensures RunInv(c, s.(org := OrgDo(s.org, c.lag, step)), s.runs[k]) {
      OrgStepKeepsRun(c, s, step, s.runs[k]);
    }
  }

  /** More history never uncovers anything. */
  lemma MoreHistory(c: Config, s: Sys, t: Sys)
    requires CoverInv(c, s) && t.org == s.org && s.published <= t.published && s.marks <= t.marks
    ensures forall m :: MarkInv(c, s, m) ==> MarkInv(c, t, m)
    ensures forall k :: k in s.runs ==> RunInv(c, t, s.runs[k])
  {
    forall m | MarkInv(c, s, m) ensures MarkInv(c, t, m) {
      forall id | OnTimeWon(t.org, id) && c.start <= t.org.rows[id].stamp < m
        ensures Announced(t, id, t.org.rows[id].stamp)
      {
        assert Announced(s, id, s.org.rows[id].stamp);
      }
    }
    forall k | k in s.runs ensures RunInv(c, t, s.runs[k]) {
      assert RunInv(c, s, s.runs[k]);
    }
  }

  lemma QueryCovers(c: Config, s: Sys, from: int, upper: int, rows: seq<SfRow>)
    requires CoverInv(c, s) && WindowInv(c, s, from, upper) && Poller.IsAnswer(Won(s.org), from, upper, rows)
    ensures RunInv(c, s, HasRows(from, upper, rows))
  {
    assert Truncate(upper) == upper;
    forall r | r in rows ensures WholeSecond(r.stamp) && r.stamp + SECOND <= upper {
      ViewIsSeen(s.org, r);
    }
    forall id | OnTimeWon(s.org, id) && Truncate(from) <= s.org.rows[id].stamp < upper
      ensures Listed(rows, id, s.org.rows[id].stamp)
    {
      assert View(s.org, id) in Won(s.org);
      assert View(s.org, id) in rows;
      var i :| 0 <= i < |rows| && rows[i] == View(s.org, id);
    }
  }

  /** Moving past the first unsent row, or past the window, skips nothing: all that is behind was published. */
  lemma SendCovers(c: Config, s: Sys, t: Sys, from: int, upper: int, rows: seq<SfRow>, now: int, sent: nat, stored: seq<Event>)
    requires CoverInv(c, s) && RunInv(c, s, HasRows(from, upper, rows))
    requires Publisher.SafePrefix(Poller.Package(rows, now), sent, stored)
    requires t.org == s.org && t.published == s.published + (set e | e in stored)
    ensures var mark := Poller.NextMark(from, upper, rows, sent);
            mark.Some? ==> MarkInv(c, t, mark.value)
  {
    var mark := Poller.NextMark(from, upper, rows, sent);
    var evs := Poller.Package(rows, now);
    if mark.Some? {
      if sent < |rows| {
        assert rows[sent] in rows;
      }
      forall id | OnTimeWon(t.org, id) && c.start <= t.org.rows[id].stamp < mark.value
        ensures Announced(t, id, t.org.rows[id].stamp)
      {
        var stamp := s.org.rows[id].stamp;
        if stamp < from {
          assert MarkInv(c, s, from);
          assert Announced(s, id, stamp);
        } else {
          assert Listed(rows, id, stamp);
          var i :| 0 <= i < |rows| && rows[i].id == id && rows[i].stamp == stamp;
          assert i < sent;
          assert evs[..sent][i] == stored[i];
          assert evs[i] in t.published;
        }
      }
    }
  }

  /** A poll that takes one more step, and changes at most its own entry. */
  lemma RunMoves(c: Config, s: Sys, t: Sys, run: nat)
    requires CoverInv(c, s)
    requires t.org == s.org && t.mark == s.mark && t.marks == s.marks && s.published <= t.published
    requires t.runs.Keys <= s.runs.Keys + {run}
    requires forall k :: k in t.runs && k != run ==> t.runs[k] == s.runs[k]
    requires run in t.runs ==> RunInv(c, t, t.runs[run])
    ensures CoverInv(c, t)
  {
    MoreHistory(c, s, t);
  }

  lemma StoreKeepsCover(c: Config, s: Sys, run: nat, stores: bool)
    requires CoverInv(c, s)
    ensures CoverInv(c, DoPoll(c, s, PollStore(run, stores)))
  {
    var t := DoPoll(c, s, PollStore(run, stores));
    if run in s.runs && s.runs[run].HasSent? {
      MoreHistory(c, s, t);
      assert RunInv(c, s, s.runs[run]);
    }
  }

  lemma SendKeepsCover(c: Config, s: Sys, run: nat, now: int, sent: nat, stored: seq<Event>)
    requires CoverInv(c, s)
    ensures CoverInv(c, DoPoll(c, s, PollSend(run, now, sent, stored)))
  {
    var t := DoPoll(c, s, PollSend(run, now, sent, stored));
    if t != s {
      assert RunInv(c, s, s.runs[run]);
      SendCovers(c, s, t, s.runs[run].from, s.runs[run].upper, s.runs[run].rows, now, sent, stored);
      RunMoves(c, s, t, run);
    }
  }

  lemma QueryKeepsCover(c: Config, s: Sys, run: nat, rows: seq<SfRow>)
    requires CoverInv(c, s)
    ensures CoverInv(c, DoPoll(c, s, PollQuery(run, rows)))
  {
    var t := DoPoll(c, s, PollQuery(run, rows));
    if t != s {
      assert RunInv(c, s, s.runs[run]);
      QueryCovers(c, s, s.runs[run].from, s.runs[run].upper, rows);
      assert RunInv(c, t, t.runs[run]);
      RunMoves(c, s, t, run);
    }
  }

  /** Reading the clock opens a window, or ends the poll when the window would be empty. */
  lemma ClockMoves(c: Config, s: Sys, run: nat)
    ensures var t := DoPoll(c, s, PollClock(run));
            && t == s.(runs := t.runs) && t.runs.Keys <= s.runs.Keys
            && (forall k :: k in t.runs && k != run ==> t.runs[k] == s.runs[k])
            && (run in t.runs && t.runs[run] != s.runs[run] ==>
                 && s.runs[run].HasMark?
                 && var upper := Poller.Upper(Truncate(s.org.clock), c.lag);
                    s.runs[run].from < upper && t.runs[run] == HasClock(s.runs[run].from, upper))
  {
    hide Poller.Upper, Publisher.SafePrefix, Poller.IsAnswer;
  }

  lemma UpperIsBehind(c: Config, s: Sys)
    ensures var upper := Poller.Upper(Truncate(s.org.clock), c.lag); WholeSecond(upper) && upper + c.lag <= s.org.clock
  {
  }

  lemma ClockKeepsCover(c: Config, s: Sys, run: nat)
    requires CoverInv(c, s)
    ensures CoverInv(c, DoPoll(c, s, PollClock(run)))
  {
    hide DoPoll, MarkInv, Complete, Poller.Upper;
    var t := DoPoll(c, s, PollClock(run));
    ClockMoves(c, s, run);
    UpperIsBehind(c, s);
    MoreHistory(c, s, t);
    if run in s.runs {
      assert RunInv(c, s, s.runs[run]);
    }
    RunMoves(c, s, t, run);
  }

  lemma MarkKeepsCover(c: Config, s: Sys, run: nat)
    requires CoverInv(c, s)
    ensures CoverInv(c, DoPoll(c, s, PollMark(run)))
  {
    hide OrgInv, MarkInv, Complete;
    if run !in s.runs {
      RunMoves(c, s, DoPoll(c, s, PollMark(run)), run);
    }
  }

  lemma StopKeepsCover(c: Config, s: Sys, run: nat)
    requires CoverInv(c, s)
    ensures CoverInv(c, DoPoll(c, s, PollStop(run)))
  {
    hide OrgInv, MarkInv, Complete, RunInv;
    RunMoves(c, s, DoPoll(c, s, PollStop(run)), run);
  }

  predicate IsPoll(a: Action) {
    a.PollMark? || a.PollClock? || a.PollQuery? || a.PollSend? || a.PollStore? || a.PollStop?
  }

  lemma OthersDoNotPoll(c: Config, s: Sys, a: Action)
    requires !IsPoll(a)
    ensures DoPoll(c, s, a) == s
  {
    hide Publish, Poller.IsAnswer, Publisher.SafePrefix, Poller.NextMark, Poller.Upper;
  }

  lemma PollKeepsCover(c: Config, s: Sys, a: Action)
    requires CoverInv(c, s)
    ensures CoverInv(c, DoPoll(c, s, a))
  {
    hide CoverInv, DoPoll;
    match a {
      case PollMark(run) => MarkKeepsCover(c, s, run);
      case PollClock(run) => ClockKeepsCover(c, s, run);
      case PollQuery(run, rows) => QueryKeepsCover(c, s, run, rows);
      case PollSend(run, now, sent, stored) => SendKeepsCover(c, s, run, now, sent, stored);
      case PollStore(run, stores) => StoreKeepsCover(c, s, run, stores);
      case PollStop(run) => StopKeepsCover(c, s, run);
      case _ => OthersDoNotPoll(c, s, a);
    }
  }

  lemma ElsewhereKeepsCover(c: Config, s: Sys, t: Sys)
    requires CoverInv(c, s)
    requires t.org == s.org && t.mark == s.mark && t.marks == s.marks && t.runs == s.runs && s.published <= t.published
    ensures CoverInv(c, t)
  {
    MoreHistory(c, s, t);
  }
}
