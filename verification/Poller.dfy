/** One poll: read a half-open window of Closed Won deals, publish it, and move the watermark past what was sent. */
module Poller {
  import opened Prelude
  import opened Calendar
  import opened Events
  import opened Sorting
  import opened Publisher

  /** The SOQL text of one window. */
  function QueryText(from: int, upper: int): string
    requires from + EPOCH >= 0 && upper + EPOCH >= 0
  {
    "SELECT Id, Name, AccountId, Account.Name,"
    + " Amount, CloseDate, StageName, SystemModstamp"
    + " FROM Opportunity WHERE IsWon = true"
    + " AND SystemModstamp >= " + Literal(from)
    + " AND SystemModstamp < " + Literal(upper)
    + " ORDER BY SystemModstamp ASC, Id ASC"
  }

  /** The end of the window: `lag` behind Salesforce's clock, at a whole second. */
  function Upper(serverNow: int, lag: int): int {
    Truncate(serverNow - lag)
  }

  /** Where the watermark goes after `sent` of the rows are safe to move past; None leaves it alone. */
  function NextMark(from: int, upper: int, rows: seq<SfRow>, sent: nat): Option<int>
    requires sent <= |rows|
  {
    if sent == |rows| then Some(upper)
    else if sent > 0 && rows[sent].stamp > from then Some(rows[sent].stamp)
    else None
  }

  /** The order of the query: by stamp, then Id. */
  predicate RowBefore(a: SfRow, b: SfRow) {
    a.stamp < b.stamp || (a.stamp == b.stamp && TextLess(a.id, b.id))
  }

  ghost predicate InOrder(rows: seq<SfRow>) {
    forall i, j :: 0 <= i < j < |rows| ==> RowBefore(rows[i], rows[j])
  }

  predicate InWindow(r: SfRow, from: int, upper: int) {
    Truncate(from) <= r.stamp < Truncate(upper)
  }

  /** The answer to the window query over the won deals: each row of the window once, in order. */
  ghost predicate IsAnswer(won: set<SfRow>, from: int, upper: int, rows: seq<SfRow>) {
    && InOrder(rows)
    && forall r :: r in rows <==> r in won && InWindow(r, from, upper)
  }

  function Package(rows: seq<SfRow>, now: int): (evs: seq<Event>)
    ensures |evs| == |rows| && forall i :: 0 <= i < |rows| ==> evs[i] == Event(rows[i], now)
  {
    seq(|rows|, i requires 0 <= i < |rows| => Event(rows[i], now))
  }

  /** The stored watermark: the text of a whole-second instant, or nothing yet. */
  class Watermark {
    var value: Option<string>
    const start: int

    constructor (start: int)
      ensures value == None && this.start == start
    {
      this.start := start;
      value := None;
    }

    /** The instant it stands for; None if the text is not an instant. */
    function Current(): Option<int>
      reads this
    {
      if value.None? then Some(start)
      else if 0 < |value.value| == InstantLength(value.value) then ParseInstant(value.value)
      else None
    }

    method Get(fails: bool) returns (t: Option<int>)
      ensures t == if fails then None else Current()
    {
      if fails {
        return None;
      }
      if value.None? {
        return Some(start);
      }
      if 0 < |value.value| == InstantLength(value.value) {
        return ParseInstant(value.value);
      }
      return None;
    }

    /** `stored` is false when the write is lost. */
    method Set(t: int, stored: bool)
      requires Representable(t)
      modifies this
      ensures Current() == if stored then Some(Truncate(t)) else old(Current())
    {
      if stored {
        value := Some(Literal(t));
        LiteralParses(t, "");
        assert Literal(t) + "" == Literal(t);
      }
    }
  }

  /** What the services do during one run. */
  datatype Env = Env(
    getFails: bool,
    serverNow: Option<int>,
    answer: string -> Option<seq<SfRow>>,
    now: int,
    replies: nat -> Reply,
    setStored: bool,
    setFails: bool)

  /** Cutting the events at a negative count panics, and then no watermark is written. */
  datatype RunResult =
    | RunResult(from: int, to: int, found: nat, published: nat, events: seq<string>, failed: bool)
    | Panicked

  /** One finished poll, as the watermark sees it: `stored` says that a watermark was written and kept. */
  datatype Poll = Poll(upper: int, rows: seq<SfRow>, sent: nat, stored: bool)

  /** The watermark after a poll that started from `from`. */
  function After(from: int, p: Poll): int
    requires p.sent <= |p.rows|
  {
    if p.upper <= from || !p.stored || NextMark(from, p.upper, p.rows, p.sent).None? then from
    else Truncate(NextMark(from, p.upper, p.rows, p.sent).value)
  }

  class Runner {
    const queue: EventQueue
    const watermark: Watermark
    const lag: int

    constructor (queue: EventQueue, watermark: Watermark, lag: int)
      ensures this.queue == queue && this.watermark == watermark && this.lag == lag
    {
      this.queue, this.watermark, this.lag := queue, watermark, lag;
    }

    /** Does the run get as far as querying a window? */
    predicate Opens(env: Env)
      reads this, watermark
    {
      !env.getFails && watermark.Current().Some? && env.serverNow.Some?
      && Upper(env.serverNow.value, lag) > watermark.Current().value
    }

    /** What the query answers, once the window is open. */
    function Rows(env: Env): Option<seq<SfRow>>
      requires Opens(env)
      requires Representable(watermark.Current().value) && Representable(Upper(env.serverNow.value, lag))
      reads this, watermark
    {
      env.answer(QueryText(watermark.Current().value, Upper(env.serverNow.value, lag)))
    }

    /** Poll one window. The stamps of the rows must be writable as watermarks. */
    method Run(env: Env) returns (res: RunResult)
      requires Opens(env) ==> Representable(watermark.Current().value) && Representable(Upper(env.serverNow.value, lag))
      requires Opens(env) && Rows(env).Some? ==> Writable(Rows(env).value)
      modifies queue, watermark
      ensures old(!Opens(env) || Rows(env).None?) ==>
                && queue.stored == old(queue.stored) && watermark.Current() == old(watermark.Current())
                && res.RunResult? && res.events == []
      ensures old(Opens(env) && Rows(env).Some?) ==>
                Polled(old(watermark.Current().value), Upper(env.serverNow.value, lag), old(Rows(env).value), env,
                       old(queue.stored), queue.stored, watermark.Current(), res)
    {
      var from := watermark.Get(env.getFails);
      if from.None? {
        return RunResult(0, 0, 0, 0, [], true);
      }
      if env.serverNow.None? {
        return RunResult(from.value, from.value, 0, 0, [], true);
      }
      var upper := Upper(env.serverNow.value, lag);
      if upper <= from.value {
        return RunResult(from.value, from.value, 0, 0, [], false);
      }
      var rows := env.answer(QueryText(from.value, upper));
      if rows.None? {
        return RunResult(from.value, from.value, 0, 0, [], true);
      }
      res := PublishAndAdvance(from.value, upper, rows.value, env);
    }

    /** The second half of a run: publish the window, then move the watermark past what is safely stored. */
    method PublishAndAdvance(from: int, upper: int, rows: seq<SfRow>, env: Env) returns (res: RunResult)
      requires from < upper && watermark.Current() == Some(from) && Representable(upper) && Writable(rows)
      modifies queue, watermark
      ensures Polled(from, upper, rows, env, old(queue.stored), queue.stored, watermark.Current(), res)
    {
      hide SafePrefix, Count, Watermark.Current, Keys, Requested, Countable;
      var evs := [];
      for i := 0 to |rows|
        invariant evs == Package(rows, env.now)[..i]
      {
        evs := evs + [Event(rows[i], env.now)];
      }
      assert evs == Package(rows, env.now);
      var sent, ok, _ := Publish(queue, evs, env.replies);
      if sent < 0 {
        return Panicked;
      }
      var keys := Keys(evs[..sent]);
      if !ok {
        if sent > 0 && sent < |evs| && evs[sent].row.stamp > from {
          watermark.Set(evs[sent].row.stamp, env.setStored);
          return RunResult(from, evs[sent].row.stamp, |evs|, sent, keys, true);
        }
        return RunResult(from, from, |evs|, sent, keys, true);
      }
      watermark.Set(upper, env.setStored);
      return RunResult(from, upper, |evs|, sent, keys, env.setFails);
    }
  }

  predicate Writable(rows: seq<SfRow>) {
    forall i :: 0 <= i < |rows| ==> Representable(rows[i].stamp)
  }

  /** What a run that queried the window [from, upper) leaves behind. */
  ghost predicate Polled(from: int, upper: int, rows: seq<SfRow>, env: Env, before: seq<Event>, after: seq<Event>,
                         mark: Option<int>, res: RunResult)
  {
    var evs := Package(rows, env.now);
    var (n, ok) := Count(evs, env.replies, 0);
    && before <= after && (forall e :: e in after[|before|..] ==> e in evs)
    && (if n < 0 then res == Panicked && mark == Some(from) else
          && SafePrefix(evs, n, after[|before|..])
          && mark == Some(After(from, Poll(upper, rows, n, env.setStored && (ok || n < |rows|))))
          && res == RunResult(from, To(from, upper, rows, n, ok), |rows|, n, Keys(evs[..n]), !ok || env.setFails))
    && (ok ==> after == before + evs)
  }

  /** Where a run says the watermark went. */
  function To(from: int, upper: int, rows: seq<SfRow>, n: nat, ok: bool): int {
    if ok then upper
    else if 0 < n < |rows| && rows[n].stamp > from then rows[n].stamp
    else from
  }

  function Keys(evs: seq<Event>): seq<string> {
    if evs == [] then [] else Keys(evs[..|evs| - 1]) + [EventKey(evs[|evs| - 1].row.id, evs[|evs| - 1].row.stamp)]
  }

  /** The window ends at the latest whole second that lies the lag behind the clock. */
  lemma UpperIsLatest(serverNow: int, lag: int)
    ensures var upper := Upper(serverNow, lag);
            && WholeSecond(upper) && upper + lag <= serverNow
            && forall t :: WholeSecond(t) && t + lag <= serverNow ==> t <= upper
  {
  }

  /** Once something was sent, a kept watermark is held back by no more than the first row that was not: every whole
    * second of the window with no unsent row before it is reached. */
  lemma NothingHeldBack(from: int, p: Poll, m: int)
    requires p.sent <= |p.rows| && p.stored && WholeSecond(p.upper) && (p.sent > 0 || p.rows == [])
    requires WholeSecond(m) && from < m <= p.upper
    requires forall i :: p.sent <= i < |p.rows| ==> m <= p.rows[i].stamp
    ensures After(from, p) >= m
  {
    assert Truncate(p.upper) == p.upper;
    if p.sent < |p.rows| {
      WholeBelow(m, p.rows[p.sent].stamp);
    }
  }

  lemma WholeBelow(m: int, t: int)
    requires WholeSecond(m) && m <= t
    ensures m <= Truncate(t)
  {
  }

  /** A run reports the keys of the rows it counts as sent, in order. */
  lemma {:induction false} KeysAre(evs: seq<Event>)
    ensures |Keys(evs)| == |evs|
    ensures forall i :: 0 <= i < |evs| ==> Keys(evs)[i] == EventKey(evs[i].row.id, evs[i].row.stamp)
  {
    if evs != [] {
      KeysAre(evs[..|evs| - 1]);
    }
  }

  /** What a run says about itself is what it did: where it says the watermark went is where it went, if the write is
    * kept, and the events it lists are those of the rows it counts. */
  lemma RunReports(from: int, upper: int, rows: seq<SfRow>, env: Env, before: seq<Event>, after: seq<Event>, mark: Option<int>,
                   res: RunResult)
    requires Polled(from, upper, rows, env, before, after, mark, res) && res.RunResult? && env.setStored
    requires from < upper && WholeSecond(upper)
    ensures res.from == from && res.found == |rows| && res.published == |res.events| <= |rows|
    ensures forall i :: 0 <= i < res.published ==> res.events[i] == EventKey(rows[i].id, rows[i].stamp)
    ensures res.failed <==> !Count(Package(rows, env.now), env.replies, 0).1 || env.setFails
    ensures Count(Package(rows, env.now), env.replies, 0).1 ==> res.to == upper
    ensures res.published < |rows| ==> mark == Some(if res.to == from then from else Truncate(res.to))
  {
    hide Count, SafePrefix;
    var evs := Package(rows, env.now);
    var (n, ok) := Count(evs, env.replies, 0);
    KeysAre(evs[..n]);
  }

  // ---- runs one after another -----------------------------------------------------

  /** A poll whose rows answer its window. Stamps may have any sub-second part. */
  ghost predicate Proper(from: int, p: Poll) {
    && p.sent <= |p.rows| && InOrder(p.rows) && WholeSecond(p.upper)
    && forall r :: r in p.rows ==> InWindow(r, from, p.upper)
  }

  /** Every row the poll moves the watermark past is one it sent. */
  lemma PassedMeansSent(from: int, p: Poll, i: nat)
    requires p.sent <= |p.rows| && InOrder(p.rows) && i < |p.rows|
    requires Truncate(from) <= p.rows[i].stamp < After(from, p) && After(from, p) != from
    ensures i < p.sent
  {
  }

  /** Every stamp is a whole second, as Salesforce writes them. */
  predicate WholeStamps(rows: seq<SfRow>) {
    forall i :: 0 <= i < |rows| ==> WholeSecond(rows[i].stamp)
  }

  /** A poll never falls behind the second it began in, and from a whole second, or over whole stamps, it never moves
    * back at all. It leaves the watermark alone or at a whole second, and a poll that sent everything leaves it at
    * the end of its window. */
  lemma NeverBack(from: int, p: Poll)
    requires p.sent <= |p.rows| && WholeSecond(p.upper)
    ensures After(from, p) >= Truncate(from) && (WholeSecond(from) || WholeStamps(p.rows) ==> After(from, p) >= from)
    ensures After(from, p) == from || WholeSecond(After(from, p))
    ensures p.upper > from && p.stored && p.sent == |p.rows| ==> After(from, p) == p.upper
  {
  }

  /** The row shares the second of the watermark and comes after it. */
  predicate Follows(r: SfRow, from: int) {
    from < r.stamp && Truncate(r.stamp) == Truncate(from)
  }

  /** Where in the answer a send may stop for the watermark to move back. */
  ghost predicate Straddled(from: int, rows: seq<SfRow>) {
    !WholeSecond(from) && exists i :: 0 < i < |rows| && Follows(rows[i], from)
  }

  lemma StoppingAtMovesBack(from: int, upper: int, rows: seq<SfRow>, i: nat)
    requires from < upper && !WholeSecond(from) && 0 < i < |rows| && Follows(rows[i], from)
    ensures After(from, Poll(upper, rows, i, true)) < from
  {
  }

  /** How a poll of these rows can end below its start. */
  lemma MovedBackStoppedAt(from: int, p: Poll)
    requires p.sent <= |p.rows| && WholeSecond(p.upper) && After(from, p) < from
    ensures !WholeSecond(from) && 0 < p.sent < |p.rows| && Follows(p.rows[p.sent], from)
  {
    assert Truncate(p.upper) == p.upper;
  }

  /** The exact condition, on the watermark and the answer alone: some way of sending these rows moves the watermark
    * back exactly when the watermark has a sub-second part and a row after the first is stamped later in that same
    * second. */
  lemma BackExactlyWhenStraddled(from: int, upper: int, rows: seq<SfRow>)
    requires from < upper && WholeSecond(upper)
    ensures (exists sent: nat, stored :: sent <= |rows| && After(from, Poll(upper, rows, sent, stored)) < from)
        <==> Straddled(from, rows)
  {
    if Straddled(from, rows) {
      var i :| 0 < i < |rows| && Follows(rows[i], from);
      StoppingAtMovesBack(from, upper, rows, i);
    }
    forall sent: nat, stored | sent <= |rows| && After(from, Poll(upper, rows, sent, stored)) < from
      ensures Straddled(from, rows)
    {
      MovedBackStoppedAt(from, Poll(upper, rows, sent, stored));
    }
  }

  ghost predicate MovesBack(from: int, p: Poll) {
    Proper(from, p) && After(from, p) < from
  }

  /** The first of two rows was sent, and the second is stamped a millisecond after the start. */
  function Straddling(from: int): Poll {
    Poll(Truncate(from) + 2 * SECOND,
         [SfRow("006A", "", None, None, None, None, "", from), SfRow("006B", "", None, None, None, None, "", from + 1)],
         1, true)
  }

  lemma StraddlingMovesBack(from: int)
    requires from % SECOND != 0 && from % SECOND != SECOND - 1
    ensures MovesBack(from, Straddling(from))
  {
    var p := Straddling(from);
    assert Truncate(p.upper) == p.upper;
    assert Truncate(from + 1) == Truncate(from) < from;
  }

  lemma MovingBackStraddles(from: int, p: Poll)
    requires MovesBack(from, p)
    ensures from % SECOND != 0 && from % SECOND != SECOND - 1 && !WholeStamps(p.rows)
  {
    hide InOrder, InWindow;
    var stamp := p.rows[p.sent].stamp;
    assert Truncate(stamp) < from < stamp;
  }

  /** So some answer allows it exactly when another instant of the watermark's own second follows it. No poll writes
    * such a watermark, and no answer with whole stamps allows it. */
  lemma BackExactlyFromSubSeconds(from: int)
    ensures (exists p :: MovesBack(from, p)) <==> from % SECOND != 0 && from % SECOND != SECOND - 1
    ensures forall p :: MovesBack(from, p) ==> !WholeStamps(p.rows)
  {
    hide MovesBack, Straddling, WholeStamps;
    if from % SECOND != 0 && from % SECOND != SECOND - 1 {
      StraddlingMovesBack(from);
    }
    forall p | MovesBack(from, p) ensures from % SECOND != 0 && from % SECOND != SECOND - 1 && !WholeStamps(p.rows) {
      MovingBackStraddles(from, p);
    }
  }

  /** The watermark after a sequence of polls. */
  function AfterAll(from: int, ps: seq<Poll>): int
    requires forall p :: p in ps ==> p.sent <= |p.rows|
    decreases ps
  {
    if ps == [] then from else AfterAll(After(from, ps[0]), ps[1..])
  }

  ghost predicate ProperAll(from: int, ps: seq<Poll>)
    decreases ps
  {
    ps != [] ==> Proper(from, ps[0]) && ProperAll(After(from, ps[0]), ps[1..])
  }

  /** The rows a sequence of polls sends, when nothing fails: an empty window is never queried. */
  function SentRows(from: int, ps: seq<Poll>): seq<SfRow>
    requires forall p :: p in ps ==> p.sent <= |p.rows|
    decreases ps
  {
    if ps == [] then []
    else (if ps[0].upper > from then ps[0].rows[..ps[0].sent] else []) + SentRows(After(from, ps[0]), ps[1..])
  }

  /** Over any sequence of polls the watermark never falls behind the second it began in, and no row sent is older. It
    * does not fall behind where it began either, if that is a whole second or all stamps are. */
  lemma {:induction false} LaterRowsAreLater(from: int, ps: seq<Poll>)
    requires forall p :: p in ps ==> p.sent <= |p.rows|
    requires ProperAll(from, ps)
    ensures forall r :: r in SentRows(from, ps) ==> r.stamp >= Truncate(from)
    ensures AfterAll(from, ps) >= Truncate(from)
    ensures WholeSecond(from) || (forall p :: p in ps ==> WholeStamps(p.rows)) ==> AfterAll(from, ps) >= from
    decreases ps
  {
    if ps != [] {
      NeverBack(from, ps[0]);
      LaterRowsAreLater(After(from, ps[0]), ps[1..]);
      assert forall r :: r in ps[0].rows[..ps[0].sent] ==> r in ps[0].rows;
    }
  }

  ghost predicate DistinctKeys(rows: seq<SfRow>) {
    forall i, j :: 0 <= i < j < |rows| ==> rows[i].id != rows[j].id || rows[i].stamp != rows[j].stamp
  }

  /** Half-open windows tile time: polls that all succeed send no deal version twice, whatever happens to the
    * deals between them. */
  lemma {:induction false} CleanPollsNeverRepeat(from: int, ps: seq<Poll>)
    requires forall p :: p in ps ==> p.sent == |p.rows| && p.stored
    requires ProperAll(from, ps)
    ensures DistinctKeys(SentRows(from, ps))
    decreases ps
  {
    if ps != [] {
      var p, rest := ps[0], SentRows(After(from, ps[0]), ps[1..]);
      NeverBack(from, p);
      CleanPollsNeverRepeat(After(from, p), ps[1..]);
      LaterRowsAreLater(After(from, p), ps[1..]);
      if p.upper > from {
        assert p.rows[..p.sent] == p.rows;
        assert Truncate(p.upper) == p.upper;
        InOrderMeansDistinct(p.rows);
        forall i, j | 0 <= i < j < |p.rows + rest|
          ensures (p.rows + rest)[i].id != (p.rows + rest)[j].id || (p.rows + rest)[i].stamp != (p.rows + rest)[j].stamp
        {
          if i < |p.rows| <= j {
            assert p.rows[i] in p.rows && rest[j - |p.rows|] in rest;
          }
        }
      } else {
        assert SentRows(from, ps) == rest;
      }
    }
  }

  lemma InOrderMeansDistinct(rows: seq<SfRow>)
    requires InOrder(rows)
    ensures DistinctKeys(rows)
  {
    forall i, j | 0 <= i < j < |rows|
      ensures rows[i].id != rows[j].id || rows[i].stamp != rows[j].stamp
    {
      assert RowBefore(rows[i], rows[j]);
      TextOrder(rows[i].id, rows[j].id);
    }
  }

  /** After a clean poll an idle org answers the next window with nothing. */
  lemma IdleOrgPublishesNothing(won: set<SfRow>, from: int, p: Poll, upper: int, rows: seq<SfRow>)
    requires IsAnswer(won, from, p.upper, p.rows) && p.sent == |p.rows| && p.stored
    requires p.upper > from && WholeSecond(p.upper)
    requires forall r :: r in won ==> r.stamp < p.upper
    requires IsAnswer(won, After(from, p), upper, rows)
    ensures rows == []
  {
    assert Truncate(p.upper) == p.upper;
    if rows != [] {
      SomeMember(rows);
    }
  }
}
