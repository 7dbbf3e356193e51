/** An operator's redrive is one of the machine's: the same letters leave, and the same events come back in order. */
module SyncRedrive {
  import opened Prelude
  import opened Events
  import opened Mapping
  import opened Sync
  import opened SyncRuns
  import Queues
  import Operator = Redrive

  /** A dead letter and a message that shows it. */
  predicate Same(m: Msg, q: Queues.Message) {
    q.body == Wire(m.event) && (m.reason.Some? <==> q.reason != "")
  }

  predicate Shown(m: Msg, q: Queues.QueueState, id: string) {
    id in q.messages && Same(m, q.messages[id])
  }

  ghost predicate Numbered(dlq: map<nat, Msg>, id: string) {
    exists n :: n in dlq && Queues.Known(n, id)
  }

  /** The dead-letter queue holds exactly the machine's letters, under the text of their numbers. */
  ghost predicate MirrorsLetters(dlq: map<nat, Msg>, q: Queues.QueueState) {
    && (forall n :: n in dlq ==> Shown(dlq[n], q, Queues.Id(n)))
    && (forall id :: id in q.messages ==> Numbered(dlq, id))
  }

  /** May this letter go back? */
  predicate Moves(m: Msg, all: bool) {
    all || m.reason.None?
  }

  /** The redrive is between two letters, has these left, and they are still there. */
  ghost predicate Left(t: Sys, r: nat, all: bool, rest: seq<(nat, Msg)>) {
    && r in t.redrives && t.redrives[r].all == all && !t.redrives[r].sent
    && t.redrives[r].at <= |t.redrives[r].todo| && t.redrives[r].todo[t.redrives[r].at..] == rest
    && forall i :: 0 <= i < |rest| ==> rest[i].0 in t.dlq && t.dlq[rest[i].0] == rest[i].1
  }

  ghost predicate DistinctNumbers(todo: seq<(nat, Msg)>) {
    forall i, j :: 0 <= i < j < |todo| ==> todo[i].0 != todo[j].0
  }

  /** Only this redrive went on. */
  predicate OthersStay(s: Sys, t: Sys, r: nat) {
    t.redrives - {r} == s.redrives - {r}
  }

  // ---- one letter ----------------------------------------------------------------------------

  lemma SkipOne(c: Config, t: Sys, r: nat, all: bool, rest: seq<(nat, Msg)>)
    requires Left(t, r, all, rest) && rest != []
    ensures var u := Do(c, t, Skip(r));
            Left(u, r, all, rest[1..]) && u == t.(redrives := u.redrives) && OthersStay(t, u, r)
  {
    hide DoPoll, DoWork, DoReconcile;
    var d := t.redrives[r];
    assert d.todo[d.at + 1..] == rest[1..];
  }

  lemma CopyOne(c: Config, t: Sys, r: nat, all: bool, rest: seq<(nat, Msg)>)
    requires Left(t, r, all, rest) && rest != [] && Moves(rest[0].1, all)
    ensures Do(c, t, Copy(r)) == t.(main := t.main[t.next := Msg(rest[0].1.event, None, 0, true)], next := t.next + 1,
                                    redrives := t.redrives[r := t.redrives[r].(sent := true)])
  {
    hide DoPoll, DoWork, DoReconcile;
    assert t.redrives[r].todo[t.redrives[r].at] == rest[0];
  }

  lemma DropOne(c: Config, t: Sys, u: Sys, r: nat, all: bool, rest: seq<(nat, Msg)>)
    requires Left(t, r, all, rest) && rest != [] && DistinctNumbers(rest)
    requires u.dlq == t.dlq && r in u.redrives && u.redrives[r] == t.redrives[r].(sent := true)
    ensures var v := Do(c, u, Drop(r, true));
            && Left(v, r, all, rest[1..]) && OthersStay(u, v, r)
            && v == u.(dlq := u.dlq - {rest[0].0}, redrives := v.redrives)
  {
    hide DoPoll, DoWork, DoReconcile;
    var d := t.redrives[r];
    assert d.todo[d.at] == rest[0] && d.todo[d.at + 1..] == rest[1..];
    RestStays(t.dlq, rest);
  }

  lemma RestStays(dlq: map<nat, Msg>, rest: seq<(nat, Msg)>)
    requires rest != [] && DistinctNumbers(rest)
    requires forall i :: 0 <= i < |rest| ==> rest[i].0 in dlq && dlq[rest[i].0] == rest[i].1
    ensures var left, more := dlq - {rest[0].0}, rest[1..];
            forall i :: 0 <= i < |more| ==> more[i].0 in left && left[more[i].0] == more[i].1
  {
    forall i | 0 <= i < |rest[1..]| ensures rest[1..][i] == rest[i + 1] && rest[i + 1].0 != rest[0].0 {
    }
  }

  lemma StopIt(c: Config, s: Sys, r: nat)
    ensures Do(c, s, StopRedrive(r)) == s.(redrives := s.redrives - {r})
  {
    hide DoPoll, DoWork, DoReconcile;
  }

  lemma PeekAll(c: Config, s: Sys, r: nat, all: bool, todo: seq<(nat, Msg)>)
    requires r !in s.redrives && forall i :: 0 <= i < |todo| ==> todo[i].0 in s.dlq && s.dlq[todo[i].0] == todo[i].1
    ensures var t := Do(c, s, Peek(r, all, Numbers(todo)));
            Left(t, r, all, todo) && t == s.(redrives := t.redrives) && OthersStay(s, t, r)
  {
    hide DoPoll, DoWork, DoReconcile;
    var ids := Numbers(todo);
    var t := Do(c, s, Peek(r, all, ids));
    assert t == DoRedrive(s, Peek(r, all, ids));
    assert t.redrives[r].todo == todo && todo[0..] == todo;
  }

  function Numbers(todo: seq<(nat, Msg)>): (ids: seq<nat>)
    ensures |ids| == |todo| && forall i :: 0 <= i < |ids| ==> ids[i] == todo[i].0
  {
    seq(|todo|, i requires 0 <= i < |todo| => todo[i].0)
  }

  /** A delete through a stale receipt leaves the letter behind: the machine's redrive stops there, and another one
    * takes the rest. */
  lemma LeaveOne(c: Config, s: Sys, t: Sys, u: Sys, r: nat, all: bool, rest: seq<(nat, Msg)>) returns (v: Sys)
    requires Left(t, r, all, rest) && rest != [] && u.dlq == t.dlq && Leads(c, s, u)
    ensures Leads(c, s, v) && Left(v, r, all, rest[1..]) && OthersStay(u, v, r) && v == u.(redrives := v.redrives)
  {
    hide Do, Leads;
    StopIt(c, u, r);
    LeadsOn(c, s, u, StopRedrive(r));
    var w := Do(c, u, StopRedrive(r));
    forall i | 0 <= i < |rest[1..]| ensures rest[1..][i].0 in w.dlq && w.dlq[rest[1..][i].0] == rest[1..][i].1 {
      assert rest[1..][i] == rest[i + 1];
    }
    PeekAll(c, w, r, all, rest[1..]);
    LeadsOn(c, s, w, Peek(r, all, Numbers(rest[1..])));
    v := Do(c, w, Peek(r, all, Numbers(rest[1..])));
  }

  /** Send one letter back; `gone` says whether its delete took it away. */
  lemma MoveOne(c: Config, s: Sys, t: Sys, r: nat, all: bool, rest: seq<(nat, Msg)>, gone: bool) returns (v: Sys)
    requires Leads(c, s, t) && Left(t, r, all, rest) && rest != [] && DistinctNumbers(rest) && Moves(rest[0].1, all)
    ensures Leads(c, s, v) && Left(v, r, all, rest[1..]) && OthersStay(t, v, r)
    ensures v == t.(main := t.main[t.next := Msg(rest[0].1.event, None, 0, true)], next := t.next + 1,
                    dlq := t.dlq - (if gone then {rest[0].0} else {}), redrives := v.redrives)
  {
    hide Do, Leads, Left;
    assert r in t.redrives by { LeftIsOpen(t, r, all, rest); }
    CopyOne(c, t, r, all, rest);
    LeadsOn(c, s, t, Copy(r));
    var u := Do(c, t, Copy(r));
    if gone {
      DropOne(c, t, u, r, all, rest);
      LeadsOn(c, s, u, Drop(r, true));
      v := Do(c, u, Drop(r, true));
    } else {
      v := LeaveOne(c, s, t, u, r, all, rest);
      assert t.dlq - {} == t.dlq;
    }
  }

  lemma LeftIsOpen(t: Sys, r: nat, all: bool, rest: seq<(nat, Msg)>)
    requires Left(t, r, all, rest)
    ensures r in t.redrives
  {
  }

  // ---- many letters --------------------------------------------------------------------------

  /** The events of the letters that may go back, in order. */
  function EventsOf(todo: seq<(nat, Msg)>, all: bool): seq<Event> {
    if todo == [] then []
    else EventsOf(todo[..|todo| - 1], all) + if Moves(todo[|todo| - 1].1, all) then [todo[|todo| - 1].1.event] else []
  }

  ghost function Taken(todo: seq<(nat, Msg)>, all: bool, gone: set<nat>): set<nat> {
    set i | 0 <= i < |todo| && Moves(todo[i].1, all) && todo[i].0 in gone :: todo[i].0
  }

  /** Part way through: the events of the first letters are on the main queue, and those that are gone have left. */
  predicate Moved(s: Sys, t: Sys, r: nat, events: seq<Event>, taken: set<nat>) {
    && t == s.(main := Put(s.main, s.next, events), next := s.next + |events|, dlq := s.dlq - taken, redrives := t.redrives)
    && OthersStay(s, t, r)
  }

  /** One more event sent, and these letters gone. */
  lemma MovedMore(s: Sys, u: Sys, v: Sys, r: nat, events: seq<Event>, e: Event, taken: set<nat>, less: set<nat>)
    requires Moved(s, u, r, events, taken) && OthersStay(u, v, r)
    requires v == u.(main := u.main[u.next := Msg(e, None, 0, true)], next := u.next + 1, dlq := u.dlq - less,
                     redrives := v.redrives)
    ensures Moved(s, v, r, events + [e], taken + less)
  {
    assert (events + [e])[..|events|] == events;
    assert s.dlq - taken - less == s.dlq - (taken + less);
  }

  lemma EventsMore(todo: seq<(nat, Msg)>, all: bool, n: nat)
    requires n < |todo|
    ensures EventsOf(todo[..n + 1], all) == EventsOf(todo[..n], all) + if Moves(todo[n].1, all) then [todo[n].1.event] else []
  {
    assert todo[..n + 1][..n] == todo[..n];
  }

  lemma NothingMoved(s: Sys, r: nat, todo: seq<(nat, Msg)>, all: bool, gone: set<nat>)
    ensures Moved(s, s, r, EventsOf(todo[..0], all), Taken(todo[..0], all, gone)) && todo[0..] == todo
  {
    assert s.dlq - {} == s.dlq;
    assert Taken(todo[..0], all, gone) == {};
  }

  lemma {:induction false} MoveFirst(c: Config, s: Sys, r: nat, all: bool, todo: seq<(nat, Msg)>, gone: set<nat>, n: nat)
    returns (t: Sys)
    requires Left(s, r, all, todo) && DistinctNumbers(todo) && n <= |todo|
    ensures Leads(c, s, t) && Left(t, r, all, todo[n..])
    ensures Moved(s, t, r, EventsOf(todo[..n], all), Taken(todo[..n], all, gone))
  {
    hide Do, Leads, Left, EventsOf, Taken, Moved;
    if n == 0 {
      t := s;
      Stays(c, s);
      NothingMoved(s, r, todo, all, gone);
    } else {
      var u := MoveFirst(c, s, r, all, todo, gone, n - 1);
      t := MoveNext(c, s, u, r, all, todo, gone, n - 1);
    }
  }

  lemma MoveNext(c: Config, s: Sys, u: Sys, r: nat, all: bool, todo: seq<(nat, Msg)>, gone: set<nat>, n: nat) returns (t: Sys)
    requires DistinctNumbers(todo) && n < |todo| && Leads(c, s, u) && Left(u, r, all, todo[n..])
    requires Moved(s, u, r, EventsOf(todo[..n], all), Taken(todo[..n], all, gone))
    ensures Leads(c, s, t) && Left(t, r, all, todo[n + 1..])
    ensures Moved(s, t, r, EventsOf(todo[..n + 1], all), Taken(todo[..n + 1], all, gone))
  {
    hide Do, Leads, Left, EventsOf, Taken, Moved;
    var rest, m := todo[n..], todo[n];
    assert rest[0] == m && rest[1..] == todo[n + 1..] && DistinctNumbers(rest);
    TakenMore(todo, all, gone, n);
    EventsMore(todo, all, n);
    var before, taken := EventsOf(todo[..n], all), Taken(todo[..n], all, gone);
    if Moves(m.1, all) {
      t := MoveOne(c, s, u, r, all, rest, m.0 in gone);
      MovedMore(s, u, t, r, before, m.1.event, taken, if m.0 in gone then {m.0} else {});
    } else {
      SkipOne(c, u, r, all, rest);
      LeadsOn(c, s, u, Skip(r));
      t := Do(c, u, Skip(r));
      assert before + [] == before && taken + {} == taken;
      OthersMoved(s, u, t, r, before, taken);
    }
  }

  lemma OthersMoved(s: Sys, u: Sys, t: Sys, r: nat, events: seq<Event>, taken: set<nat>)
    requires Moved(s, u, r, events, taken) && t == u.(redrives := t.redrives) && OthersStay(u, t, r)
    ensures Moved(s, t, r, events, taken)
  {
  }

  lemma TakenMore(todo: seq<(nat, Msg)>, all: bool, gone: set<nat>, n: nat)
    requires n < |todo|
    ensures Taken(todo[..n + 1], all, gone)
         == Taken(todo[..n], all, gone) + if Moves(todo[n].1, all) && todo[n].0 in gone then {todo[n].0} else {}
  {
    var less, more := todo[..n], todo[..n + 1];
    assert forall i :: 0 <= i < n ==> less[i] == more[i];
    forall k | k in Taken(more, all, gone)
      ensures k in Taken(less, all, gone) || (Moves(todo[n].1, all) && todo[n].0 in gone && k == todo[n].0)
    {
      var i :| 0 <= i < |more| && Moves(more[i].1, all) && more[i].0 in gone && more[i].0 == k;
      if i < n {
        assert less[i] == more[i];
      }
    }
    forall k | k in Taken(less, all, gone) ensures k in Taken(more, all, gone) {
      var i :| 0 <= i < |less| && Moves(less[i].1, all) && less[i].0 in gone && less[i].0 == k;
      assert more[i] == less[i];
    }
    assert more[n] == todo[n];
  }

  // ---- the whole redrive ---------------------------------------------------------------------

  /** These are the machine's letters for the messages an operator looked at. */
  ghost predicate LettersFor(dlq: map<nat, Msg>, seen: seq<Queues.Receipt>, todo: seq<(nat, Msg)>) {
    |todo| == |seen|
    && forall i :: 0 <= i < |seen| ==>
         todo[i].0 in dlq && todo[i].1 == dlq[todo[i].0] && Queues.Known(todo[i].0, seen[i].id)
  }

  lemma FindLetter(dlq: map<nat, Msg>, q: Queues.QueueState, id: string) returns (n: nat)
    requires MirrorsLetters(dlq, q) && id in q.messages
    ensures n in dlq && Queues.Known(n, id)
  {
    hide Shown, Queues.Id;
    assert Numbered(dlq, id);
    n :| n in dlq && Queues.Known(n, id);
  }

  lemma {:induction false} FindLetters(dlq: map<nat, Msg>, q: Queues.QueueState, seen: seq<Queues.Receipt>)
    returns (todo: seq<(nat, Msg)>)
    requires MirrorsLetters(dlq, q) && forall i :: 0 <= i < |seen| ==> seen[i].id in q.messages
    ensures LettersFor(dlq, seen, todo)
  {
    hide MirrorsLetters, Queues.Known;
    if seen == [] {
      todo := [];
    } else {
      var k := |seen| - 1;
      todo := FindLetters(dlq, q, seen[..k]);
      var n := FindLetter(dlq, q, seen[k].id);
      todo := todo + [(n, dlq[n])];
    }
  }

  /** The letter and the receipt are of one message. */
  predicate Pairs(todo: seq<(nat, Msg)>, seen: seq<Queues.Receipt>) {
    |todo| == |seen| && forall i :: 0 <= i < |seen| ==> Same(todo[i].1, seen[i].message)
  }

  lemma SeenPairs(dlq: map<nat, Msg>, q: Queues.QueueState, seen: seq<Queues.Receipt>, todo: seq<(nat, Msg)>)
    requires MirrorsLetters(dlq, q) && Operator.Shows(q, seen) && LettersFor(dlq, seen, todo)
    ensures Pairs(todo, seen) && DistinctNumbers(todo)
  {
    hide Wire, Queues.Id, Numbered;
    forall i | 0 <= i < |seen| ensures Same(todo[i].1, seen[i].message) {
      assert seen[i] in seen;
      assert Shown(dlq[todo[i].0], q, Queues.Id(todo[i].0));
    }
  }

  lemma {:induction false} SameBodies(todo: seq<(nat, Msg)>, seen: seq<Queues.Receipt>, all: bool)
    requires Pairs(todo, seen)
    ensures var events, moved := EventsOf(todo, all), Operator.Movable(seen, all);
            |events| == |moved| && forall i :: 0 <= i < |moved| ==> moved[i].message.body == Wire(events[i])
  {
    hide Wire;
    if todo != [] {
      SameBodies(todo[..|todo| - 1], seen[..|seen| - 1], all);
    }
  }

  /** The numbers of the letters that are no longer on the queue. */
  ghost function GoneFrom(dlq: map<nat, Msg>, after: Queues.QueueState): set<nat> {
    set n | n in dlq && Queues.Id(n) !in after.messages
  }

  /** What is gone was moved. */
  lemma GoneAreTaken(dlq: map<nat, Msg>, before: Queues.QueueState, after: Queues.QueueState, seen: seq<Queues.Receipt>,
                     todo: seq<(nat, Msg)>, moved: seq<Queues.Receipt>, handled: nat, all: bool)
    requires MirrorsLetters(dlq, before) && LettersFor(dlq, seen, todo) && Pairs(todo, seen) && handled <= |seen|
    requires forall r :: r in moved ==> r in seen[..handled] && (all || !Operator.Permanent(r))
    requires Operator.OnlyMovedLeft(before.messages.Keys, after.messages.Keys, moved)
    ensures GoneFrom(dlq, after) <= Taken(todo[..handled], all, GoneFrom(dlq, after))
  {
    assert |todo| == |seen|;
    hide Wire, Queues.Id, Taken, Pairs, Numbered, LettersFor;
    var gone := GoneFrom(dlq, after);
    forall n | n in gone ensures n in Taken(todo[..handled], all, gone) {
      assert Shown(dlq[n], before, Queues.Id(n)) && Queues.Holds(moved, Queues.Id(n));
      GoneIsTaken(dlq, seen, todo, moved, handled, all, gone, n);
    }
  }

  lemma GoneIsTaken(dlq: map<nat, Msg>, seen: seq<Queues.Receipt>, todo: seq<(nat, Msg)>, moved: seq<Queues.Receipt>,
                    handled: nat, all: bool, gone: set<nat>, n: nat)
    requires LettersFor(dlq, seen, todo) && Pairs(todo, seen) && handled <= |seen| && n in gone
    requires forall r :: r in moved ==> r in seen[..handled] && (all || !Operator.Permanent(r))
    requires Queues.Holds(moved, Queues.Id(n))
    ensures n in Taken(todo[..handled], all, gone)
  {
    hide Wire, Queues.Id;
    var r :| r in moved && r.id == Queues.Id(n);
    var i :| 0 <= i < handled && seen[i] == r;
    SameNumber(todo[i].0, n);
    assert Same(todo[i].1, seen[i].message) && todo[..handled][i] == todo[i];
  }

  /** The letters that are not gone are what the queue still holds. */
  lemma LeftMirrors(dlq: map<nat, Msg>, before: Queues.QueueState, after: Queues.QueueState)
    requires MirrorsLetters(dlq, before) && after.messages.Keys <= before.messages.Keys
    requires forall id :: id in after.messages ==> Queues.SameButReceived(before.messages[id], after.messages[id])
    ensures MirrorsLetters(dlq - GoneFrom(dlq, after), after)
  {
    hide Wire, Queues.Id, Numbered;
    var left := dlq - GoneFrom(dlq, after);
    forall n | n in left ensures Shown(left[n], after, Queues.Id(n)) {
      assert Shown(dlq[n], before, Queues.Id(n));
    }
    forall id | id in after.messages ensures Numbered(left, id) {
      assert Numbered(dlq, id);
      StillNumbered(dlq, after, id);
    }
  }

  lemma StillNumbered(dlq: map<nat, Msg>, after: Queues.QueueState, id: string)
    requires Numbered(dlq, id) && id in after.messages
    ensures Numbered(dlq - GoneFrom(dlq, after), id)
  {
    hide Queues.Id;
    var n :| n in dlq && Queues.Known(n, id);
    assert n in dlq - GoneFrom(dlq, after);
  }

  lemma TakenAreGone(todo: seq<(nat, Msg)>, all: bool, gone: set<nat>)
    ensures Taken(todo, all, gone) <= gone
  {
  }

  lemma SameNumber(m: nat, n: nat)
    requires Queues.Id(m) == Queues.Id(n)
    ensures m == n
  {
  }

  /** What a redrive changes in the machine: these events are back on the main queue, and the letters are what the
    * queue still holds. */
  ghost predicate Redriven(s: Sys, t: Sys, copies: seq<Queues.Message>, after: Queues.QueueState, events: seq<Event>) {
    && t == s.(main := Put(s.main, s.next, events), next := s.next + |events|, dlq := t.dlq)
    && |events| == |copies| && (forall i :: 0 <= i < |copies| ==> copies[i].body == Wire(events[i]))
    && MirrorsLetters(t.dlq, after)
  }

  /** An operator's redrive, as its contract states it, is a sequence of the machine's actions: it sends the same
    * events back in the same order, and takes the same letters away, wherever it stops. */
  lemma RedriveIsActions(c: Config, s: Sys, r: nat, before: Queues.QueueState, after: Queues.QueueState,
                         seen: seq<Queues.Receipt>, res: Operator.RedriveResult, stuck: Option<string>, handled: nat,
                         copies: seq<Queues.Message>, moves: nat -> Operator.Move, all: bool)
    requires MirrorsLetters(s.dlq, before) && r !in s.redrives
    requires Operator.Shows(before, seen) && Operator.StoppedAt(seen, moves, all, res, stuck, handled)
    requires Operator.Divided(seen[..handled], res.moved, res.skipped, all)
    requires Operator.CopiesOf(copies, Operator.Attempted(seen, res.moved, stuck, handled))
    requires Operator.OnlyMovedLeft(before.messages.Keys, after.messages.Keys, res.moved)
    requires after.messages.Keys <= before.messages.Keys
    requires forall id :: id in after.messages ==> Queues.SameButReceived(before.messages[id], after.messages[id])
    ensures exists t, events :: Leads(c, s, t) && Redriven(s, t, copies, after, events)
  {
    hide Do, Leads, MirrorsLetters, LettersFor, Pairs, Wire, Taken, GoneFrom, Queues.SameButReceived, Operator.Divided,
         Operator.OnlyMovedLeft, Operator.CopiesOf, Operator.StoppedAt, EventsOf, DistinctNumbers, Put;
    var gone := GoneFrom(s.dlq, after);
    var todo := FindLetters(s.dlq, before, seen);
    SeenPairs(s.dlq, before, seen, todo);
    StopMeans(seen, moves, all, res, stuck, handled);
    MovedAreMovable(seen, res, all, handled);
    GoneAreTaken(s.dlq, before, after, seen, todo, res.moved, handled, all);
    LettersMatch(s.dlq, seen, todo, handled, all, stuck);
    TakenAreGone(todo[..handled], all, gone);
    LeftMirrors(s.dlq, before, after);
    assert Taken(todo[..handled], all, gone) == gone;
    var t := RunUntil(c, s, r, all, todo, gone, handled, stuck.Some?);
    var events := EventsOf(todo[..handled], all) + if stuck.Some? then [todo[handled].1.event] else [];
    SentBodies(todo, seen, res.moved, stuck, handled, all, copies, events);
    assert Redriven(s, t, copies, after, events);
  }

  lemma StopMeans(seen: seq<Queues.Receipt>, moves: nat -> Operator.Move, all: bool, res: Operator.RedriveResult,
                  stuck: Option<string>, handled: nat)
    requires Operator.StoppedAt(seen, moves, all, res, stuck, handled)
    ensures handled <= |seen| && (stuck.Some? ==> handled < |seen| && (all || !Operator.Permanent(seen[handled])))
  {
  }

  lemma MovedAreMovable(seen: seq<Queues.Receipt>, res: Operator.RedriveResult, all: bool, handled: nat)
    requires handled <= |seen| && Operator.Divided(seen[..handled], res.moved, res.skipped, all)
    ensures res.moved == Operator.Movable(seen[..handled], all)
    ensures forall r :: r in res.moved ==> r in seen[..handled] && (all || !Operator.Permanent(r))
  {
    hide Operator.Movable;
  }

  lemma LettersMatch(dlq: map<nat, Msg>, seen: seq<Queues.Receipt>, todo: seq<(nat, Msg)>, handled: nat, all: bool,
                     stuck: Option<string>)
    requires LettersFor(dlq, seen, todo) && Pairs(todo, seen) && handled <= |seen|
    requires stuck.Some? ==> handled < |seen| && (all || !Operator.Permanent(seen[handled]))
    ensures |todo| == |seen| && forall i :: 0 <= i < |todo| ==> todo[i].0 in dlq && dlq[todo[i].0] == todo[i].1
    ensures stuck.Some? ==> Moves(todo[handled].1, all)
  {
    hide Wire, Queues.Known;
    if stuck.Some? {
      assert Same(todo[handled].1, seen[handled].message);
    }
  }

  /** The copies that were sent are of the events in their order. */
  lemma SentBodies(todo: seq<(nat, Msg)>, seen: seq<Queues.Receipt>, moved: seq<Queues.Receipt>, stuck: Option<string>,
                   handled: nat, all: bool, copies: seq<Queues.Message>, events: seq<Event>)
    requires Pairs(todo, seen) && handled <= |seen| && moved == Operator.Movable(seen[..handled], all)
    requires (stuck.Some? ==> handled < |seen|) && Operator.CopiesOf(copies, Operator.Attempted(seen, moved, stuck, handled))
    requires events == EventsOf(todo[..handled], all) + if stuck.Some? then [todo[handled].1.event] else []
    ensures |events| == |copies| && forall i :: 0 <= i < |copies| ==> copies[i].body == Wire(events[i])
  {
    hide Wire, EventsOf, Operator.Movable;
    SameBodies(todo[..handled], seen[..handled], all);
    var sent := Operator.Attempted(seen, moved, stuck, handled);
    forall i | 0 <= i < |copies| ensures copies[i].body == Wire(events[i]) {
      assert copies[i] == Operator.CopyOf(sent[i], copies[i].sentAt);
      if i == |moved| {
        assert Same(todo[handled].1, seen[handled].message);
      }
    }
  }

  /** Look, move the first letters, copy one more if its delete failed, and stop. */
  lemma RunUntil(c: Config, s: Sys, r: nat, all: bool, todo: seq<(nat, Msg)>, gone: set<nat>, n: nat, more: bool) returns (t: Sys)
    requires r !in s.redrives && n <= |todo| && DistinctNumbers(todo)
    requires forall i :: 0 <= i < |todo| ==> todo[i].0 in s.dlq && s.dlq[todo[i].0] == todo[i].1
    requires more ==> n < |todo| && Moves(todo[n].1, all)
    ensures Leads(c, s, t)
    ensures var events := EventsOf(todo[..n], all) + if more then [todo[n].1.event] else [];
            t == s.(main := Put(s.main, s.next, events), next := s.next + |events|, dlq := s.dlq - Taken(todo[..n], all, gone))
  {
    hide Do, Leads, Left, Taken, EventsOf, Put;
    Stays(c, s);
    PeekAll(c, s, r, all, todo);
    LeadsOn(c, s, s, Peek(r, all, Numbers(todo)));
    var s1 := Do(c, s, Peek(r, all, Numbers(todo)));
    var s2 := MoveFirst(c, s1, r, all, todo, gone, n);
    LeadsCompose(c, s, s1, s2);
    var first, s3 := EventsOf(todo[..n], all), s2;
    if more {
      assert todo[n..][0] == todo[n];
      LeftIsOpen(s2, r, all, todo[n..]);
      CopyOne(c, s2, r, all, todo[n..]);
      LeadsOn(c, s, s2, Copy(r));
      s3 := Do(c, s2, Copy(r));
      PutMore(s.main, s.next, first, todo[n].1.event);
    } else {
      assert first + [] == first;
    }
    StopIt(c, s3, r);
    LeadsOn(c, s, s3, StopRedrive(r));
    t := Do(c, s3, StopRedrive(r));
    assert s3.redrives - {r} == s2.redrives - {r} == s1.redrives - {r} == s.redrives - {r} == s.redrives;
  }

  lemma PutMore(main: map<nat, Msg>, next: nat, events: seq<Event>, e: Event)
    ensures Put(main, next, events + [e]) == Put(main, next, events)[next + |events| := Msg(e, None, 0, true)]
  {
    assert (events + [e])[..|events|] == events;
  }
}
