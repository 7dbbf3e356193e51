/** The operator's view of the dead-letter queue: look, list, and move messages back without losing any. */
module Redrive {
  import opened Prelude
  import opened Sorting
  import opened Queues

  const PEEK_BATCH := 10
  const LIST_LIMIT := 100
  const REDRIVE_LIMIT := 1000

  /** One receive call: holds that ran out before it, what the service picks, and whether the call fails. */
  datatype Call = Call(expired: set<string>, pick: seq<string>, fails: bool)

  /** Retrying this message cannot help: the worker gave a reason. */
  predicate Permanent(r: Receipt) {
    r.message.reason != ""
  }

  ghost predicate DistinctIds(rs: seq<Receipt>) {
    forall i, j :: 0 <= i < j < |rs| ==> rs[i].id != rs[j].id
  }

  /** No hold runs out while the operator works. */
  ghost predicate HoldsLast(calls: seq<Call>) {
    forall c :: c in calls ==> c.expired == {}
  }

  /** The look gets its chance: no hold runs out, no call fails, every call offers every message, and there is a call
    * for each message and two more. */
  ghost predicate Thorough(calls: seq<Call>, ids: set<string>) {
    && HoldsLast(calls) && (forall c :: c in calls ==> !c.fails) && |calls| >= |ids| + 2
    && forall c, id :: c in calls && id in ids ==> id in c.pick
  }

  // ---- looking -------------------------------------------------------------------------

  /** What a look leaves: the same messages, each seen one listed once under its own body. */
  ghost predicate Looked(before: QueueState, after: QueueState, out: seq<Receipt>) {
    && SameMessages(before, after)
    && DistinctIds(out)
    && (forall r :: r in out ==> r.id in before.messages && SameButReceived(before.messages[r.id], r.message))
    && (Sound(before) ==> Sound(after))
  }

  /** The seen messages were visible, are held through current receipts, and nothing else is newly hidden. */
  ghost predicate Held(before: QueueState, after: QueueState, out: seq<Receipt>) {
    && (forall r :: r in out ==> Current(after, r) && r.id !in before.hidden)
    && (forall id :: id in after.hidden <==> id in before.hidden || Holds(out, id))
  }

  predicate BySent(a: Receipt, b: Receipt) {
    a.message.sentAt <= b.message.sentAt
  }

  predicate Listed(out: seq<Receipt>, id: string) {
    exists i :: 0 <= i < |out| && out[i].id == id
  }

  /** The deliveries not seen before, in order. */
  function WithUnseen(found: seq<Receipt>, batch: seq<Receipt>): seq<Receipt> {
    if batch == [] then found
    else
      var so := WithUnseen(found, batch[..|batch| - 1]);
      if Listed(so, batch[|batch| - 1].id) then so else so + [batch[|batch| - 1]]
  }

  lemma {:induction false} UnseenAreListedOnce(found: seq<Receipt>, batch: seq<Receipt>)
    requires DistinctIds(found)
    ensures var out := WithUnseen(found, batch);
            && DistinctIds(out)
            && (forall r :: r in out ==> r in found || r in batch)
            && (forall id :: Holds(out, id) <==> Holds(found, id) || Holds(batch, id))
  {
    if batch != [] {
      var init, last := batch[..|batch| - 1], batch[|batch| - 1];
      UnseenAreListedOnce(found, init);
      assert batch == init + [last];
      HoldsMore(init, last);
      HoldsMore(WithUnseen(found, init), last);
      ListedIsHeld(WithUnseen(found, init), last.id);
    }
  }

  lemma ListedIsHeld(out: seq<Receipt>, id: string)
    ensures Listed(out, id) <==> Holds(out, id)
  {
    if Listed(out, id) {
      var i :| 0 <= i < |out| && out[i].id == id;
      assert out[i] in out;
    }
  }

  lemma SeenMore(first: QueueState, q: QueueState, found: seq<Receipt>, pick: seq<string>, max: nat)
    requires Looked(first, q, found)
    ensures var (t, batch) := ReceivedAll(q, pick, max); Looked(first, t, WithUnseen(found, batch))
  {
    var (t, batch) := ReceivedAll(q, pick, max);
    ReceivedAllDelivers(q, pick, max);
    UnseenAreListedOnce(found, batch);
  }

  lemma HeldMore(first: QueueState, q: QueueState, found: seq<Receipt>, pick: seq<string>, max: nat)
    requires Looked(first, q, found) && Held(first, q, found)
    ensures var (t, batch) := ReceivedAll(q, pick, max); Held(first, t, WithUnseen(found, batch))
  {
    var (t, batch) := ReceivedAll(q, pick, max);
    ReceivedAllDelivers(q, pick, max);
    UnseenAreListedOnce(found, batch);
    forall r | r in batch ensures r.id !in first.hidden && Current(t, r) {
      assert Visible(q, r.id);
    }
    forall r | r in found ensures Current(t, r) {
      assert Holds(found, r.id);
      assert r.id in q.hidden;
      assert forall x :: x in batch ==> Visible(q, x.id);
      assert !Holds(batch, r.id);
    }
  }

  lemma ExpiryKeepsLook(first: QueueState, q: QueueState, found: seq<Receipt>, ids: set<string>)
    requires Looked(first, q, found)
    ensures Looked(first, q.(hidden := q.hidden - ids), found)
  {
  }

  /** Nothing that was visible is left to see. */
  ghost predicate SawAll(before: QueueState, out: seq<Receipt>) {
    forall id :: Visible(before, id) ==> Holds(out, id)
  }

  lemma {:induction false} ManyIds(out: seq<Receipt>, ids: set<string>)
    requires DistinctIds(out) && forall r :: r in out ==> r.id in ids
    ensures |out| <= |ids|
    decreases |out|
  {
    if out != [] {
      var init, last := out[..|out| - 1], out[|out| - 1];
      assert last in out;
      forall r | r in init ensures r.id in ids - {last.id} {
        var i :| 0 <= i < |init| && init[i] == r;
        assert out[i].id != last.id && out[i] in out;
      }
      ManyIds(init, ids - {last.id});
    }
  }

  /** A receive that brings something brings something new, as long as holds last. */
  lemma BringsNew(first: QueueState, q: QueueState, found: seq<Receipt>, pick: seq<string>, max: nat)
    requires Looked(first, q, found) && Held(first, q, found) && ReceivedAll(q, pick, max).1 != []
    ensures |WithUnseen(found, ReceivedAll(q, pick, max).1)| > |found|
  {
    var batch := ReceivedAll(q, pick, max).1;
    ReceivedAllDelivers(q, pick, max);
    assert batch[0] in batch && Visible(q, batch[0].id);
    UnseenGrows(found, batch, 0);
  }

  lemma {:induction false} UnseenGrows(found: seq<Receipt>, batch: seq<Receipt>, i: nat)
    requires i < |batch| && !Holds(found, batch[i].id)
    ensures |WithUnseen(found, batch)| > |found|
    decreases |batch|
  {
    var init := batch[..|batch| - 1];
    UnseenKeeps(found, init);
    if i < |init| {
      UnseenGrows(found, init, i);
    } else {
      ListedIsHeld(WithUnseen(found, init), batch[i].id);
      if |WithUnseen(found, init)| == |found| {
        assert WithUnseen(found, init) == found;
      }
    }
  }

  lemma {:induction false} UnseenKeeps(found: seq<Receipt>, batch: seq<Receipt>)
    ensures found <= WithUnseen(found, batch)
  {
    if batch != [] {
      UnseenKeeps(found, batch[..|batch| - 1]);
    }
  }

  /** When every message was offered and nothing came, everything visible at first is held by now. */
  lemma EmptyMeansAll(first: QueueState, q: QueueState, found: seq<Receipt>, pick: seq<string>, max: nat)
    requires Looked(first, q, found) && Held(first, q, found) && max > 0
    requires (forall id :: id in first.messages ==> id in pick) && ReceivedAll(q, pick, max).1 == []
    ensures SawAll(first, found)
  {
    ReceivesWhatItCan(q, pick, max);
    ReceivedAllDelivers(q, pick, max);
    var t := ReceivedAll(q, pick, max).0;
    forall id | Visible(first, id) ensures Holds(found, id) {
      assert id in pick && !Visible(t, id) && id in t.messages;
      assert !Holds([], id);
    }
  }

  /** Receive until `limit` messages are held or two calls came back empty. Calls beyond the script come back empty.
    * A hold that runs out brings a message back: it is not listed twice. */
  method Peek(dlq: Queue, limit: nat, calls: seq<Call>) returns (out: seq<Receipt>, ok: bool)
    modifies dlq
    ensures Looked(old(dlq.State()), dlq.State(), out)
    ensures HoldsLast(calls) ==> Held(old(dlq.State()), dlq.State(), out)
    ensures ok ==> forall i, j :: 0 <= i < j < |out| ==> BySent(out[i], out[j])
    ensures (forall c :: c in calls ==> !c.fails) ==> ok
    ensures Thorough(calls, old(dlq.messages.Keys)) ==> |out| >= limit || SawAll(old(dlq.State()), out)
  {
    hide Looked, Held, ReceivedAll, WithUnseen, SawAll, SameMessages;
    out := [];
    var empty, k := 0, 0;
    ghost var first := dlq.State();
    LookStarts(first);
    while |out| < limit && empty < 2
      invariant k >= 0 && empty <= 2
      invariant Looked(first, dlq.State(), out)
      invariant HoldsLast(calls) ==> Held(first, dlq.State(), out)
      invariant Thorough(calls, first.messages.Keys) ==> k <= |out| + empty && (empty > 0 ==> SawAll(first, out))
      decreases if k < |calls| then |calls| - k else 0, 2 - empty
    {
      LookedAreFew(first, dlq.State(), out);
      var call := if k < |calls| then calls[k] else Call({}, [], false);
      assert HoldsLast(calls) ==> call.expired == {};
      k := k + 1;
      ghost var last := dlq.State();
      dlq.ExpireHolds(call.expired);
      ExpiryKeepsLook(first, last, out, call.expired);
      assert HoldsLast(calls) ==> dlq.State() == last;
      if call.fails {
        assert call in calls;
        return out, false;
      }
      ghost var q := dlq.State();
      NothingOffered(q);
      var batch := dlq.Receive(call.pick, PEEK_BATCH);
      SeenMore(first, q, out, call.pick, PEEK_BATCH);
      if HoldsLast(calls) {
        HeldMore(first, q, out, call.pick, PEEK_BATCH);
        LookGoesOn(first, q, out, call.pick, PEEK_BATCH, calls);
      }
      if batch == [] {
        NothingUnseen(out);
        empty := empty + 1;
        continue;
      }
      out := AddUnseen(out, batch);
    }
    ghost var unsorted := out;
    out := StableSort(out, (a, b) => BySent(a, b));
    SortKeepsLook(first, dlq.State(), unsorted);
    SortKeepsSight(first, unsorted);
    ok := true;
  }

  lemma LookStarts(q: QueueState)
    ensures Looked(q, q, []) && Held(q, q, [])
  {
  }

  lemma NothingOffered(q: QueueState)
    ensures ReceivedAll(q, [], PEEK_BATCH) == (q, [])
  {
  }

  lemma NothingUnseen(found: seq<Receipt>)
    ensures WithUnseen(found, []) == found
  {
  }

  lemma LookedAreFew(first: QueueState, q: QueueState, out: seq<Receipt>)
    requires Looked(first, q, out)
    ensures |out| <= |first.messages.Keys|
  {
    ManyIds(out, first.messages.Keys);
  }

  /** One more call of a thorough look either brings something new or shows that nothing is left. */
  lemma LookGoesOn(first: QueueState, q: QueueState, found: seq<Receipt>, pick: seq<string>, max: nat, calls: seq<Call>)
    requires Looked(first, q, found) && Held(first, q, found) && max > 0
    ensures var batch := ReceivedAll(q, pick, max).1;
            && (SawAll(first, found) ==> SawAll(first, WithUnseen(found, batch)))
            && (batch != [] ==> |WithUnseen(found, batch)| > |found|)
            && ((forall id :: id in first.messages ==> id in pick) && batch == [] ==> SawAll(first, found))
  {
    hide Looked, Held, ReceivedAll, WithUnseen;
    var batch := ReceivedAll(q, pick, max).1;
    if batch != [] {
      BringsNew(first, q, found, pick, max);
    } else if forall id :: id in first.messages ==> id in pick {
      EmptyMeansAll(first, q, found, pick, max);
    }
    UnseenKeeps(found, batch);
    forall id | Holds(found, id) ensures Holds(WithUnseen(found, batch), id) {
      var r :| r in found && r.id == id;
      var i :| 0 <= i < |found| && found[i] == r;
      assert WithUnseen(found, batch)[i] == r;
    }
  }

  lemma SortKeepsSight(first: QueueState, out: seq<Receipt>)
    ensures var sorted := StableSort(out, (a, b) => BySent(a, b));
            |sorted| == |out| && (SawAll(first, out) ==> SawAll(first, sorted))
  {
    var le := (a: Receipt, b: Receipt) => BySent(a, b);
    StableSortMembers(out, le);
    StableSortKeeps(out, le, (a: Receipt, b: Receipt) => true);
    assert |multiset(StableSort(out, le))| == |multiset(out)|;
    forall id | Holds(out, id) ensures Holds(StableSort(out, le), id) {
      var r :| r in out && r.id == id;
      assert r in StableSort(out, le);
    }
  }

  method AddUnseen(found: seq<Receipt>, batch: seq<Receipt>) returns (out: seq<Receipt>)
    ensures out == WithUnseen(found, batch)
  {
    out := found;
    for i := 0 to |batch|
      invariant out == WithUnseen(found, batch[..i])
    {
      assert batch[..i + 1][..i] == batch[..i];
      if !Listed(out, batch[i].id) {
        out := out + [batch[i]];
      }
    }
    assert batch[..|batch|] == batch;
  }

  lemma SortKeepsLook(first: QueueState, q: QueueState, out: seq<Receipt>)
    requires Looked(first, q, out)
    ensures var sorted := StableSort(out, (a, b) => BySent(a, b));
            && Looked(first, q, sorted) && (Held(first, q, out) ==> Held(first, q, sorted))
            && forall i, j :: 0 <= i < j < |sorted| ==> BySent(sorted[i], sorted[j])
  {
    var le := (a: Receipt, b: Receipt) => BySent(a, b);
    var sorted := StableSort(out, le);
    StableSortMembers(out, le);
    var any := (a: Receipt, b: Receipt) => true;
    StableSortKeeps(out, le, any);
    var order := Sorting.Then(le, any);
    assert forall i, j :: 0 <= i < j < |sorted| ==> order(sorted[i], sorted[j]);
    forall id ensures Holds(sorted, id) <==> Holds(out, id) {
    }
    PermutedDistinct(out, sorted);
  }

  /** Rearranging receipts with distinct ids keeps them distinct. */
  lemma PermutedDistinct(a: seq<Receipt>, b: seq<Receipt>)
    requires DistinctIds(a) && multiset(a) == multiset(b)
    ensures DistinctIds(b)
  {
    forall i, j | 0 <= i < j < |b| ensures b[i].id != b[j].id {
      if b[i].id == b[j].id {
        assert b[i] in multiset(a) && b[j] in multiset(a);
        var m :| 0 <= m < |a| && a[m] == b[i];
        var n :| 0 <= n < |a| && a[n] == b[j];
        assert m == n;
        TwiceInB(b, i, j);
        OnceInA(a, m);
      }
    }
  }

  lemma TwiceInB(b: seq<Receipt>, i: nat, j: nat)
    requires i < j < |b| && b[i] == b[j]
    ensures multiset(b)[b[i]] >= 2
  {
    assert b == b[..j] + [b[j]] + b[j + 1..];
    assert b[i] in b[..j];
  }

  lemma OnceInA(a: seq<Receipt>, m: nat)
    requires DistinctIds(a) && m < |a|
    ensures multiset(a)[a[m]] == 1
  {
    assert a == a[..m] + [a[m]] + a[m + 1..];
    assert a[m] !in a[..m] && a[m] !in a[m + 1..];
  }

  // ---- letting go ----------------------------------------------------------------------

  /** Only these messages became visible, as far as the receipts are good and the release of the message worked: the
    * releases of `fails` did not. */
  ghost predicate LetGo(before: QueueState, after: QueueState, out: seq<Receipt>, fails: set<string>) {
    && after == before.(hidden := after.hidden) && after.hidden <= before.hidden
    && (forall id :: id in before.hidden && id !in after.hidden ==> Holds(out, id) && id !in fails)
    && (forall r :: r in out && Current(before, r) && r.id !in fails ==> r.id !in after.hidden)
  }

  /** A release that fails is passed over. */
  method Release(queue: Queue, out: seq<Receipt>, fails: set<string>)
    modifies queue
    ensures LetGo(old(queue.State()), queue.State(), out, fails)
  {
    ghost var before := queue.State();
    for i := 0 to |out|
      invariant LetGo(before, queue.State(), out[..i], fails)
    {
      ghost var mid := queue.State();
      queue.ChangeVisibilityToZero(out[i], out[i].id !in fails);
      assert out[..i + 1] == out[..i] + [out[i]];
      LetGoMore(before, mid, out[..i], out[i], fails);
    }
    assert out[..|out|] == out;
  }

  lemma LetGoMore(before: QueueState, mid: QueueState, out: seq<Receipt>, r: Receipt, fails: set<string>)
    requires LetGo(before, mid, out, fails)
    ensures LetGo(before, if r.id in fails then mid else Released(mid, r), out + [r], fails)
  {
    HoldsMore(out, r);
    forall x | x in out + [r] ensures x in out || x == r {
    }
  }

  /** Listing removes nothing, and while holds last it hides exactly the listed messages whose release failed. */
  method ListDlq(dlq: Queue, calls: seq<Call>, fails: set<string>) returns (out: seq<Receipt>, ok: bool)
    modifies dlq
    ensures forall r :: r in out ==> r.id in old(dlq.messages) && SameButReceived(old(dlq.messages[r.id]), r.message)
    ensures (forall c :: c in calls ==> !c.fails) ==> ok
    ensures ok ==> forall i, j :: 0 <= i < j < |out| ==> BySent(out[i], out[j])
    ensures Thorough(calls, old(dlq.messages.Keys)) ==> |out| >= LIST_LIMIT || SawAll(old(dlq.State()), out)
    ensures SameMessages(old(dlq.State()), dlq.State())
    ensures HoldsLast(calls) ==>
              forall id :: id in dlq.hidden <==> id in old(dlq.hidden) || (id in fails && Holds(out, id))
  {
    ghost var before := dlq.State();
    out, ok := Peek(dlq, LIST_LIMIT, calls);
    ghost var held := dlq.State();
    Release(dlq, out, fails);
    if HoldsLast(calls) {
      AllLetGo(before, held, dlq.State(), out, fails);
    }
  }

  lemma AllLetGo(before: QueueState, held: QueueState, after: QueueState, out: seq<Receipt>, fails: set<string>)
    requires Held(before, held, out) && LetGo(held, after, out, fails)
    ensures forall id :: id in after.hidden <==> id in before.hidden || (id in fails && Holds(out, id))
  {
    forall id ensures id in after.hidden <==> id in before.hidden || (id in fails && Holds(out, id)) {
      if Holds(out, id) {
        var r :| r in out && r.id == id;
      }
    }
  }

  // ---- moving --------------------------------------------------------------------------

  /** One message's send and delete, and the holds that run out before them. */
  datatype Move = Move(expired: set<string>, sendWorks: bool, deleteWorks: bool, sentAt: int)

  /** No hold runs out while messages are looked at or moved. */
  ghost predicate AllHoldsLast(calls: seq<Call>, moves: nat -> Move) {
    HoldsLast(calls) && forall i: nat :: moves(i).expired == {}
  }

  datatype RedriveResult = RedriveResult(moved: seq<Receipt>, skipped: seq<Receipt>, failed: bool)

  /** A message on the queue with this body and event key. */
  ghost predicate Copied(q: QueueState, m: Message) {
    exists id :: id in q.messages && q.messages[id].body == m.body && q.messages[id].eventKey == m.eventKey
  }

  ghost predicate OnlyGrows(before: QueueState, after: QueueState) {
    Sound(after) && forall id :: id in before.messages ==> id in after.messages && after.messages[id] == before.messages[id]
  }

  /** Part way through: what left the dead-letter queue has a copy on the main queue, and may leave. */
  ghost predicate Transferred(dlq0: QueueState, main0: QueueState, dlq: QueueState, main: QueueState, all: bool) {
    && dlq == dlq0.(messages := dlq.messages, hidden := dlq.hidden)
    && dlq.hidden <= dlq0.hidden && dlq.messages.Keys <= dlq0.messages.Keys
    && (forall id :: id in dlq.messages ==> dlq.messages[id] == dlq0.messages[id])
    && OnlyGrows(main0, main)
    && (forall id :: id in dlq0.messages && id !in dlq.messages ==>
         Copied(main, dlq0.messages[id]) && (all || dlq0.messages[id].reason == ""))
  }

  /** Every handled message is kept for release, or its receipt is spent. */
  ghost predicate Settled(dlq: QueueState, done: seq<Receipt>, keep: seq<Receipt>) {
    forall r :: r in done ==> r in keep || !Current(dlq, r)
  }

  function CopyOf(r: Receipt, at: int): Message {
    Message(r.message.body, r.message.eventKey, "", at, 0)
  }

  lemma SendKeeps(dlq0: QueueState, main0: QueueState, dlq: QueueState, main: QueueState, all: bool, r: Receipt, at: int)
    requires Transferred(dlq0, main0, dlq, main, all)
    ensures Transferred(dlq0, main0, dlq, Sent(main, CopyOf(r, at)), all)
    ensures Copied(Sent(main, CopyOf(r, at)), r.message)
  {
    var after := Sent(main, CopyOf(r, at));
    SentIsFresh(main, CopyOf(r, at));
    assert after.messages[Id(main.issued)] == CopyOf(r, at);
    forall m | Copied(main, m) ensures Copied(after, m) {
      var id :| id in main.messages && main.messages[id].body == m.body && main.messages[id].eventKey == m.eventKey;
      assert id in after.messages && after.messages[id] == main.messages[id];
    }
  }

  lemma DeleteKeeps(dlq0: QueueState, main0: QueueState, dlq: QueueState, main: QueueState, all: bool, r: Receipt)
    requires Transferred(dlq0, main0, dlq, main, all) && Copied(main, r.message)
    requires r.id in dlq0.messages && SameButReceived(dlq0.messages[r.id], r.message) && (all || r.message.reason == "")
    ensures Transferred(dlq0, main0, Deleted(dlq, r), main, all)
  {
  }

  lemma SettledMore(dlq: QueueState, done: seq<Receipt>, keep: seq<Receipt>, r: Receipt, kept: bool)
    requires Settled(dlq, done, keep)
    ensures Settled(if kept then dlq else Deleted(dlq, r), done + [r], if kept then keep + [r] else keep)
  {
    forall x | x in done + [r] ensures x in done || x == r {
    }
  }

  /** Everything on either queue before is on one of them after, permanent messages stay unless asked for, and
    * everything still waiting can be seen again, apart from `stuck`. */
  ghost predicate NothingLost(dlq0: QueueState, main0: QueueState, dlq: QueueState, main: QueueState, all: bool) {
    && dlq.messages.Keys <= dlq0.messages.Keys
    && (forall id :: id in dlq.messages ==> SameButReceived(dlq0.messages[id], dlq.messages[id]))
    && OnlyGrows(main0, main)
    && (forall id :: id in dlq0.messages && id !in dlq.messages ==>
         Copied(main, dlq0.messages[id]) && (all || dlq0.messages[id].reason == ""))
  }

  /** The messages that may move, in their order. */
  function Movable(rs: seq<Receipt>, all: bool): seq<Receipt> {
    if rs == [] then []
    else Movable(rs[..|rs| - 1], all) + if all || !Permanent(rs[|rs| - 1]) then [rs[|rs| - 1]] else []
  }

  /** Exactly what was handled either moved, in its order, or, when permanent, stayed. */
  ghost predicate Divided(done: seq<Receipt>, moved: seq<Receipt>, skipped: seq<Receipt>, all: bool) {
    && moved == Movable(done, all)
    && (forall r :: r in moved <==> r in done && (all || !Permanent(r)))
    && (forall r :: r in skipped <==> r in done && Permanent(r) && !all)
  }

  /** These messages were sent one after another. */
  function AllSent(q: QueueState, ms: seq<Message>): QueueState {
    if ms == [] then q else Sent(AllSent(q, ms[..|ms| - 1]), ms[|ms| - 1])
  }

  /** One fresh copy for each of these, in their order: the same body and event key, and no reason. */
  ghost predicate CopiesOf(ms: seq<Message>, rs: seq<Receipt>) {
    |ms| == |rs| && forall i :: 0 <= i < |ms| ==> ms[i] == CopyOf(rs[i], ms[i].sentAt)
  }

  lemma SentMore(main0: QueueState, copies: seq<Message>, rs: seq<Receipt>, m: Receipt, at: int)
    requires CopiesOf(copies, rs)
    ensures AllSent(main0, copies + [CopyOf(m, at)]) == Sent(AllSent(main0, copies), CopyOf(m, at))
    ensures CopiesOf(copies + [CopyOf(m, at)], rs + [m])
  {
    assert (copies + [CopyOf(m, at)])[..|copies|] == copies;
  }

  /** Only messages counted as moved have left. */
  ghost predicate OnlyMovedLeft(before: set<string>, after: set<string>, moved: seq<Receipt>) {
    forall id :: id in before && id !in after ==> Holds(moved, id)
  }

  lemma LeftMore(held: QueueState, dlq: QueueState, moved: seq<Receipt>, m: Receipt)
    requires OnlyMovedLeft(held.messages.Keys, dlq.messages.Keys, moved)
    ensures OnlyMovedLeft(held.messages.Keys, Deleted(dlq, m).messages.Keys, moved + [m])
  {
    HoldsMore(moved, m);
  }

  /** Where the moving stopped, and why: everything was handled, or the next message may move but its send or its delete
    * failed. Only a failed delete leaves one more copy than messages moved. */
  ghost predicate StoppedAt(msgs: seq<Receipt>, moves: nat -> Move, all: bool, res: RedriveResult, stuck: Option<string>,
                            handled: nat)
  {
    && handled <= |msgs| && (res.failed <==> handled < |msgs|)
    && (handled < |msgs| ==>
         && (all || !Permanent(msgs[handled])) && !(moves(handled).sendWorks && moves(handled).deleteWorks)
         && stuck == if moves(handled).sendWorks then Some(msgs[handled].id) else None)
    && (handled == |msgs| ==> stuck == None)
    && MovesWorked(msgs[..handled], moves, all)
  }

  /** Every message of these that may move was sent and deleted. */
  ghost predicate MovesWorked(done: seq<Receipt>, moves: nat -> Move, all: bool) {
    forall i :: 0 <= i < |done| && (all || !Permanent(done[i])) ==> moves(i).sendWorks && moves(i).deleteWorks
  }

  /** What was sent: each message that moved, and the one whose delete failed. */
  function Attempted(msgs: seq<Receipt>, moved: seq<Receipt>, stuck: Option<string>, handled: nat): seq<Receipt> {
    moved + if stuck.Some? && handled < |msgs| then [msgs[handled]] else []
  }

  ghost predicate AllCopied(main: QueueState, moved: seq<Receipt>) {
    forall r :: r in moved ==> Copied(main, r.message)
  }

  /** Messages moved through receipts that were good are gone. */
  ghost predicate Gone(held: QueueState, left: set<string>, moved: seq<Receipt>) {
    forall r :: r in moved && Current(held, r) ==> r.id !in left
  }

  /** Everything still waiting can be seen as before, apart from `stuck` and the messages seen whose release failed. */
  ghost predicate SeenAgain(before: QueueState, after: QueueState, seen: seq<Receipt>, stuck: Option<string>, fails: set<string>) {
    forall id :: id in after.messages ==>
      (id in after.hidden <==> id in before.hidden || stuck == Some(id) || (id in fails && Holds(seen, id)))
  }

  /** The loop's state after the messages `done`. */
  ghost predicate Progress(held: QueueState, main0: QueueState, dlq: QueueState, main: QueueState, done: seq<Receipt>,
                           keep: seq<Receipt>, res: RedriveResult, copies: seq<Message>, all: bool, dryRun: bool)
  {
    && Transferred(held, main0, dlq, main, all) && Settled(dlq, done, keep)
    && (dryRun ==> dlq.messages == held.messages && main == main0)
    && Divided(done, res.moved, res.skipped, all)
    && (!dryRun ==> AllCopied(main, res.moved) && Gone(held, dlq.messages.Keys, res.moved))
    && (!dryRun ==> OnlyMovedLeft(held.messages.Keys, dlq.messages.Keys, res.moved))
    && (!dryRun ==> main == AllSent(main0, copies) && CopiesOf(copies, res.moved))
  }

  lemma KeptMore(held: QueueState, main0: QueueState, dlq: QueueState, main: QueueState, done: seq<Receipt>,
                 keep: seq<Receipt>, res: RedriveResult, copies: seq<Message>, all: bool, dryRun: bool, m: Receipt)
    requires Progress(held, main0, dlq, main, done, keep, res, copies, all, dryRun)
    ensures Permanent(m) && !all ==>
              Progress(held, main0, dlq, main, done + [m], keep + [m], res.(skipped := res.skipped + [m]), copies, all, dryRun)
    ensures (all || !Permanent(m)) && dryRun ==>
              Progress(held, main0, dlq, main, done + [m], keep + [m], res.(moved := res.moved + [m]), copies, all, dryRun)
  {
    hide Transferred, AllCopied, Gone, OnlyMovedLeft, AllSent, CopiesOf, Divided, Settled;
    SettledMore(dlq, done, keep, m, true);
    DividedMore(done, res, all, m);
  }

  lemma DividedMore(done: seq<Receipt>, res: RedriveResult, all: bool, m: Receipt)
    requires Divided(done, res.moved, res.skipped, all)
    ensures if all || !Permanent(m) then Divided(done + [m], res.moved + [m], res.skipped, all)
            else Divided(done + [m], res.moved, res.skipped + [m], all)
  {
    hide Movable;
    MovableMore(done, all, m);
    forall x | x in done + [m] ensures x in done || x == m {
    }
    assert m in [m];
  }

  lemma MovableMore(done: seq<Receipt>, all: bool, m: Receipt)
    ensures Movable(done + [m], all) == if all || !Permanent(m) then Movable(done, all) + [m] else Movable(done, all)
  {
    assert (done + [m])[..|done|] == done;
  }

  lemma MovedMore(held: QueueState, main0: QueueState, dlq: QueueState, main: QueueState, done: seq<Receipt>,
                  keep: seq<Receipt>, res: RedriveResult, copies: seq<Message>, all: bool, m: Receipt, at: int)
    requires Progress(held, main0, dlq, main, done, keep, res, copies, all, false)
    requires (all || !Permanent(m)) && m.id in held.messages && SameButReceived(held.messages[m.id], m.message)
    ensures var sent, more := Sent(main, CopyOf(m, at)), copies + [CopyOf(m, at)];
            && Transferred(held, main0, dlq, sent, all) && AllCopied(sent, res.moved) && Copied(sent, m.message)
            && sent == AllSent(main0, more) && CopiesOf(more, res.moved + [m])
            && Progress(held, main0, Deleted(dlq, m), sent, done + [m], keep, res.(moved := res.moved + [m]), more, all, false)
  {
    hide Transferred, OnlyMovedLeft, AllSent, CopiesOf, Divided, Settled, Copied, CopyOf, Sent;
    assert Sound(main) by { TransferredIsSound(held, main0, dlq, main, all); }
    SendKeeps(held, main0, dlq, main, all, m, at);
    DeleteKeeps(held, main0, dlq, Sent(main, CopyOf(m, at)), all, m);
    SettledMore(dlq, done, keep, m, false);
    MovedStayCopied(main, CopyOf(m, at), res.moved);
    DividedMore(done, res, all, m);
    SentMore(main0, copies, res.moved, m, at);
    LeftMore(held, dlq, res.moved, m);
    forall x | x in res.moved + [m] ensures x in res.moved || x == m {
    }
  }

  lemma TransferredIsSound(held: QueueState, main0: QueueState, dlq: QueueState, main: QueueState, all: bool)
    requires Transferred(held, main0, dlq, main, all)
    ensures Sound(main)
  {
  }

  /** Releasing these settles every message, apart from `stuck`. */
  ghost predicate Releasable(dlq: QueueState, msgs: seq<Receipt>, released: seq<Receipt>, stuck: Option<string>) {
    && (forall r :: r in msgs ==> Some(r.id) == stuck || r in released || !Current(dlq, r))
    && (forall r :: r in released ==> r in msgs && Some(r.id) != stuck)
    && (stuck.Some? ==> Holds(msgs, stuck.value))
  }

  method LetRestGo(dlq: Queue, released: seq<Receipt>, fails: set<string>, ghost before: QueueState, ghost main0: QueueState,
                   ghost held: QueueState, ghost main: QueueState, ghost msgs: seq<Receipt>, ghost stuck: Option<string>,
                   ghost all: bool, ghost holdsLast: bool)
    requires SameMessages(before, held) && Sound(main0)
    requires holdsLast ==> Held(before, held, msgs)
    requires holdsLast ==> dlq.hidden == held.hidden
    requires Transferred(held, main0, dlq.State(), main, all)
    requires Releasable(dlq.State(), msgs, released, stuck)
    modifies dlq
    ensures NothingLost(before, main0, dlq.State(), main, all)
    ensures dlq.messages == old(dlq.messages)
    ensures holdsLast ==> SeenAgain(before, dlq.State(), msgs, stuck, fails)
  {
    ghost var working := dlq.State();
    Release(dlq, released, fails);
    Ended(before, main0, held, working, dlq.State(), main, msgs, released, stuck, all, holdsLast, fails);
  }

  /** Send a copy, then delete: a message whose copy was not sent is untouched. */
  method MoveOne(dlq: Queue, main: Queue, m: Receipt, move: Move, ghost held: QueueState, ghost main0: QueueState,
                 ghost done: seq<Receipt>, ghost keep: seq<Receipt>, ghost res: RedriveResult, ghost copies: seq<Message>,
                 ghost all: bool)
    returns (sent: bool, deleted: bool)
    requires dlq != main && (all || !Permanent(m))
    requires m.id in held.messages && SameButReceived(held.messages[m.id], m.message)
    requires Progress(held, main0, dlq.State(), main.State(), done, keep, res, copies, all, false)
    modifies dlq, main
    ensures sent == move.sendWorks && deleted == (move.sendWorks && move.deleteWorks)
    ensures main.State() == if sent then Sent(old(main.State()), CopyOf(m, move.sentAt)) else old(main.State())
    ensures dlq.State() == if deleted then Deleted(old(dlq.State()), m) else old(dlq.State())
    ensures sent ==> Copied(main.State(), m.message)
    ensures var more := copies + [CopyOf(m, move.sentAt)];
            && (sent && !deleted ==> Transferred(held, main0, dlq.State(), main.State(), all) && AllCopied(main.State(), res.moved))
            && (sent ==> main.State() == AllSent(main0, more) && CopiesOf(more, res.moved + [m]))
            && (deleted ==> Progress(held, main0, dlq.State(), main.State(), done + [m], keep, res.(moved := res.moved + [m]),
                                     more, all, false))
  {
    hide Progress, Transferred, AllCopied, AllSent, CopiesOf, Copied;
    if !move.sendWorks {
      return false, false;
    }
    MovedMore(held, main0, dlq.State(), main.State(), done, keep, res, copies, all, m, move.sentAt);
    main.Send(CopyOf(m, move.sentAt));
    sent := true;
    deleted := dlq.Delete(m, move.deleteWorks);
  }

  /** After the look nothing has moved yet. */
  lemma LookedStarts(before: QueueState, main0: QueueState, held: QueueState, msgs: seq<Receipt>, all: bool, dryRun: bool)
    requires Looked(before, held, msgs) && Sound(main0)
    ensures SameMessages(before, held) && Transferred(held, main0, held, main0, all)
    ensures Progress(held, main0, held, main0, msgs[..0], [], RedriveResult([], [], false), [], all, dryRun)
    ensures forall r :: r in msgs ==> r.id in held.messages && SameButReceived(held.messages[r.id], r.message)
  {
    forall r | r in msgs ensures r.id in held.messages && SameButReceived(held.messages[r.id], r.message) {
      assert SameButReceived(before.messages[r.id], r.message);
    }
  }

  predicate AllWork(moves: nat -> Move, n: nat) {
    forall i :: 0 <= i < n ==> moves(i).sendWorks && moves(i).deleteWorks
  }

  /** Work through the messages that were looked at, up to the first that cannot be moved. `released` are the ones to
    * make visible again. */
  method MoveListed(dlq: Queue, main: Queue, msgs: seq<Receipt>, moves: nat -> Move, all: bool, dryRun: bool,
                    ghost before: QueueState, ghost holdsLast: bool)
    returns (res: RedriveResult, released: seq<Receipt>, ghost stuck: Option<string>, ghost handled: nat, ghost copies: seq<Message>)
    requires dlq != main && Sound(main.State()) && Looked(before, dlq.State(), msgs)
    requires holdsLast ==> forall i: nat :: moves(i).expired == {}
    modifies dlq, main
    ensures Transferred(old(dlq.State()), old(main.State()), dlq.State(), main.State(), all)
    ensures Releasable(dlq.State(), msgs, released, stuck)
    ensures holdsLast ==> dlq.hidden == old(dlq.hidden)
    ensures dryRun ==> handled == |msgs| && !res.failed && stuck == None
    ensures !dryRun ==> StoppedAt(msgs, moves, all, res, stuck, handled)
    ensures handled <= |msgs| && Divided(msgs[..handled], res.moved, res.skipped, all)
    ensures !dryRun ==> AllCopied(main.State(), res.moved) && Gone(old(dlq.State()), dlq.messages.Keys, res.moved)
    ensures !dryRun ==> main.State() == AllSent(old(main.State()), copies)
                        && CopiesOf(copies, Attempted(msgs, res.moved, stuck, handled))
    ensures OnlyMovedLeft(old(dlq.messages.Keys), dlq.messages.Keys, if dryRun then [] else res.moved)
    ensures dryRun ==> dlq.messages == old(dlq.messages) && main.State() == old(main.State())
  {
    hide Progress, Transferred, Settled, Divided, AllCopied, Gone, Releasable, SameMessages, SameButReceived, Sound, Looked,
         AllSent, CopiesOf, CopyOf, OnlyMovedLeft, Copied, Deleted, Sent, MovesWorked, StoppedAt;
    ghost var main0, held := main.State(), dlq.State();
    LookedStarts(before, main0, held, msgs, all, dryRun);
    LookedIsDistinct(before, held, msgs);
    res, stuck, copies, handled := RedriveResult([], [], false), None, [], |msgs|;
    var keep: seq<Receipt> := [];
    NoneWorked(moves, all);
    for i := 0 to |msgs|
      invariant !res.failed && stuck == None && handled == |msgs|
      invariant Progress(held, main0, dlq.State(), main.State(), msgs[..i], keep, res, copies, all, dryRun)
      invariant forall r :: r in keep ==> r in msgs[..i]
      invariant dryRun || MovesWorked(msgs[..i], moves, all)
      invariant holdsLast ==> dlq.hidden == held.hidden
    {
      var m := msgs[i];
      ExpiryKeepsProgress(held, main0, dlq.State(), main.State(), msgs[..i], keep, res, copies, all, dryRun, moves(i).expired);
      dlq.ExpireHolds(moves(i).expired);
      assert m in msgs && msgs[..i + 1] == msgs[..i] + [m];
      ghost var working := dlq.State();
      WorkedMore(msgs[..i], moves, all, m);
      ProgressMeans(held, main0, working, main.State(), msgs[..i], keep, res, copies, all, dryRun);
      if (Permanent(m) && !all) || dryRun {
        KeptMore(held, main0, working, main.State(), msgs[..i], keep, res, copies, all, dryRun, m);
        res := if Permanent(m) && !all then res.(skipped := res.skipped + [m]) else res.(moved := res.moved + [m]);
        keep := keep + [m];
        continue;
      }
      var sent, deleted := MoveOne(dlq, main, m, moves(i), held, main0, msgs[..i], keep, res, copies, all);
      DeletedHides(working, m);
      if sent {
        copies := copies + [CopyOf(m, moves(i).sentAt)];
      }
      if !deleted {
        handled, stuck, res := i, if sent then Some(m.id) else None, res.(failed := true);
        StopsHere(msgs, moves, all, res, stuck, i);
        RestIsSettled(working, msgs, i, keep);
        RestButOneIsSettled(working, msgs, i, keep);
        released := if sent then keep + msgs[i + 1..] else keep + msgs[i..];
        return;
      }
      res := res.(moved := res.moved + [m]);
    }
    assert msgs[..|msgs|] == msgs && keep + msgs[|msgs|..] == keep;
    if !dryRun {
      StopsAtTheEnd(msgs, moves, all, res);
    }
    ProgressMeans(held, main0, dlq.State(), main.State(), msgs, keep, res, copies, all, dryRun);
    RestIsSettled(dlq.State(), msgs, |msgs|, keep);
    released := keep;
  }

  lemma NoneWorked(moves: nat -> Move, all: bool)
    ensures MovesWorked([], moves, all)
  {
  }

  lemma WorkedMore(done: seq<Receipt>, moves: nat -> Move, all: bool, m: Receipt)
    ensures MovesWorked(done, moves, all) && (!(all || !Permanent(m)) || (moves(|done|).sendWorks && moves(|done|).deleteWorks))
            ==> MovesWorked(done + [m], moves, all)
  {
  }

  lemma StopsHere(msgs: seq<Receipt>, moves: nat -> Move, all: bool, res: RedriveResult, stuck: Option<string>, i: nat)
    requires i < |msgs| && MovesWorked(msgs[..i], moves, all) && res.failed && (all || !Permanent(msgs[i]))
    requires !(moves(i).sendWorks && moves(i).deleteWorks)
    requires stuck == if moves(i).sendWorks then Some(msgs[i].id) else None
    ensures StoppedAt(msgs, moves, all, res, stuck, i)
  {
  }

  lemma StopsAtTheEnd(msgs: seq<Receipt>, moves: nat -> Move, all: bool, res: RedriveResult)
    requires MovesWorked(msgs, moves, all) && !res.failed
    ensures StoppedAt(msgs, moves, all, res, None, |msgs|)
  {
    assert msgs[..|msgs|] == msgs;
  }

  lemma DeletedHides(dlq: QueueState, m: Receipt)
    ensures Deleted(dlq, m).hidden == dlq.hidden
  {
  }

  lemma ProgressMeans(held: QueueState, main0: QueueState, dlq: QueueState, main: QueueState, done: seq<Receipt>,
                      keep: seq<Receipt>, res: RedriveResult, copies: seq<Message>, all: bool, dryRun: bool)
    requires Progress(held, main0, dlq, main, done, keep, res, copies, all, dryRun)
    ensures Transferred(held, main0, dlq, main, all) && Settled(dlq, done, keep) && Divided(done, res.moved, res.skipped, all)
    ensures dryRun ==> dlq.messages == held.messages && main == main0 && OnlyMovedLeft(held.messages.Keys, dlq.messages.Keys, [])
    ensures !dryRun ==> AllCopied(main, res.moved) && Gone(held, dlq.messages.Keys, res.moved)
    ensures !dryRun ==> OnlyMovedLeft(held.messages.Keys, dlq.messages.Keys, res.moved)
    ensures !dryRun ==> main == AllSent(main0, copies) && CopiesOf(copies, res.moved + [])
  {
    assert res.moved + [] == res.moved;
  }

  lemma NothingSent(main: QueueState)
    ensures AllSent(main, []) == main && CopiesOf([], [])
  {
  }

  lemma LookedIsDistinct(before: QueueState, held: QueueState, msgs: seq<Receipt>)
    requires Looked(before, held, msgs)
    ensures DistinctIds(msgs) && SameMessages(before, held)
    ensures forall r :: r in msgs ==> r.id in before.messages && SameButReceived(before.messages[r.id], r.message)
    ensures forall id :: id in held.messages <==> id in before.messages
  {
  }

  /** Every message that could be seen and may move has left, and its copy is on the main queue. */
  ghost predicate AllMoved(before: QueueState, dlq: QueueState, main: QueueState, all: bool) {
    forall id :: Visible(before, id) && (all || before.messages[id].reason == "") ==>
      id !in dlq.messages && Copied(main, before.messages[id])
  }

  /** Move dead letters back to the main queue, each deleted only after its copy was sent. */
  method Redrive(dlq: Queue, main: Queue, calls: seq<Call>, moves: nat -> Move, all: bool, dryRun: bool, fails: set<string>)
    returns (res: RedriveResult, ghost seen: seq<Receipt>, ghost looked: bool, ghost stuck: Option<string>, ghost handled: nat,
             ghost copies: seq<Message>)
    requires dlq != main && Sound(main.State())
    modifies dlq, main
    ensures NothingLost(old(dlq.State()), old(main.State()), dlq.State(), main.State(), all)
    ensures Shows(old(dlq.State()), seen)
    ensures (forall c :: c in calls ==> !c.fails) ==> looked
    ensures !looked ==> res == RedriveResult([], [], true) && stuck == None && handled == 0 && copies == []
    ensures handled <= |seen| && Divided(seen[..handled], res.moved, res.skipped, all)
    ensures looked && !dryRun ==> StoppedAt(seen, moves, all, res, stuck, handled)
    ensures !dryRun ==> main.State() == AllSent(old(main.State()), copies)
                        && CopiesOf(copies, Attempted(seen, res.moved, stuck, handled))
    ensures !dryRun ==> AllCopied(main.State(), res.moved)
    ensures OnlyMovedLeft(old(dlq.messages.Keys), dlq.messages.Keys, if dryRun then [] else res.moved)
    ensures !dryRun && HoldsLast(calls) ==> forall r :: r in res.moved ==> r.id !in dlq.messages
    ensures dryRun ==> dlq.messages.Keys == old(dlq.messages.Keys) && main.State() == old(main.State())
    ensures dryRun && looked ==> handled == |seen| && !res.failed && stuck == None
    ensures AllHoldsLast(calls, moves) ==> SeenAgain(old(dlq.State()), dlq.State(), seen, stuck, fails)
    ensures Thorough(calls, old(dlq.messages.Keys)) ==> |seen| >= REDRIVE_LIMIT || SawAll(old(dlq.State()), seen)
    ensures Thorough(calls, old(dlq.messages.Keys)) && |seen| < REDRIVE_LIMIT && !dryRun && AllWork(moves, |seen|) ==>
              AllMoved(old(dlq.State()), dlq.State(), main.State(), all)
  {
    hide Settled, Divided, AllCopied, NothingLost, SeenAgain, Releasable, SameMessages, SameButReceived, Sound, Looked,
         Transferred, AllMoved, SawAll, Held, Gone, AllSent, CopiesOf, OnlyMovedLeft, Shows;
    ghost var before, main0 := dlq.State(), main.State();
    var msgs, ok := Peek(dlq, REDRIVE_LIMIT, calls);
    ghost var held := dlq.State();
    seen, looked := msgs, ok;
    LookedIsDistinct(before, held, msgs);
    LookShows(before, held, msgs);
    if !ok {
      res, stuck, handled, copies := RedriveResult([], [], true), None, 0, [];
      LookedStarts(before, main0, held, msgs, all, dryRun);
      NothingSent(main0);
      NothingDivided(all);
      assert msgs[..0] == [] && Attempted(msgs, [], None, 0) == [];
      RestIsSettled(held, msgs, 0, []);
      LetRestGo(dlq, [] + msgs[0..], fails, before, main0, held, main0, msgs, None, all, AllHoldsLast(calls, moves));
      NothingCopied(main0, held, dlq.State());
      NothingLeft(before.messages.Keys);
      return;
    }
    var released;
    res, released, stuck, handled, copies := MoveListed(dlq, main, msgs, moves, all, dryRun, before, AllHoldsLast(calls, moves));
    LetRestGo(dlq, released, fails, before, main0, held, main.State(), msgs, stuck, all, AllHoldsLast(calls, moves));
    assert held.messages.Keys == before.messages.Keys;
    if HoldsLast(calls) {
      HeldIsCurrent(before, held, msgs);
      if !dryRun {
        MovedWereSeen(msgs, res, all, handled);
        MovedAreGone(held, dlq.State(), msgs, res.moved);
        if AllWork(moves, |msgs|) && SawAll(before, msgs) {
          assert handled == |msgs| && msgs[..handled] == msgs;
          SeenAreMoved(before, held, main0, dlq.State(), main.State(), msgs, res, all);
        }
      }
    }
  }

  /** Distinct messages of the queue, as they are apart from their receive counts. */
  ghost predicate Shows(before: QueueState, seen: seq<Receipt>) {
    DistinctIds(seen) && forall r :: r in seen ==> r.id in before.messages && SameButReceived(before.messages[r.id], r.message)
  }

  lemma LookShows(before: QueueState, held: QueueState, msgs: seq<Receipt>)
    requires Looked(before, held, msgs)
    ensures Shows(before, msgs)
  {
  }

  lemma NothingLeft(ids: set<string>)
    ensures OnlyMovedLeft(ids, ids, [])
  {
  }

  lemma NothingDivided(all: bool)
    ensures Divided([], [], [], all)
  {
  }

  lemma MovedWereSeen(msgs: seq<Receipt>, res: RedriveResult, all: bool, handled: nat)
    requires handled <= |msgs| && Divided(msgs[..handled], res.moved, res.skipped, all)
    ensures forall r :: r in res.moved ==> r in msgs
  {
  }

  lemma NothingCopied(main: QueueState, held: QueueState, dlq: QueueState)
    ensures AllCopied(main, []) && Gone(held, dlq.messages.Keys, [])
  {
  }

  lemma HeldIsCurrent(before: QueueState, held: QueueState, msgs: seq<Receipt>)
    requires Held(before, held, msgs)
    ensures forall r :: r in msgs ==> Current(held, r)
  {
  }

  lemma MovedAreGone(held: QueueState, dlq: QueueState, msgs: seq<Receipt>, moved: seq<Receipt>)
    requires Gone(held, dlq.messages.Keys, moved) && (forall r :: r in moved ==> r in msgs) && forall r :: r in msgs ==> Current(held, r)
    ensures forall r :: r in moved ==> r.id !in dlq.messages
  {
  }

  lemma SeenAreMoved(before: QueueState, held: QueueState, main0: QueueState, dlq: QueueState, main: QueueState,
                     msgs: seq<Receipt>, res: RedriveResult, all: bool)
    requires Looked(before, held, msgs) && SawAll(before, msgs) && Divided(msgs, res.moved, res.skipped, all)
    requires NothingLost(before, main0, dlq, main, all) && forall r :: r in res.moved ==> r.id !in dlq.messages
    ensures AllMoved(before, dlq, main, all)
  {
    hide OnlyGrows, Copied;
    forall id | Visible(before, id) && (all || before.messages[id].reason == "")
      ensures id !in dlq.messages && Copied(main, before.messages[id])
    {
      var r :| r in msgs && r.id == id;
      assert SameButReceived(before.messages[id], r.message);
      assert r in res.moved;
    }
  }

  lemma MovedStayCopied(main: QueueState, m: Message, moved: seq<Receipt>)
    requires Sound(main) && AllCopied(main, moved)
    ensures AllCopied(Sent(main, m), moved)
  {
    SentIsFresh(main, m);
    forall r | r in moved ensures Copied(Sent(main, m), r.message) {
      var id :| id in main.messages && main.messages[id].body == r.message.body && main.messages[id].eventKey == r.message.eventKey;
      assert id in Sent(main, m).messages;
    }
  }

  lemma RestIsSettled(dlq: QueueState, msgs: seq<Receipt>, i: nat, keep: seq<Receipt>)
    requires i <= |msgs| && Settled(dlq, msgs[..i], keep) && forall r :: r in keep ==> r in msgs[..i]
    ensures Releasable(dlq, msgs, keep + msgs[i..], None)
  {
    forall r | r in msgs ensures r in msgs[..i] || r in msgs[i..] {
      var k :| 0 <= k < |msgs| && msgs[k] == r;
      assert if k < i then r == msgs[..i][k] else r == msgs[i..][k - i];
    }
  }

  lemma RestButOneIsSettled(dlq: QueueState, msgs: seq<Receipt>, i: nat, keep: seq<Receipt>)
    requires i < |msgs| && Settled(dlq, msgs[..i], keep) && forall r :: r in keep ==> r in msgs[..i]
    requires DistinctIds(msgs)
    ensures Releasable(dlq, msgs, keep + msgs[i + 1..], Some(msgs[i].id))
  {
    assert msgs[i] in msgs;
    forall r | r in msgs ensures r in msgs[..i] || r in msgs[i + 1..] || r == msgs[i] {
      var k :| 0 <= k < |msgs| && msgs[k] == r;
      assert k < i ==> r == msgs[..i][k];
      assert k > i ==> r == msgs[i + 1..][k - i - 1];
    }
  }

  /** After the last release nothing is lost, and with lasting holds everything still on the queue is as visible as
    * before, apart from the one message that was neither kept nor spent and from releases that failed. */
  lemma Ended(before: QueueState, main0: QueueState, held: QueueState, working: QueueState, after: QueueState,
              main: QueueState, msgs: seq<Receipt>, released: seq<Receipt>, stuck: Option<string>, all: bool,
              holdsLast: bool, fails: set<string>)
    requires SameMessages(before, held) && Sound(main0)
    requires holdsLast ==> Held(before, held, msgs) && working.hidden == held.hidden
    requires Transferred(held, main0, working, main, all)
    requires Releasable(working, msgs, released, stuck)
    requires LetGo(working, after, released, fails)
    ensures NothingLost(before, main0, after, main, all)
    ensures holdsLast ==> SeenAgain(before, after, msgs, stuck, fails)
  {
    if holdsLast {
      forall id | id in after.messages
        ensures id in after.hidden <==> id in before.hidden || stuck == Some(id) || (id in fails && Holds(msgs, id))
      {
        if Holds(msgs, id) {
          var r :| r in msgs && r.id == id;
          assert Current(working, r);
        }
      }
    }
  }

  /** Holds that run out change nothing but what can be seen. */
  lemma ExpiryKeepsProgress(held: QueueState, main0: QueueState, dlq: QueueState, main: QueueState, done: seq<Receipt>,
                            keep: seq<Receipt>, res: RedriveResult, copies: seq<Message>, all: bool, dryRun: bool,
                            ids: set<string>)
    requires Progress(held, main0, dlq, main, done, keep, res, copies, all, dryRun)
    ensures Progress(held, main0, dlq.(hidden := dlq.hidden - ids), main, done, keep, res, copies, all, dryRun)
  {
    hide Divided, AllCopied, OnlyGrows, Copied, AllSent, CopiesOf;
  }
}
