/** A message queue: visible and hidden messages, receipts that go stale, and fresh ids. */
module Queues {
  import opened Calendar
  import opened Decimals
  import opened Mapping

  /** `reason` is empty unless the worker parked the message. */
  datatype Message = Message(body: Body, eventKey: string, reason: string, sentAt: int, received: nat)

  /** One delivery of a message; the receipt is good until the next delivery. */
  datatype Receipt = Receipt(id: string, message: Message, number: nat)

  /** `receipts` holds the newest receipt of each message that was ever delivered. */
  datatype QueueState = QueueState(
    messages: map<string, Message>,
    hidden: set<string>,
    receipts: map<string, nat>,
    issued: nat)

  function Id(n: nat): string {
    DigitsOf(n)
  }

  predicate Known(n: nat, id: string) {
    id == Id(n)
  }

  /** Ids and receipts were all handed out by this queue. */
  ghost predicate Sound(q: QueueState) {
    && (forall id :: id in q.messages ==> exists n: nat :: n < q.issued && Known(n, id))
    && (forall id :: id in q.receipts ==> q.receipts[id] < q.issued)
    && (forall a, b :: a in q.receipts && b in q.receipts && q.receipts[a] == q.receipts[b] ==> a == b)
  }

  function Sent(q: QueueState, m: Message): QueueState {
    q.(messages := q.messages[Id(q.issued) := m], issued := q.issued + 1)
  }

  lemma SentIsFresh(q: QueueState, m: Message)
    requires Sound(q)
    ensures Id(q.issued) !in q.messages && Sound(Sent(q, m))
  {
    forall n: nat | n < q.issued ensures !Known(n, Id(q.issued)) {
      assert NatOf(Id(n)) == n && NatOf(Id(q.issued)) == q.issued;
    }
    var t := Sent(q, m);
    forall id | id in t.messages ensures exists n: nat :: n < t.issued && Known(n, id) {
      if id == Id(q.issued) {
        assert Known(q.issued, id);
      } else {
        var n: nat :| n < q.issued && Known(n, id);
      }
    }
  }

  predicate Visible(q: QueueState, id: string) {
    id in q.messages && id !in q.hidden
  }

  /** Deliver one visible message: it hides, and its older receipts go stale. */
  function Received(q: QueueState, id: string): (QueueState, Receipt)
    requires Visible(q, id)
  {
    var m := q.messages[id].(received := q.messages[id].received + 1);
    (QueueState(q.messages[id := m], q.hidden + {id}, q.receipts[id := q.issued], q.issued + 1), Receipt(id, m, q.issued))
  }

  function ReceivedAll(q: QueueState, pick: seq<string>, max: nat): (QueueState, seq<Receipt>) {
    if pick == [] then (q, [])
    else
      var (t, batch) := ReceivedAll(q, pick[..|pick| - 1], max);
      var id := pick[|pick| - 1];
      if |batch| < max && Visible(t, id) then (Received(t, id).0, batch + [Received(t, id).1]) else (t, batch)
  }

  predicate Current(q: QueueState, r: Receipt) {
    r.id in q.messages && r.id in q.receipts && q.receipts[r.id] == r.number
  }

  /** Delete through a receipt: a stale one deletes nothing. */
  function Deleted(q: QueueState, r: Receipt): QueueState {
    if Current(q, r) then q.(messages := q.messages - {r.id}) else q
  }

  /** Make a held message visible again: a stale receipt changes nothing. */
  function Released(q: QueueState, r: Receipt): QueueState {
    if Current(q, r) then q.(hidden := q.hidden - {r.id}) else q
  }

  class Queue {
    var messages: map<string, Message>
    var hidden: set<string>
    var receipts: map<string, nat>
    var issued: nat

    constructor ()
      ensures State() == QueueState(map[], {}, map[], 0) && Sound(State())
    {
      messages, hidden, receipts, issued := map[], {}, map[], 0;
    }

    function State(): QueueState
      reads this
    {
      QueueState(messages, hidden, receipts, issued)
    }

    method Send(m: Message)
      modifies this
      ensures State() == Sent(old(State()), m)
    {
      messages := messages[Id(issued) := m];
      issued := issued + 1;
    }

    /** Deliver up to `max` of the messages the service picks; a pick that is not visible is passed over. */
    method Receive(pick: seq<string>, max: nat) returns (batch: seq<Receipt>)
      modifies this
      ensures (State(), batch) == ReceivedAll(old(State()), pick, max)
    {
      batch := [];
      for i := 0 to |pick|
        invariant (State(), batch) == ReceivedAll(old(State()), pick[..i], max)
      {
        assert pick[..i + 1][..i] == pick[..i];
        if |batch| < max && pick[i] in messages && pick[i] !in hidden {
          var m := messages[pick[i]].(received := messages[pick[i]].received + 1);
          messages := messages[pick[i] := m];
          hidden := hidden + {pick[i]};
          receipts := receipts[pick[i] := issued];
          batch := batch + [Receipt(pick[i], m, issued)];
          issued := issued + 1;
        }
      }
      assert pick[..|pick|] == pick;
    }

    /** Time passes: these holds run out. */
    method ExpireHolds(ids: set<string>)
      modifies this
      ensures State() == old(State()).(hidden := old(hidden) - ids)
    {
      hidden := hidden - ids;
    }

    method Delete(r: Receipt, works: bool) returns (ok: bool)
      modifies this
      ensures ok == works
      ensures State() == if works then Deleted(old(State()), r) else old(State())
    {
      if works && r.id in messages && r.id in receipts && receipts[r.id] == r.number {
        messages := messages - {r.id};
      }
      return works;
    }

    method ChangeVisibilityToZero(r: Receipt, works: bool)
      modifies this
      ensures State() == if works then Released(old(State()), r) else old(State())
    {
      if works && r.id in messages && r.id in receipts && receipts[r.id] == r.number {
        hidden := hidden - {r.id};
      }
    }
  }

  predicate SameButReceived(a: Message, b: Message) {
    a == b.(received := a.received)
  }

  ghost predicate Holds(batch: seq<Receipt>, id: string) {
    exists r :: r in batch && r.id == id
  }

  /** The same messages, give or take their receive counts. */
  ghost predicate SameMessages(before: QueueState, after: QueueState) {
    && after.messages.Keys == before.messages.Keys
    && (forall id :: id in before.messages ==> SameButReceived(before.messages[id], after.messages[id]))
  }

  /** Exactly the delivered messages are newly hidden and have new receipts. */
  ghost predicate OnlyHides(before: QueueState, after: QueueState, batch: seq<Receipt>) {
    && (forall id :: id in after.hidden <==> id in before.hidden || Holds(batch, id))
    && (forall id :: !Holds(batch, id) ==>
         (id in before.receipts <==> id in after.receipts) && (id in before.receipts ==> after.receipts[id] == before.receipts[id]))
  }

  /** Each delivery was of a visible message, and its receipt is current. */
  ghost predicate Fresh(before: QueueState, after: QueueState, batch: seq<Receipt>) {
    && (forall r :: r in batch ==> Visible(before, r.id) && Current(after, r) && after.messages[r.id] == r.message)
    && (forall i, j :: 0 <= i < j < |batch| ==> batch[i].id != batch[j].id)
  }

  /** Distinct visible messages are delivered, become hidden, and nothing else changes. */
  lemma {:induction false} ReceivedAllDelivers(q: QueueState, pick: seq<string>, max: nat)
    ensures var (t, batch) := ReceivedAll(q, pick, max);
            && |batch| <= max && SameMessages(q, t) && OnlyHides(q, t, batch) && Fresh(q, t, batch)
            && (Sound(q) ==> Sound(t))
  {
    if pick != [] {
      ReceivedAllDelivers(q, pick[..|pick| - 1], max);
      var (t, batch) := ReceivedAll(q, pick[..|pick| - 1], max);
      var id := pick[|pick| - 1];
      if |batch| < max && Visible(t, id) {
        HidesMore(q, t, batch, id);
        FreshMore(q, t, batch, id);
        SoundMore(t, id);
      }
    }
  }

  /** A delivery counts one more receive, and only that. */
  lemma {:induction false} ReceivedCounts(q: QueueState, pick: seq<string>, max: nat)
    ensures var (t, batch) := ReceivedAll(q, pick, max);
            forall id :: id in q.messages ==>
              id in t.messages
              && t.messages[id] == if Holds(batch, id) then q.messages[id].(received := q.messages[id].received + 1) else q.messages[id]
  {
    if pick != [] {
      var init, id := pick[..|pick| - 1], pick[|pick| - 1];
      ReceivedCounts(q, init, max);
      ReceivedAllDelivers(q, init, max);
      var (t, batch) := ReceivedAll(q, init, max);
      if |batch| < max && Visible(t, id) {
        HoldsMore(batch, Received(t, id).1);
        assert !Holds(batch, id);
      }
    }
  }

  /** A receive comes back empty only when nothing it was offered is visible. */
  lemma {:induction false} ReceivesWhatItCan(q: QueueState, pick: seq<string>, max: nat)
    ensures var (t, batch) := ReceivedAll(q, pick, max);
            |batch| < max ==> forall id :: id in pick ==> !Visible(t, id)
  {
    if pick != [] {
      var init := pick[..|pick| - 1];
      ReceivesWhatItCan(q, init, max);
      assert pick == init + [pick[|pick| - 1]];
    }
  }

  lemma HoldsMore(batch: seq<Receipt>, r: Receipt)
    ensures forall x :: Holds(batch + [r], x) <==> Holds(batch, x) || x == r.id
  {
    var more := batch + [r];
    assert more[|batch|] == r;
    forall x ensures Holds(more, x) <==> Holds(batch, x) || x == r.id {
      if Holds(batch, x) {
        var y :| y in batch && y.id == x;
        assert y in more;
      }
    }
  }

  lemma HidesMore(q: QueueState, t: QueueState, batch: seq<Receipt>, id: string)
    requires OnlyHides(q, t, batch) && Visible(t, id)
    ensures OnlyHides(q, Received(t, id).0, batch + [Received(t, id).1])
  {
    HoldsMore(batch, Received(t, id).1);
  }

  lemma FreshMore(q: QueueState, t: QueueState, batch: seq<Receipt>, id: string)
    requires SameMessages(q, t) && OnlyHides(q, t, batch) && Fresh(q, t, batch) && Visible(t, id)
    ensures Fresh(q, Received(t, id).0, batch + [Received(t, id).1])
  {
    var more := batch + [Received(t, id).1];
    forall i | 0 <= i < |batch| ensures batch[i].id != id {
      assert batch[i] in batch;
      assert Holds(batch, batch[i].id);
    }
    forall r | r in more && r != Received(t, id).1 ensures r in batch && r.id != id {
      var i :| 0 <= i < |more| && more[i] == r;
      assert r == batch[i];
    }
  }

  lemma SoundMore(t: QueueState, id: string)
    requires Visible(t, id)
    ensures Sound(t) ==> Sound(Received(t, id).0)
  {
    if Sound(t) {
      var u := Received(t, id).0;
      forall x | x in u.messages ensures exists n: nat :: n < u.issued && Known(n, x) {
        var n: nat :| n < t.issued && Known(n, x);
      }
    }
  }
}
