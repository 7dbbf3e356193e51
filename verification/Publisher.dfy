/** Sending events to the queue ten at a time, under failures of single entries and of whole requests. */
module Publisher {
  import opened Prelude
  import opened Events

  const BATCH := 10

  /** One entry the queue lists as failed, by the id the sender gave it. */
  datatype FailedEntry = Entry(index: int) | UnreadableId

  /** The answer to one batch. A refused request may still have stored any of its entries. */
  datatype Reply = Refused(stored: set<nat>) | Answered(failed: seq<FailedEntry>)

  /** The whole batch was stored and nothing was reported. */
  predicate Clean(r: Reply) {
    r == Answered([])
  }

  /** The lowest index reported, capped at `size`. */
  function Lowest(failed: seq<FailedEntry>, size: nat): (n: int)
    requires UnreadableId !in failed
    ensures n <= size && (n == size || Entry(n) in failed) && forall f :: f in failed ==> n <= f.index
  {
    if failed == [] then size
    else
      var so := Lowest(failed[..|failed| - 1], size);
      if failed[|failed| - 1].index < so then failed[|failed| - 1].index else so
  }

  /** How much of one batch the sender counts as sent. */
  function SentOf(r: Reply, size: nat): (n: int)
    ensures n <= size
  {
    if r.Refused? || UnreadableId in r.failed then 0 else Lowest(r.failed, size)
  }

  /** A reply that reports failures, none of them of an entry of the batch. */
  predicate NamesOnlyStrangers(r: Reply, size: nat) {
    r.Answered? && r.failed != [] && forall f :: f in r.failed ==> f.Entry? && f.index >= size
  }

  /** Was entry `i` stored? */
  predicate Accepted(r: Reply, i: nat) {
    match r
    case Refused(stored) => i in stored
    case Answered(failed) => Entry(i) !in failed
  }

  /** The stored entries of a batch from entry `i` on, in order. */
  function StoredFrom(chunk: seq<Event>, r: Reply, i: nat): (s: seq<Event>)
    requires i <= |chunk|
    ensures forall e :: e in s ==> e in chunk[i..]
    decreases |chunk| - i
  {
    if i == |chunk| then []
    else (if Accepted(r, i) then [chunk[i]] else []) + StoredFrom(chunk, r, i + 1)
  }

  function Flatten(chunks: seq<seq<Event>>): seq<Event> {
    if chunks == [] then [] else Flatten(chunks[..|chunks| - 1]) + chunks[|chunks| - 1]
  }

  lemma {:induction false} StoredPrefix(chunk: seq<Event>, r: Reply, n: nat)
    requires n <= |chunk| && forall k: nat :: k < n ==> Accepted(r, k)
    ensures StoredFrom(chunk, r, 0) == chunk[..n] + StoredFrom(chunk, r, n)
  {
    if n > 0 {
      StoredPrefix(chunk, r, n - 1);
      assert chunk[..n] == chunk[..n - 1] + [chunk[n - 1]];
    }
  }

  class EventQueue {
    /** Everything stored so far, in order. */
    var stored: seq<Event>
    /** Every batch that was requested. */
    var batches: seq<seq<Event>>

    constructor ()
      ensures stored == [] && batches == []
    {
      stored, batches := [], [];
    }

    /** One request: the service takes at most ten entries. */
    method SendMessageBatch(chunk: seq<Event>, r: Reply)
      requires 0 < |chunk| <= BATCH
      modifies this
      ensures stored == old(stored) + StoredFrom(chunk, r, 0)
      ensures batches == old(batches) + [chunk]
    {
      stored := stored + StoredFrom(chunk, r, 0);
      batches := batches + [chunk];
    }
  }

  /** The `k`-th ten events. */
  function ChunkAt(evs: seq<Event>, k: nat): (c: seq<Event>)
    requires BATCH * k < |evs|
    ensures 0 < |c| <= BATCH
  {
    evs[BATCH * k..Min(BATCH * k + BATCH, |evs|)]
  }

  /** How much of `evs` is safely stored, and what else may have been. */
  ghost predicate SafePrefix(evs: seq<Event>, n: int, stored: seq<Event>) {
    && 0 <= n <= |evs|
    && evs[..n] <= stored
    && forall e :: e in stored[n..] ==> e in evs[n..]
  }

  /** The requests made since `before` ask for `evs`, in order, in batches the service takes. */
  ghost predicate Requested(before: seq<seq<Event>>, after: seq<seq<Event>>, evs: seq<Event>) {
    && before <= after
    && Flatten(after[|before|..]) == evs
    && forall i :: |before| <= i < |after| ==> 0 < |after[i]| <= BATCH
  }

  /** What a publish that has sent the first `k` batches returns. */
  function Count(evs: seq<Event>, replies: nat -> Reply, k: nat): (r: (int, bool))
    ensures r.0 <= |evs| && (r.1 ==> r.0 == |evs|)
    decreases |evs| - BATCH * k
  {
    if BATCH * k >= |evs| then (|evs|, true)
    else if Clean(replies(k)) then Count(evs, replies, k + 1)
    else (BATCH * k + SentOf(replies(k), |ChunkAt(evs, k)|), false)
  }

  /** No reply names a negative entry. */
  ghost predicate Countable(evs: seq<Event>, replies: nat -> Reply) {
    forall k: nat :: BATCH * k < |evs| ==> SentOf(replies(k), |ChunkAt(evs, k)|) >= 0
  }

  /** Send the events in order and return how many are safe to move past: all of the first `n` were stored. Later
    * events of the batch that failed may have been stored too. Only a negative entry id makes `n` negative. */
  method Publish(queue: EventQueue, evs: seq<Event>, replies: nat -> Reply)
    returns (n: int, ok: bool, ghost requested: nat)
    modifies queue
    ensures (n, ok) == Count(evs, replies, 0)
    ensures old(queue.stored) <= queue.stored
    ensures forall e :: e in queue.stored[|old(queue.stored)|..] ==> e in evs
    ensures n >= 0 ==> SafePrefix(evs, n, queue.stored[|old(queue.stored)|..])
    ensures ok ==> queue.stored == old(queue.stored) + evs
    ensures requested <= |evs| && Requested(old(queue.batches), queue.batches, evs[..requested])
    ensures |queue.stored| <= |old(queue.stored)| + requested
    ensures Countable(evs, replies) ==> n >= 0 && requested <= n + BATCH
  {
    hide Requested, SafePrefix, StoredFrom, SentOf, Count, ChunkAt, Clean;
    var k := 0;
    requested := 0;
    ghost var before, batches := queue.stored, queue.batches;
    NothingRequested(batches, evs);
    while BATCH * k < |evs|
      invariant k >= 0 && requested == Min(BATCH * k, |evs|)
      invariant queue.stored == before + evs[..requested]
      invariant Requested(batches, queue.batches, evs[..requested])
      invariant Count(evs, replies, 0) == Count(evs, replies, k)
    {
      var start := BATCH * k;
      var chunk := ChunkAt(evs, k);
      ChunkPlace(evs, k);
      CountStep(evs, replies, k);
      ghost var asked := queue.batches;
      var sent, done := SendChunk(queue, chunk, replies(k));
      RequestMore(batches, asked, evs[..start], chunk);
      ChunkSafe(evs, start, chunk, sent, StoredFrom(chunk, replies(k), 0));
      AddedSince(before, evs[..start], StoredFrom(chunk, replies(k), 0));
      requested := start + |chunk|;
      assert evs[..requested] == evs[..start] + chunk;
      if !done {
        return start + sent, false, requested;
      }
      assert before + (evs[..start] + chunk) == before + evs[..start] + chunk;
      k := k + 1;
    }
    CountStep(evs, replies, k);
    assert evs[..|evs|] == evs;
    AllSent(before, evs);
    return |evs|, true, |evs|;
  }

  lemma ChunkPlace(evs: seq<Event>, k: nat)
    requires BATCH * k < |evs|
    ensures var chunk := ChunkAt(evs, k);
            BATCH * k + |chunk| == Min(BATCH * (k + 1), |evs|) && chunk == evs[BATCH * k..BATCH * k + |chunk|]
  {
  }

  lemma CountStep(evs: seq<Event>, replies: nat -> Reply, k: nat)
    ensures Count(evs, replies, k) ==
              if BATCH * k >= |evs| then (|evs|, true)
              else if Clean(replies(k)) then Count(evs, replies, k + 1)
              else (BATCH * k + SentOf(replies(k), |ChunkAt(evs, k)|), false)
  {
  }

  lemma NothingRequested(batches: seq<seq<Event>>, evs: seq<Event>)
    ensures Requested(batches, batches, evs[..0])
  {
  }

  lemma AddedSince(before: seq<Event>, first: seq<Event>, more: seq<Event>)
    ensures (before + first + more)[|before|..] == first + more
  {
  }

  lemma AllSent(before: seq<Event>, evs: seq<Event>)
    ensures (before + evs)[|before|..] == evs && SafePrefix(evs, |evs|, evs)
  {
  }

  lemma RequestMore(before: seq<seq<Event>>, batches: seq<seq<Event>>, evs: seq<Event>, chunk: seq<Event>)
    requires Requested(before, batches, evs) && 0 < |chunk| <= BATCH
    ensures Requested(before, batches + [chunk], evs + chunk)
  {
    var t := (batches + [chunk])[|before|..];
    assert t == batches[|before|..] + [chunk];
    assert t[..|t| - 1] == batches[|before|..];
  }

  lemma TakeMore(evs: seq<Event>, start: nat, size: nat, n: nat)
    requires start + size <= |evs| && n <= size
    ensures evs[..start + n] == evs[..start] + evs[start..start + size][..n]
  {
  }

  lemma DropMore(front: seq<Event>, back: seq<Event>, n: nat)
    requires n <= |back|
    ensures (front + back)[|front| + n..] == back[n..]
  {
  }

  /** The batches before were stored whole, so a safe count in this batch is a safe count overall. A count below
    * zero still stops inside the events already stored, unless it runs past the first of them. */
  lemma ChunkSafe(evs: seq<Event>, start: nat, chunk: seq<Event>, sent: int, stored: seq<Event>)
    requires start + |chunk| <= |evs| && chunk == evs[start..start + |chunk|]
    requires sent <= |chunk| && (sent >= 0 ==> SafePrefix(chunk, sent, stored)) && forall e :: e in stored ==> e in chunk
    ensures forall e :: e in evs[..start] + stored ==> e in evs
    ensures start + sent >= 0 ==> SafePrefix(evs, start + sent, evs[..start] + stored)
  {
    var n, all := start + sent, evs[..start] + stored;
    if sent >= 0 {
      TakeMore(evs, start, |chunk|, sent);
      DropMore(evs[..start], stored, sent);
      forall e | e in stored[sent..] ensures e in evs[n..] {
        var i :| sent <= i < |chunk| && chunk[i] == e;
        assert evs[n..][i - sent] == e;
      }
    } else if n >= 0 {
      assert evs[..n] == all[..n];
      forall e | e in all[n..] ensures e in evs[n..] {
        var i :| n <= i < |all| && all[i] == e;
        if i < start {
          assert evs[n..][i - n] == e;
        } else {
          assert stored[i - start] == e && e in chunk;
          var j :| 0 <= j < |chunk| && chunk[j] == e;
          assert evs[n..][start + j - n] == e;
        }
      }
    }
  }

  /** One batch: `sent` is the index of its first failed entry, or its length. */
  method SendChunk(queue: EventQueue, chunk: seq<Event>, r: Reply) returns (sent: int, done: bool)
    requires 0 < |chunk| <= BATCH
    modifies queue
    ensures queue.stored == old(queue.stored) + StoredFrom(chunk, r, 0)
    ensures queue.batches == old(queue.batches) + [chunk]
    ensures sent == SentOf(r, |chunk|) && done == Clean(r)
    ensures sent >= 0 ==> SafePrefix(chunk, sent, StoredFrom(chunk, r, 0))
    ensures |StoredFrom(chunk, r, 0)| <= |chunk| && forall e :: e in StoredFrom(chunk, r, 0) ==> e in chunk
    ensures done ==> sent == |chunk| && StoredFrom(chunk, r, 0) == chunk
  {
    queue.SendMessageBatch(chunk, r);
    assert chunk[0..] == chunk;
    SentIsStored(chunk, r);
    StoredSize(chunk, r, 0);
    if r.Refused? {
      return 0, false;
    }
    if |r.failed| > 0 {
      sent := FirstFailed(r.failed, |chunk|);
      return sent, false;
    }
    return |chunk|, true;
  }

  lemma {:induction false} StoredSize(chunk: seq<Event>, r: Reply, i: nat)
    requires i <= |chunk|
    ensures |StoredFrom(chunk, r, i)| <= |chunk| - i
    decreases |chunk| - i
  {
    if i < |chunk| {
      StoredSize(chunk, r, i + 1);
    }
  }

  /** Everything below the count of a batch was stored. */
  lemma SentIsStored(chunk: seq<Event>, r: Reply)
    ensures SentOf(r, |chunk|) >= 0 ==> SafePrefix(chunk, SentOf(r, |chunk|), StoredFrom(chunk, r, 0))
    ensures Clean(r) ==> SentOf(r, |chunk|) == |chunk| && StoredFrom(chunk, r, 0) == chunk
  {
    hide Lowest;
    var n := SentOf(r, |chunk|);
    if n >= 0 {
      if n > 0 {
        forall k: nat | k < n ensures Accepted(r, k) {
          assert Entry(k) in r.failed ==> n <= k;
        }
      }
      StoredPrefix(chunk, r, n);
      assert StoredFrom(chunk, r, 0)[n..] == StoredFrom(chunk, r, n);
    }
    if Clean(r) {
      NothingFailed(|chunk|);
    }
  }

  lemma NothingFailed(size: nat)
    ensures Lowest([], size) == size
  {
  }

  /** The lowest failed entry, or 0 as soon as an id cannot be read. */
  method FirstFailed(failed: seq<FailedEntry>, size: nat) returns (first: int)
    requires |failed| > 0
    ensures first == SentOf(Answered(failed), size)
  {
    first := size;
    for i := 0 to |failed|
      invariant UnreadableId !in failed[..i] && first == Lowest(failed[..i], size)
    {
      assert failed[..i + 1][..i] == failed[..i] && failed[..i + 1] == failed[..i] + [failed[i]];
      if failed[i].UnreadableId? {
        assert failed[i] in failed;
        return 0;
      }
      if failed[i].index < first {
        first := failed[i].index;
      }
    }
    assert failed[..|failed|] == failed;
  }

  // ---- what the count is --------------------------------------------------------------

  /** Sending stops at batch `k`: the batches before were stored without a complaint, and this one was not. */
  ghost predicate StopsAt(evs: seq<Event>, replies: nat -> Reply, k: nat) {
    && BATCH * k < |evs| && (forall j: nat :: j < k ==> replies(j) == Answered([]))
    && replies(k) != Answered([])
  }

  /** `n` is the lowest index this reply reports, or the end of its batch of `size` when none is lower. */
  ghost predicate LowestReported(failed: seq<FailedEntry>, size: nat, n: int) {
    && (n == size || Entry(n) in failed) && n <= size
    && forall f :: f in failed ==> f.Entry? && n <= f.index
  }

  /** What the reply at which sending stopped makes of the count. */
  ghost predicate StoppedWith(evs: seq<Event>, r: Reply, k: nat, n: int) {
    var start, size := BATCH * k, Min(BATCH, |evs| - BATCH * k);
    if r.Refused? || UnreadableId in r.failed then n == start
    else size >= 0 && LowestReported(r.failed, size, n - start)
  }

  /** The count, from the replies alone. Nothing that was safely stored goes uncounted: where sending stops the count
    * is exactly the lowest entry the reply names, and the start of the batch only when the whole request was refused
    * or an id cannot be read. */
  lemma CountMeans(evs: seq<Event>, replies: nat -> Reply)
    ensures var (n, ok) := Count(evs, replies, 0);
            && (ok <==> forall k: nat :: BATCH * k < |evs| ==> replies(k) == Answered([]))
            && (ok ==> n == |evs|)
            && forall k: nat :: StopsAt(evs, replies, k) ==> StoppedWith(evs, replies(k), k, n)
  {
    CountMeansFrom(evs, replies, 0);
  }

  lemma {:induction false} CountMeansFrom(evs: seq<Event>, replies: nat -> Reply, k: nat)
    requires forall j: nat :: j < k ==> replies(j) == Answered([])
    ensures var (n, ok) := Count(evs, replies, k);
            && (ok <==> forall m: nat :: BATCH * m < |evs| ==> replies(m) == Answered([]))
            && (ok ==> n == |evs|)
            && forall m: nat :: StopsAt(evs, replies, m) ==> StoppedWith(evs, replies(m), m, n)
    decreases |evs| - BATCH * k
  {
    hide StoppedWith, SentOf, ChunkAt;
    if BATCH * k < |evs| {
      if Clean(replies(k)) {
        CountMeansFrom(evs, replies, k + 1);
      } else {
        StoppedMeans(evs, replies(k), k);
        assert forall m: nat :: StopsAt(evs, replies, m) ==> m == k;
      }
    } else {
      assert forall m: nat :: BATCH * m < |evs| ==> m < k;
    }
  }

  lemma StoppedMeans(evs: seq<Event>, r: Reply, k: nat)
    requires BATCH * k < |evs|
    ensures StoppedWith(evs, r, k, BATCH * k + SentOf(r, |ChunkAt(evs, k)|))
  {
    hide SentOf, LowestReported;
    SentOfMeans(r, |ChunkAt(evs, k)|);
  }

  lemma SentOfMeans(r: Reply, size: nat)
    ensures if r.Refused? || UnreadableId in r.failed then SentOf(r, size) == 0
            else LowestReported(r.failed, size, SentOf(r, size))
  {
  }

  // ---- when the count tells the truth -------------------------------------------------

  /** One batch's count is its length without the batch being clean exactly for strangers. */
  lemma StrangersLookComplete(r: Reply, size: nat)
    requires size > 0
    ensures !Clean(r) && SentOf(r, size) == size <==> NamesOnlyStrangers(r, size)
  {
    if r.Answered? && UnreadableId !in r.failed {
      var n := Lowest(r.failed, size);
      assert n == size || Entry(n) in r.failed;
    }
  }

  /** The last batch is reached and its reply names only strangers. */
  ghost predicate EndsWithStrangers(evs: seq<Event>, replies: nat -> Reply) {
    exists k: nat :: LastBatch(evs, k) && (forall j: nat :: j < k ==> Clean(replies(j)))
                     && NamesOnlyStrangers(replies(k), |ChunkAt(evs, k)|)
  }

  predicate LastBatch(evs: seq<Event>, k: nat) {
    BATCH * k < |evs| <= BATCH * k + BATCH
  }

  /** The count is the full length exactly when there was no error, unless the last reply names only strangers. */
  lemma CountIsExactUnlessStrangers(evs: seq<Event>, replies: nat -> Reply)
    ensures var (n, ok) := Count(evs, replies, 0);
            (ok <==> n == |evs|) <==> !EndsWithStrangers(evs, replies)
  {
    CountFrom(evs, replies, 0);
  }

  /** One stranger in the reply to the only batch is enough: everything counts as sent, with an error. */
  lemma OneStrangerMisleads(evs: seq<Event>)
    requires 0 < |evs| <= BATCH
    ensures Count(evs, k => Answered([Entry(|evs|)]), 0) == (|evs|, false)
  {
    StrangersLookComplete(Answered([Entry(|evs|)]), |evs|);
  }

  // ---- when the count is negative -------------------------------------------------------

  /** The first batch that is not clean, and its reply names an entry further before the batch than it has
    * predecessors. */
  ghost predicate NamesBeforeAll(evs: seq<Event>, replies: nat -> Reply, k: nat) {
    && BATCH * k < |evs| && (forall j: nat :: j < k ==> Clean(replies(j)))
    && replies(k).Answered? && UnreadableId !in replies(k).failed
    && exists f :: f in replies(k).failed && BATCH * k + f.index < 0
  }

  /** The exact condition: the count is negative, and the run panics, exactly when the reply the sending stops at has
    * only readable ids and one of them points before the first event. */
  lemma NegativeExactly(evs: seq<Event>, replies: nat -> Reply)
    ensures Count(evs, replies, 0).0 < 0 <==> exists k: nat :: NamesBeforeAll(evs, replies, k)
  {
    NegativeFrom(evs, replies, 0);
  }

  lemma {:induction false} NegativeFrom(evs: seq<Event>, replies: nat -> Reply, k: nat)
    requires forall j: nat :: j < k ==> Clean(replies(j))
    ensures Count(evs, replies, k).0 < 0 <==> exists m: nat :: NamesBeforeAll(evs, replies, m)
    decreases |evs| - BATCH * k
  {
    if BATCH * k < |evs| {
      if Clean(replies(k)) {
        NegativeFrom(evs, replies, k + 1);
      } else {
        LowestBelow(replies(k), |ChunkAt(evs, k)|, -(BATCH * k));
        assert NamesBeforeAll(evs, replies, k) <==> Count(evs, replies, k).0 < 0;
        forall m: nat | NamesBeforeAll(evs, replies, m) ensures m == k {
          assert m < k ==> Clean(replies(m));
        }
      }
    } else {
      assert forall m: nat :: BATCH * m < |evs| ==> m < k && Clean(replies(m));
    }
  }

  lemma LowestBelow(r: Reply, size: nat, bound: int)
    requires bound <= 0
    ensures SentOf(r, size) < bound <==>
              r.Answered? && UnreadableId !in r.failed && exists f :: f in r.failed && f.index < bound
  {
    if r.Answered? && UnreadableId !in r.failed {
      var n := Lowest(r.failed, size);
      assert n == size || Entry(n) in r.failed;
    }
  }

  /** One negative id in the first reply is enough. */
  lemma OneNegativeIdPanics(evs: seq<Event>, replies: nat -> Reply)
    requires evs != [] && replies(0) == Answered([Entry(-1)])
    ensures Count(evs, replies, 0) == (-1, false)
  {
    assert Lowest([Entry(-1)][..0], |ChunkAt(evs, 0)|) == |ChunkAt(evs, 0)|;
  }

  lemma {:induction false} CountFrom(evs: seq<Event>, replies: nat -> Reply, k: nat)
    requires forall j: nat :: j < k ==> Clean(replies(j))
    ensures var (n, ok) := Count(evs, replies, k);
            !ok && n == |evs| <==> EndsWithStrangers(evs, replies)
    decreases |evs| - BATCH * k
  {
    if BATCH * k < |evs| {
      if Clean(replies(k)) {
        CountFrom(evs, replies, k + 1);
      } else {
        var size := |ChunkAt(evs, k)|;
        StrangersLookComplete(replies(k), size);
        if SentOf(replies(k), size) == size && LastBatch(evs, k) {
          assert EndsWithStrangers(evs, replies);
        }
        if EndsWithStrangers(evs, replies) {
          var m: nat :| LastBatch(evs, m) && (forall j: nat :: j < m ==> Clean(replies(j)))
                        && NamesOnlyStrangers(replies(m), |ChunkAt(evs, m)|);
          assert m == k;
        }
      }
    } else {
      assert forall m: nat :: LastBatch(evs, m) ==> m < k && Clean(replies(m));
    }
  }
}
