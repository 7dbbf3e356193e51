/** The query engine's records: how they change, and what a query answers. */
module QueryEngine {
  import opened Prelude
  import opened Decimals
  import opened Sorting
  import opened Soql

  const WON_STAGE := "Closed Won"
  const LOST_STAGE := "Closed Lost"

  datatype Account = Account(id: string, name: Option<string>)

  /** Absent fields read as null. */
  datatype Opp = Opp(
    id: string,
    name: Option<string>,
    accountId: Option<string>,
    amount: Option<Decimal>,
    closeDate: Option<nat>,
    stageName: Option<string>,
    stamp: int,
    lastModified: int,
    created: Option<int>)

  /** What a write says about one field: nothing, or its new value, which may be null. */
  datatype Change<+T> = Keep | To(value: Option<T>)

  /** The payload of a write. A null id or stamp is as good as none. */
  datatype Patch = Patch(
    id: Option<string>,
    name: Change<string>,
    accountId: Change<string>,
    amount: Change<Decimal>,
    closeDate: Change<nat>,
    stageName: Change<string>,
    stamp: Option<int>,
    created: Change<int>)

  /** Accounts by id, and deals in the order they were first written. */
  datatype Data = Data(accounts: map<string, Account>, opps: seq<Opp>)

  ghost predicate DistinctIds(opps: seq<Opp>) {
    forall i, j :: 0 <= i < j < |opps| ==> opps[i].id != opps[j].id
  }

  // ---- reading one field ------------------------------------------------------------------

  function OrNull<T>(v: Option<T>, wrap: T -> Value): Value {
    if v.Some? then wrap(v.value) else Null
  }

  function AccountOf(d: Data, o: Opp): Option<Account> {
    if o.accountId.Some? && o.accountId.value in d.accounts then Some(d.accounts[o.accountId.value]) else None
  }

  function FieldValue(d: Data, o: Opp, f: Field): Value {
    match f
    case Id => Text(o.id)
    case Name => OrNull(o.name, s => Text(s))
    case AccountId => OrNull(o.accountId, s => Text(s))
    case Amount => OrNull(o.amount, a => Num(a))
    case CloseDate => OrNull(o.closeDate, n => On(n))
    case StageName => OrNull(o.stageName, s => Text(s))
    case IsWon => Flag(o.stageName == Some(WON_STAGE))
    case IsClosed => Flag(o.stageName == Some(WON_STAGE) || o.stageName == Some(LOST_STAGE))
    case SystemModstamp => At(o.stamp)
    case LastModifiedDate => At(o.lastModified)
    case CreatedDate => OrNull(o.created, t => At(t))
    case AccountDotId => if AccountOf(d, o).Some? then Text(AccountOf(d, o).value.id) else Null
    case AccountDotName => if AccountOf(d, o).Some? then OrNull(AccountOf(d, o).value.name, s => Text(s)) else Null
  }

  lemma FieldValueIsTyped(d: Data, o: Opp, f: Field)
    ensures HasType(FieldValue(d, o, f), f)
  {
  }

  // ---- comparing values --------------------------------------------------------------------

  /** Decimals are equal as numbers, whatever their scale. */
  predicate SameValue(a: Value, b: Value) {
    if a.Num? && b.Num? then Decimals.Value(a.d) == Decimals.Value(b.d) else a == b
  }

  /** The order of two values of one type. */
  predicate Below(a: Value, b: Value) {
    match (a, b)
    case (Text(s), Text(t)) => TextLess(s, t)
    case (At(s), At(t)) => s < t
    case (On(m), On(n)) => m < n
    case (Flag(p), Flag(q)) => !p && q
    case (Num(x), Num(y)) => Decimals.Value(x) < Decimals.Value(y)
    case _ => false
  }

  predicate Matches(v: Value, c: Condition) {
    match c.op
    case In => c.value.Texts? && v.Text? && v.s in c.value.items
    case Eq => SameValue(v, c.value)
    case Ne => !SameValue(v, c.value)
    case Ge => v != Null && c.value != Null && (Below(c.value, v) || SameValue(v, c.value))
    case Gt => v != Null && c.value != Null && Below(c.value, v)
    case Le => v != Null && c.value != Null && (Below(v, c.value) || SameValue(v, c.value))
    case Lt => v != Null && c.value != Null && Below(v, c.value)
  }

  /** A deal meets every condition of a query. */
  predicate Meets(d: Data, o: Opp, where: seq<Condition>) {
    forall i :: 0 <= i < |where| ==> Matches(FieldValue(d, o, where[i].field), where[i])
  }

  function Compared(op: Op, target: Value, f: Field): Condition {
    Condition(f, op, target)
  }

  /** The comparisons agree with each other: a value is below, equal to or above a target of its type, exactly one of
    * them, and null is never below or above anything. */
  lemma ComparisonsAgree(v: Value, w: Value, f: Field)
    requires HasType(v, f) && HasType(w, f)
    ensures Matches(v, Compared(Ne, w, f)) <==> !Matches(v, Compared(Eq, w, f))
    ensures v != Null && w != Null ==>
              && (Matches(v, Compared(Le, w, f)) <==> !Matches(v, Compared(Gt, w, f)))
              && (Matches(v, Compared(Ge, w, f)) <==> !Matches(v, Compared(Lt, w, f)))
              && (Matches(v, Compared(Eq, w, f)) <==> Matches(v, Compared(Le, w, f)) && Matches(v, Compared(Ge, w, f)))
    ensures v == Null || w == Null ==>
              forall op :: op in {Lt, Le, Gt, Ge} ==> !Matches(v, Compared(op, w, f))
  {
    if v.Text? && w.Text? {
      TextOrder(v.s, w.s);
    }
  }

  /** What the comparisons mean for each type: numbers as numbers, times and dates by when they are, texts by their
    * characters. */
  lemma ComparisonsMean(v: Value, w: Value, f: Field)
    ensures v.Num? && w.Num? ==>
              && (Matches(v, Compared(Lt, w, f)) <==> Decimals.Value(v.d) < Decimals.Value(w.d))
              && (Matches(v, Compared(Ge, w, f)) <==> Decimals.Value(v.d) >= Decimals.Value(w.d))
              && (Matches(v, Compared(Eq, w, f)) <==> Decimals.Value(v.d) == Decimals.Value(w.d))
    ensures v.At? && w.At? ==>
              && (Matches(v, Compared(Lt, w, f)) <==> v.t < w.t) && (Matches(v, Compared(Ge, w, f)) <==> v.t >= w.t)
              && (Matches(v, Compared(Eq, w, f)) <==> v.t == w.t)
    ensures v.On? && w.On? ==>
              && (Matches(v, Compared(Lt, w, f)) <==> v.day < w.day) && (Matches(v, Compared(Ge, w, f)) <==> v.day >= w.day)
              && (Matches(v, Compared(Eq, w, f)) <==> v.day == w.day)
    ensures v.Text? && w.Text? ==>
              && (Matches(v, Compared(Lt, w, f)) <==> TextLess(v.s, w.s)) && (Matches(v, Compared(Eq, w, f)) <==> v.s == w.s)
              && (Matches(v, Compared(Ge, w, f)) <==> TextLess(w.s, v.s) || v.s == w.s)
    ensures forall items :: Matches(v, Compared(In, Texts(items), f)) <==> exists i :: 0 <= i < |items| && v == Text(items[i])
  {
    forall items ensures Matches(v, Compared(In, Texts(items), f)) <==> exists i :: 0 <= i < |items| && v == Text(items[i]) {
      if v.Text? && v.s in items {
        var i :| 0 <= i < |items| && items[i] == v.s;
        assert v == Text(items[i]);
      }
    }
  }

  // ---- ordering ------------------------------------------------------------------------------

  /** Null comes first. */
  predicate KeyAtMost(a: Value, b: Value) {
    a == Null || (b != Null && !Below(b, a))
  }

  /** One sort key: descending turns the order round, so null comes last. */
  function KeyOrder(d: Data, key: OrderBy): (Opp, Opp) -> bool {
    (x: Opp, y: Opp) =>
      if key.descending then KeyAtMost(FieldValue(d, y, key.field), FieldValue(d, x, key.field))
      else KeyAtMost(FieldValue(d, x, key.field), FieldValue(d, y, key.field))
  }

  function KeyOrders(d: Data, keys: seq<OrderBy>): seq<(Opp, Opp) -> bool> {
    seq(|keys|, i requires 0 <= i < |keys| => KeyOrder(d, keys[i]))
  }

  lemma BelowIsAnOrder(a: Value, b: Value, c: Value, f: Field)
    requires HasType(a, f) && HasType(b, f) && HasType(c, f)
    ensures !(Below(a, b) && Below(b, a))
    ensures a != Null && b != Null && !Below(a, b) && !Below(b, a) ==> SameValue(a, b)
    ensures KeyAtMost(a, b) || KeyAtMost(b, a)
    ensures KeyAtMost(a, b) && KeyAtMost(b, c) ==> KeyAtMost(a, c)
  {
    if a.Text? && b.Text? {
      TextOrder(a.s, b.s);
    }
    if a.Text? && b.Text? && c.Text? {
      TextOrder(b.s, c.s);
      TextOrder(a.s, c.s);
      if TextLess(c.s, a.s) && TextLess(a.s, b.s) {
        TextTransitive(c.s, a.s, b.s);
      }
    }
  }

  lemma KeyOrderIsPreorder(d: Data, key: OrderBy)
    ensures TotalPreorder(KeyOrder(d, key))
  {
    hide KeyAtMost, FieldValue, HasType;
    var le := KeyOrder(d, key);
    forall x, y ensures le(x, y) || le(y, x) {
      FieldValueIsTyped(d, x, key.field);
      FieldValueIsTyped(d, y, key.field);
      BelowIsAnOrder(FieldValue(d, x, key.field), FieldValue(d, y, key.field), FieldValue(d, y, key.field), key.field);
    }
    forall x, y, z | le(x, y) && le(y, z) ensures le(x, z) {
      FieldValueIsTyped(d, x, key.field);
      FieldValueIsTyped(d, y, key.field);
      FieldValueIsTyped(d, z, key.field);
      BelowIsAnOrder(FieldValue(d, x, key.field), FieldValue(d, y, key.field), FieldValue(d, z, key.field), key.field);
      BelowIsAnOrder(FieldValue(d, z, key.field), FieldValue(d, y, key.field), FieldValue(d, x, key.field), key.field);
    }
  }

  // ---- what a query answers --------------------------------------------------------------------

  function Kept(d: Data, opps: seq<Opp>, where: seq<Condition>): seq<Opp> {
    if opps == [] then []
    else Kept(d, opps[..|opps| - 1], where)
         + if Meets(d, opps[|opps| - 1], where) then [opps[|opps| - 1]] else []
  }

  function Arranged(d: Data, q: Query): seq<Opp> {
    MultiSort(Kept(d, d.opps, q.where), KeyOrders(d, q.orderBy))
  }

  function Limited<T>(s: seq<T>, limit: Option<nat>): seq<T> {
    if limit.Some? then s[..Min(limit.value, |s|)] else s
  }

  function Answer(d: Data, q: Query): seq<Opp> {
    Limited(Arranged(d, q), q.limit)
  }

  ghost predicate Earlier(opps: seq<Opp>, x: Opp, y: Opp) {
    exists i, j :: 0 <= i < j < |opps| && opps[i] == x && opps[j] == y
  }

  ghost function AsWritten(opps: seq<Opp>): (Opp, Opp) -> bool {
    (x, y) => Earlier(opps, x, y)
  }

  /** The order of an answer: by each key in turn, and full ties as they were first written. */
  ghost function AnswerOrder(d: Data, keys: seq<OrderBy>): (Opp, Opp) -> bool {
    Lexicographic(KeyOrders(d, keys), AsWritten(d.opps))
  }

  lemma {:induction false} KeptExactly(d: Data, opps: seq<Opp>, where: seq<Condition>)
    ensures forall o :: o in Kept(d, opps, where) <==> o in opps && Meets(d, o, where)
    ensures Pairwise(AsWritten(opps), Kept(d, opps, where))
  {
    hide Meets;
    if opps != [] {
      var init, last := opps[..|opps| - 1], opps[|opps| - 1];
      KeptExactly(d, init, where);
      var so, all := Kept(d, init, where), Kept(d, opps, where);
      assert opps == init + [last];
      assert forall o :: o in opps <==> o in init || o == last;
      forall i, j | 0 <= i < j < |all| ensures Earlier(opps, all[i], all[j]) {
        EarlierMore(init, last, all[i]);
        if j < |so| {
          assert Earlier(init, so[i], so[j]);
          EarlierStays(init, last, so[i], so[j]);
        } else {
          assert all[i] in so;
        }
      }
    }
  }

  lemma EarlierMore(init: seq<Opp>, last: Opp, x: Opp)
    ensures x in init ==> Earlier(init + [last], x, last)
  {
    if x in init {
      var i :| 0 <= i < |init| && init[i] == x;
      assert (init + [last])[i] == x && (init + [last])[|init|] == last;
    }
  }

  lemma EarlierStays(init: seq<Opp>, last: Opp, x: Opp, y: Opp)
    requires Earlier(init, x, y)
    ensures Earlier(init + [last], x, y)
  {
    var i, j :| 0 <= i < j < |init| && init[i] == x && init[j] == y;
    assert (init + [last])[i] == x && (init + [last])[j] == y;
  }

  /** Before its limit, an answer has exactly the deals that meet the query, each once, in the order of its keys,
    * with nulls first when ascending and last when descending, and full ties as they were first written. */
  lemma ArrangedIsExact(d: Data, q: Query)
    ensures forall o :: o in Arranged(d, q) <==> o in d.opps && Meets(d, o, q.where)
    ensures multiset(Arranged(d, q)) == multiset(Kept(d, d.opps, q.where))
    ensures Pairwise(AnswerOrder(d, q.orderBy), Arranged(d, q))
  {
    hide Meets, Kept, MultiSort, Lexicographic, TotalPreorder;
    var kept, keys := Kept(d, d.opps, q.where), KeyOrders(d, q.orderBy);
    KeptExactly(d, d.opps, q.where);
    forall k | k in keys ensures TotalPreorder(k) {
      var i :| 0 <= i < |keys| && keys[i] == k;
      KeyOrderIsPreorder(d, q.orderBy[i]);
    }
    MultiSortSorts(kept, keys, AsWritten(d.opps));
    forall o ensures o in Arranged(d, q) <==> o in kept {
      assert o in Arranged(d, q) <==> o in multiset(Arranged(d, q));
    }
  }

  /** A limit cuts the arranged deals off after that many, and no limit keeps them all. */
  lemma LimitMeans(d: Data, q: Query)
    ensures Answer(d, q) <= Arranged(d, q)
    ensures q.limit.None? ==> Answer(d, q) == Arranged(d, q)
    ensures q.limit.Some? ==> |Answer(d, q)| == Min(q.limit.value, |Arranged(d, q)|)
  {
    hide Arranged;
  }

  /** Nulls of the first key come first when it ascends and last when it descends, and values never go the wrong way. */
  lemma NullsAndValuesInPlace(d: Data, q: Query, i: nat, j: nat)
    requires q.orderBy != [] && i < j < |Arranged(d, q)|
    ensures var key := q.orderBy[0];
            var x, y := FieldValue(d, Arranged(d, q)[i], key.field), FieldValue(d, Arranged(d, q)[j], key.field);
            if key.descending then (x == Null ==> y == Null) && !Below(x, y) else (y == Null ==> x == Null) && !Below(y, x)
  {
    hide Arranged, FieldValue;
    var rows, keys := Arranged(d, q), KeyOrders(d, q.orderBy);
    ArrangedIsExact(d, q);
    assert AnswerOrder(d, q.orderBy)(rows[i], rows[j]);
    assert keys[0] == KeyOrder(d, q.orderBy[0]) && keys[0](rows[i], rows[j]);
  }

  // ---- writes --------------------------------------------------------------------------------

  function DealWith(opps: seq<Opp>, id: string): Option<Opp> {
    if opps == [] then None
    else if opps[0].id == id then Some(opps[0])
    else DealWith(opps[1..], id)
  }

  /** Replace the deal with this id where it stands, or add it at the end. */
  function Put(opps: seq<Opp>, o: Opp): seq<Opp> {
    if opps == [] then [o]
    else if opps[0].id == o.id then [o] + opps[1..]
    else [opps[0]] + Put(opps[1..], o)
  }

  function Without(opps: seq<Opp>, id: string): seq<Opp> {
    if opps == [] then []
    else if opps[0].id == id then opps[1..]
    else [opps[0]] + Without(opps[1..], id)
  }

  function Changed<T>(was: Option<T>, c: Change<T>): Option<T> {
    match c
    case Keep => was
    case To(v) => v
  }

  /** A deal after a write: what the payload does not mention stays, and the creation time is set once. */
  function Merged(was: Option<Opp>, p: Patch, id: string, stamp: int): Opp {
    var base := if was.Some? then was.value else Opp(id, None, None, None, None, None, stamp, stamp, Some(stamp));
    Opp(id, Changed(base.name, p.name), Changed(base.accountId, p.accountId), Changed(base.amount, p.amount),
        Changed(base.closeDate, p.closeDate), Changed(base.stageName, p.stageName), stamp, stamp,
        Changed(base.created, p.created))
  }

  /** Field by field: what the payload names is stored, what it does not name stays, and a new deal starts without it.
    * Every write restamps the deal; only the first sets its creation time, unless the payload does. */
  lemma WriteMeans(was: Option<Opp>, p: Patch, id: string, stamp: int)
    ensures var o := Merged(was, p, id, stamp);
            && o.id == id && o.stamp == stamp && o.lastModified == stamp
            && o.name == Wrote(p.name, if was.Some? then was.value.name else None)
            && o.accountId == Wrote(p.accountId, if was.Some? then was.value.accountId else None)
            && o.amount == Wrote(p.amount, if was.Some? then was.value.amount else None)
            && o.closeDate == Wrote(p.closeDate, if was.Some? then was.value.closeDate else None)
            && o.stageName == Wrote(p.stageName, if was.Some? then was.value.stageName else None)
            && o.created == Wrote(p.created, if was.Some? then was.value.created else Some(stamp))
  {
  }

  function Wrote<T>(c: Change<T>, before: Option<T>): Option<T> {
    if c.To? then c.value else before
  }

  /** What was written is what a query reads, and the flags follow the stage. */
  lemma ReadsBack(d: Data, was: Option<Opp>, p: Patch, id: string, stamp: int)
    ensures var o := Merged(was, p, id, stamp);
            && FieldValue(d, o, Id) == Text(id) && FieldValue(d, o, SystemModstamp) == At(stamp)
            && FieldValue(d, o, LastModifiedDate) == At(stamp)
            && (p.name.To? ==> FieldValue(d, o, Name) == if p.name.value.Some? then Text(p.name.value.value) else Null)
            && (p.amount.To? ==> FieldValue(d, o, Amount) == if p.amount.value.Some? then Num(p.amount.value.value) else Null)
            && (p.closeDate.To? ==> FieldValue(d, o, CloseDate) == if p.closeDate.value.Some? then On(p.closeDate.value.value) else Null)
            && (p.created.To? ==> FieldValue(d, o, CreatedDate) == if p.created.value.Some? then At(p.created.value.value) else Null)
            && (p.stageName.To? ==> FieldValue(d, o, StageName) == if p.stageName.value.Some? then Text(p.stageName.value.value) else Null)
            && (p.accountId.To? ==> FieldValue(d, o, AccountId) == if p.accountId.value.Some? then Text(p.accountId.value.value) else Null)
    ensures forall o: Opp :: FieldValue(d, o, IsWon) == Flag(FieldValue(d, o, StageName) == Text("Closed Won"))
    ensures forall o: Opp :: FieldValue(d, o, IsClosed)
                          == Flag(FieldValue(d, o, StageName) in {Text("Closed Won"), Text("Closed Lost")})
  {
  }

  /** The account's own fields are those of the account the deal names, and null where it names none there is. */
  lemma AccountReadsBack(d: Data, o: Opp)
    ensures o.accountId.None? || o.accountId.value !in d.accounts ==>
              FieldValue(d, o, AccountDotId) == Null && FieldValue(d, o, AccountDotName) == Null
    ensures o.accountId.Some? && o.accountId.value in d.accounts ==>
              var a := d.accounts[o.accountId.value];
              && FieldValue(d, o, AccountDotId) == Text(a.id)
              && FieldValue(d, o, AccountDotName) == if a.name.Some? then Text(a.name.value) else Null
  {
  }

  lemma {:induction false} DealIsFound(opps: seq<Opp>, id: string)
    requires DistinctIds(opps)
    ensures forall o :: DealWith(opps, id) == Some(o) <==> o in opps && o.id == id
  {
    if opps != [] {
      DealIsFound(opps[1..], id);
    }
  }

  /** A write touches one deal only, and keeps every other deal. */
  lemma {:induction false} PutReplaces(opps: seq<Opp>, o: Opp)
    requires DistinctIds(opps)
    ensures DistinctIds(Put(opps, o))
    ensures forall x :: x in Put(opps, o) <==> x == o || (x in opps && x.id != o.id)
  {
    if opps != [] {
      PutReplaces(opps[1..], o);
      assert forall x :: x in opps <==> x == opps[0] || x in opps[1..];
    }
  }

  /** A deal keeps its place when it is written again, and a new one comes last. */
  lemma {:induction false} PutKeepsPlaces(opps: seq<Opp>, o: Opp)
    ensures DealWith(opps, o.id).None? ==> Put(opps, o) == opps + [o]
    ensures DealWith(opps, o.id).Some? ==> |Put(opps, o)| == |opps|
    ensures forall i :: 0 <= i < |opps| && opps[i].id != o.id ==> Put(opps, o)[i] == opps[i]
  {
    if opps != [] && opps[0].id != o.id {
      PutKeepsPlaces(opps[1..], o);
      assert opps == [opps[0]] + opps[1..];
    }
  }

  lemma {:induction false} WithoutRemoves(opps: seq<Opp>, id: string)
    requires DistinctIds(opps)
    ensures DistinctIds(Without(opps, id))
    ensures forall x :: x in Without(opps, id) <==> x in opps && x.id != id
  {
    if opps != [] {
      WithoutRemoves(opps[1..], id);
      assert forall x :: x in opps <==> x == opps[0] || x in opps[1..];
    }
  }

  function Candidate(prefix: string, n: nat): string {
    prefix + "FAKE" + Padded(DigitsOf(n), 11)
  }

  lemma CandidatesDiffer(prefix: string, m: nat, n: nat)
    requires Candidate(prefix, m) == Candidate(prefix, n)
    ensures m == n
  {
    assert Candidate(prefix, m)[|prefix| + 4..] == Padded(DigitsOf(m), 11);
    assert Candidate(prefix, n)[|prefix| + 4..] == Padded(DigitsOf(n), 11);
  }

  function Ids(opps: seq<Opp>): set<string> {
    set o | o in opps :: o.id
  }

  class Store {
    var accounts: map<string, Account>
    var opps: seq<Opp>
    var counter: nat

    constructor ()
      ensures Valid() && State() == Data(map[], [])
    {
      accounts, opps, counter := map[], [], 1;
    }

    ghost predicate Valid()
      reads this
    {
      DistinctIds(opps)
    }

    function State(): Data
      reads this
    {
      Data(accounts, opps)
    }

    method Reset()
      modifies this`accounts, this`opps
      ensures Valid() && State() == Data(map[], [])
    {
      accounts, opps := map[], [];
    }

    /** An id nothing has yet. The search ends because it never tries one twice. */
    method NewId(prefix: string) returns (id: string)
      modifies this`counter
      ensures id !in accounts && id !in Ids(opps)
    {
      var used := accounts.Keys + Ids(opps);
      ghost var untried := used;
      while true
        invariant untried <= used
        invariant forall n: nat :: n >= counter && Candidate(prefix, n) in used ==> Candidate(prefix, n) in untried
        decreases |untried|
      {
        id := Candidate(prefix, counter);
        forall n: nat | n > counter ensures Candidate(prefix, n) != id {
          if Candidate(prefix, n) == id {
            CandidatesDiffer(prefix, n, counter);
          }
        }
        counter := counter + 1;
        if id !in used {
          return;
        }
        ghost var fewer := untried - {id};
        assert untried == fewer + {id};
        untried := fewer;
      }
    }

    /** Create or change a deal. A stamp is taken from the payload if it has one, else from the clock. */
    method UpsertOpportunity(p: Patch, now: int) returns (o: Opp)
      requires Valid()
      modifies this`opps, this`counter
      ensures Valid() && State() == old(State()).(opps := Put(old(opps), o))
      ensures p.id.Some? && p.id.value != "" ==> o.id == p.id.value
      ensures p.id.None? || p.id.value == "" ==> DealWith(old(opps), o.id) == None
      ensures o == Merged(DealWith(old(opps), o.id), p, o.id, if p.stamp.Some? then p.stamp.value else now)
    {
      var id: string;
      if p.id.Some? && p.id.value != "" {
        id := p.id.value;
      } else {
        id := NewId("006");
      }
      DealIsFound(opps, id);
      if DealWith(opps, id).Some? {
        assert DealWith(opps, id).value.id in Ids(opps);
      }
      o := Merged(DealWith(opps, id), p, id, if p.stamp.Some? then p.stamp.value else now);
      PutReplaces(opps, o);
      opps := Put(opps, o);
    }

    /** An edit changes the named fields of an existing deal and always restamps it. */
    method EditOpportunity(id: string, changes: Patch, stamp: Option<int>, now: int) returns (r: Option<Opp>)
      requires Valid() && id != ""
      modifies this`opps, this`counter
      ensures Valid() && accounts == old(accounts)
      ensures r.None? <==> DealWith(old(opps), id).None?
      ensures r.None? ==> opps == old(opps)
      ensures r.Some? ==>
                && r.value == Merged(DealWith(old(opps), id), changes, id, if stamp.Some? then stamp.value else now)
                && opps == Put(old(opps), r.value)
    {
      if DealWith(opps, id).None? {
        return None;
      }
      var o := UpsertOpportunity(changes.(id := Some(id), stamp := stamp), now);
      return Some(o);
    }

    method DeleteOpportunity(id: string) returns (found: bool)
      requires Valid()
      modifies this`opps
      ensures Valid() && found == DealWith(old(opps), id).Some?
      ensures forall o :: o in opps <==> o in old(opps) && o.id != id
    {
      WithoutRemoves(opps, id);
      DealIsFound(opps, id);
      found := DealWith(opps, id).Some?;
      opps := Without(opps, id);
    }

    /** Filter, then one stable pass a key from the last to the first, then the limit. */
    method RunQuery(q: Query) returns (rows: seq<Opp>)
      requires Valid()
      ensures rows == Answer(State(), q)
    {
      var kept := [];
      for i := 0 to |opps|
        invariant kept == Kept(State(), opps[..i], q.where)
      {
        assert opps[..i + 1][..i] == opps[..i];
        if Meets(State(), opps[i], q.where) {
          kept := kept + [opps[i]];
        }
      }
      assert opps[..|opps|] == opps;
      rows := Sorted(kept, q.orderBy);
      if q.limit.Some? {
        rows := rows[..Min(q.limit.value, |rows|)];
      }
    }

    method Sorted(records: seq<Opp>, keys: seq<OrderBy>) returns (result: seq<Opp>)
      ensures result == MultiSort(records, KeyOrders(State(), keys))
    {
      result := records;
      ghost var orders := KeyOrders(State(), keys);
      for i := |keys| downto 0
        invariant result == MultiSort(records, orders[i..])
      {
        assert orders[i..][1..] == orders[i + 1..] && orders[i..][0] == KeyOrder(State(), keys[i]);
        result := StableSort(result, KeyOrder(State(), keys[i]));
      }
      assert orders[0..] == orders;
    }
  }
}
