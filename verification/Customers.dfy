/** What a customer row holds after any deliveries, and when their order does not matter to it. */
module Customers {
  import opened Prelude
  import opened Mapping
  import opened Erp

  /** Was delivery `i` accepted? It is newer than every delivery of its deal before it. */
  predicate AcceptedAt(ds: seq<Delivery>, i: nat) {
    i < |ds| && forall j :: 0 <= j < i && ds[j].order.orderId == ds[i].order.orderId ==>
                  ds[j].order.version < ds[i].order.version
  }

  predicate NamesAt(ds: seq<Delivery>, k: string, i: nat) {
    AcceptedAt(ds, i) && ds[i].order.customerId == k
  }

  /** The last accepted delivery that names a customer. */
  function LastNaming(ds: seq<Delivery>, k: string): (r: Option<nat>)
    ensures r.Some? ==> NamesAt(ds, k, r.value) && forall j :: r.value < j < |ds| ==> !NamesAt(ds, k, j)
    ensures r.None? ==> forall j :: 0 <= j < |ds| ==> !NamesAt(ds, k, j)
  {
    if ds == [] then None
    else if NamesAt(ds, k, |ds| - 1) then Some(|ds| - 1)
    else
      EarlierNaming(ds, k);
      LastNaming(ds[..|ds| - 1], k)
  }

  function FirstNaming(ds: seq<Delivery>, k: string): (r: Option<nat>)
    ensures r.Some? ==> NamesAt(ds, k, r.value) && forall j :: 0 <= j < r.value ==> !NamesAt(ds, k, j)
    ensures r.None? <==> LastNaming(ds, k).None?
  {
    if ds == [] then None
    else
      EarlierNaming(ds, k);
      var so := FirstNaming(ds[..|ds| - 1], k);
      if so.Some? then so else if NamesAt(ds, k, |ds| - 1) then Some(|ds| - 1) else None
  }

  lemma EarlierAcceptance(ds: seq<Delivery>)
    requires ds != []
    ensures forall i: nat :: i < |ds| - 1 ==> (AcceptedAt(ds, i) <==> AcceptedAt(ds[..|ds| - 1], i))
  {
  }

  lemma EarlierNaming(ds: seq<Delivery>, k: string)
    requires ds != []
    ensures forall i: nat :: i < |ds| - 1 ==> (NamesAt(ds, k, i) <==> NamesAt(ds[..|ds| - 1], k, i))
  {
    EarlierAcceptance(ds);
  }

  /** The database accepts a delivery exactly when it is newer than all of its deal before it. */
  lemma AcceptsExactly(ds: seq<Delivery>)
    requires ds != []
    ensures Accepts(Deliver(EMPTY, ds[..|ds| - 1]), ds[|ds| - 1].order) <==> AcceptedAt(ds, |ds| - 1)
  {
    hide Deliver;
    var n, init := |ds| - 1, ds[..|ds| - 1];
    var id := ds[n].order.orderId;
    DeliveryFold(init, id);
    OfMembers(id, init);
    forall j | 0 <= j < n && ds[j].order.orderId == id ensures ds[j] in Of(id, init) {
      assert init[j] == ds[j];
    }
    if Of(id, init) != [] {
      var own := Of(id, init);
      var top := own[Highest(own)];
      assert top in own;
      var j :| 0 <= j < |init| && init[j] == top;
      assert ds[j] == top;
    }
  }

  /** After any deliveries a customer has a row exactly when an accepted one names it. The row has the name and key
    * of the last such delivery, and the creation time of the first. */
  lemma {:induction false} CustomerHolds(ds: seq<Delivery>, k: string)
    ensures Find(Deliver(EMPTY, ds).customers, k) ==
              match LastNaming(ds, k)
              case None => None
              case Some(i) => Some(CustomerRow(ds[i].order.customerName, ds[i].order.eventKey,
                                               ds[FirstNaming(ds, k).value].now, ds[i].now))
  {
    if ds != [] {
      CustomerHolds(ds[..|ds| - 1], k);
      AcceptsExactly(ds);
      EarlierAcceptance(ds);
    }
  }

  // ---- when the order of deliveries does not matter -----------------------------------------

  ghost function FinalName(ds: seq<Delivery>, k: string): Option<string> {
    if k in Deliver(EMPTY, ds).customers then Some(Deliver(EMPTY, ds).customers[k].name) else None
  }

  lemma FinalNameIsLast(ds: seq<Delivery>, k: string)
    ensures FinalName(ds, k) ==
              if LastNaming(ds, k).Some? then Some(ds[LastNaming(ds, k).value].order.customerName) else None
  {
    CustomerHolds(ds, k);
  }

  /** The order of its deal's highest version. */
  ghost predicate Top(ds: seq<Delivery>, o: Order) {
    Delivered(o, ds) && forall d :: d in ds && d.order.orderId == o.orderId ==> d.order.version <= o.version
  }

  ghost predicate TopOf(ds: seq<Delivery>, h: Order, o: Order) {
    Top(ds, h) && h.orderId == o.orderId
  }

  /** Some order of delivery makes this order the last to name the customer: its deal goes on to no other version
    * of that customer. */
  ghost predicate CanEnd(ds: seq<Delivery>, k: string, o: Order) {
    && Delivered(o, ds) && o.customerId == k
    && exists h :: TopOf(ds, h, o) && (h == o || h.customerId != k)
  }

  /** A condition on the delivered orders alone: nobody names the customer; or some deal ends on it, and all orders
    * that can be the last to name it give one name. */
  ghost predicate Settles(ds: seq<Delivery>, k: string) {
    || (forall o :: Delivered(o, ds) ==> o.customerId != k)
    || ((exists o :: Top(ds, o) && o.customerId == k)
        && forall o, p :: CanEnd(ds, k, o) && CanEnd(ds, k, p) ==> o.customerName == p.customerName)
  }

  ghost predicate OrderIrrelevant(ds: seq<Delivery>, k: string) {
    forall es :: SameOrders(ds, es) ==> FinalName(es, k) == FinalName(ds, k)
  }

  lemma {:induction false} HasTop(ds: seq<Delivery>, o: Order) returns (h: Order)
    requires Delivered(o, ds)
    ensures TopOf(ds, h, o)
  {
    var own := Of(o.orderId, ds);
    OfMembers(o.orderId, ds);
    var d :| d in ds && d.order == o;
    assert d in own;
    var top := own[Highest(own)];
    assert FirstOfHighest(own, Highest(own)) && top in own;
    h := top.order;
    forall e | e in ds && e.order.orderId == h.orderId ensures e.order.version <= h.version {
      assert e in own;
      var j :| 0 <= j < |own| && own[j] == e;
    }
  }

  /** The order of a deal's highest version is always accepted once. */
  lemma {:induction false} TopIsAccepted(ds: seq<Delivery>, h: Order) returns (m: nat)
    requires Top(ds, h) && PayloadByVersion(ds)
    ensures AcceptedAt(ds, m) && ds[m].order == h
  {
    var n, init := |ds| - 1, ds[..|ds| - 1];
    assert ds == init + [ds[n]];
    if Delivered(h, init) {
      m := TopIsAccepted(init, h);
      EarlierAcceptance(ds);
    } else {
      m := n;
      forall j | 0 <= j < n && ds[j].order.orderId == h.orderId ensures ds[j].order.version < h.version {
        assert ds[j] in ds && init[j] == ds[j] && init[j] in init;
      }
    }
  }

  /** A deal whose highest version names the customer names it again after any of its lower versions. */
  lemma TopNamesLater(ds: seq<Delivery>, k: string, i: nat, h: Order)
    requires AcceptedAt(ds, i) && PayloadByVersion(ds) && TopOf(ds, h, ds[i].order)
    requires h != ds[i].order && h.customerId == k
    ensures exists m: nat :: i < m && NamesAt(ds, k, m)
  {
    var m := TopIsAccepted(ds, h);
    assert ds[i] in ds && ds[m] in ds;
    assert NamesAt(ds, k, m);
  }

  /** Whatever names a customer last could. */
  lemma LastCanEnd(ds: seq<Delivery>, k: string)
    requires PayloadByVersion(ds) && LastNaming(ds, k).Some?
    ensures CanEnd(ds, k, ds[LastNaming(ds, k).value].order)
  {
    var i := LastNaming(ds, k).value;
    var o := ds[i].order;
    assert Delivered(o, ds) by { assert ds[i] in ds; }
    var h := HasTop(ds, o);
    if h != o && h.customerId == k {
      TopNamesLater(ds, k, i, h);
    }
    assert TopOf(ds, h, o) && (h == o || h.customerId != k);
  }

  lemma SameOrdersKeep(a: seq<Delivery>, b: seq<Delivery>)
    requires SameOrders(a, b)
    ensures PayloadByVersion(a) ==> PayloadByVersion(b)
    ensures forall o :: Top(a, o) <==> Top(b, o)
  {
    if PayloadByVersion(a) {
      forall d, e | d in b && e in b && d.order.orderId == e.order.orderId && d.order.version == e.order.version
        ensures d.order == e.order
      {
        assert Delivered(d.order, b) && Delivered(e.order, b);
        var x :| x in a && x.order == d.order;
        var y :| y in a && y.order == e.order;
      }
    }
    forall o ensures Top(a, o) ==> Top(b, o) {
      TopCarries(a, b, o);
    }
    forall o ensures Top(b, o) ==> Top(a, o) {
      TopCarries(b, a, o);
    }
  }

  lemma TopCarries(a: seq<Delivery>, b: seq<Delivery>, o: Order)
    requires SameOrders(a, b)
    ensures Top(a, o) ==> Top(b, o)
  {
    if Top(a, o) {
      forall d | d in b && d.order.orderId == o.orderId ensures d.order.version <= o.version {
        assert Delivered(d.order, b);
        var x :| x in a && x.order == d.order;
      }
    }
  }

  lemma CanEndCarries(a: seq<Delivery>, b: seq<Delivery>, k: string, o: Order)
    requires SameOrders(a, b) && CanEnd(a, k, o)
    ensures CanEnd(b, k, o)
  {
    SameOrdersKeep(a, b);
    var h :| TopOf(a, h, o) && (h == o || h.customerId != k);
    assert TopOf(b, h, o);
  }

  /** A settled customer has one outcome. */
  lemma SettledAgrees(ds: seq<Delivery>, es: seq<Delivery>, k: string)
    requires PayloadByVersion(ds) && Settles(ds, k) && SameOrders(ds, es)
    ensures FinalName(es, k) == FinalName(ds, k)
  {
    hide CanEnd, Top;
    FinalNameIsLast(ds, k);
    FinalNameIsLast(es, k);
    SameOrdersKeep(ds, es);
    if o :| Top(ds, o) && o.customerId == k {
      var m := TopIsAccepted(ds, o);
      var n := TopIsAccepted(es, o);
      assert NamesAt(ds, k, m) && NamesAt(es, k, n);
      var i, j := LastNaming(ds, k).value, LastNaming(es, k).value;
      LastCanEnd(ds, k);
      LastCanEnd(es, k);
      CanEndCarries(es, ds, k, es[j].order);
      assert Delivered(ds[i].order, ds) by { assert ds[i] in ds; }
    } else {
      NobodyNames(ds, k);
      assert forall o :: Delivered(o, es) ==> o.customerId != k;
      NobodyNames(es, k);
    }
  }

  lemma NobodyNames(ds: seq<Delivery>, k: string)
    requires forall o :: Delivered(o, ds) ==> o.customerId != k
    ensures LastNaming(ds, k).None?
  {
    forall j | 0 <= j < |ds| ensures !NamesAt(ds, k, j) {
      assert ds[j] in ds;
      assert Delivered(ds[j].order, ds);
    }
  }

  // ---- an unsettled customer has two outcomes -------------------------------------------------

  lemma ExtraDeliveries(before: seq<Delivery>, ds: seq<Delivery>)
    requires forall d :: d in before ==> d in ds
    ensures SameOrders(ds, before + ds)
  {
    forall o ensures Delivered(o, ds) <==> Delivered(o, before + ds) {
      if Delivered(o, ds) {
        var d :| d in ds && d.order == o;
        assert d in before + ds;
      }
      if Delivered(o, before + ds) {
        var d :| d in before + ds && d.order == o;
        assert d in ds;
      }
    }
  }

  /** The highest version of every deal of `ds` is there. */
  ghost predicate Exhausts(before: seq<Delivery>, ds: seq<Delivery>) {
    forall d :: d in ds ==> Reached(before, d.order)
  }

  ghost predicate Reached(before: seq<Delivery>, o: Order) {
    exists j :: 0 <= j < |before| && before[j].order.orderId == o.orderId && before[j].order.version >= o.version
  }

  /** Once every deal's highest version was delivered, nothing more is accepted. */
  lemma NothingMoreAccepted(before: seq<Delivery>, ds: seq<Delivery>, i: nat)
    requires Exhausts(before, ds) && |before| <= i < |before + ds|
    ensures !AcceptedAt(before + ds, i)
  {
    var all := before + ds;
    assert all[i] == ds[i - |before|] && ds[i - |before|] in ds;
    var j :| 0 <= j < |before| && before[j].order.orderId == all[i].order.orderId
             && before[j].order.version >= all[i].order.version;
    assert all[j] == before[j];
  }

  function Others(ds: seq<Delivery>, id: string): (r: seq<Delivery>)
    ensures forall d :: d in r <==> d in ds && d.order.orderId != id
  {
    if ds == [] then []
    else
      assert ds == ds[..|ds| - 1] + [ds[|ds| - 1]];
      Others(ds[..|ds| - 1], id) + if ds[|ds| - 1].order.orderId != id then [ds[|ds| - 1]] else []
  }

  ghost function Tops(all: seq<Delivery>, ds: seq<Delivery>): (r: seq<Delivery>)
    ensures forall d :: d in r <==> d in ds && Top(all, d.order)
  {
    if ds == [] then []
    else
      assert ds == ds[..|ds| - 1] + [ds[|ds| - 1]];
      Tops(all, ds[..|ds| - 1]) + if Top(all, ds[|ds| - 1].order) then [ds[|ds| - 1]] else []
  }

  lemma OwnTopExhausts(ds: seq<Delivery>, id: string, d: Delivery, e: Delivery)
    requires e.order.orderId == id && Top(ds, e.order)
    ensures Exhausts(Others(ds, id) + [d, e], ds)
  {
    var others := Others(ds, id);
    var before := others + [d, e];
    assert before[|others| + 1] == e;
    forall x | x in ds ensures Reached(before, x.order) {
      if x.order.orderId == id {
        assert before[|others| + 1].order.version >= x.order.version;
      } else {
        var j :| 0 <= j < |others| && others[j] == x;
        assert before[j] == x;
      }
    }
  }

  /** Deliver the other deals, then this order, then its deal's highest version, then everything again. */
  lemma EndingWith(ds: seq<Delivery>, k: string, o: Order) returns (es: seq<Delivery>)
    requires CanEnd(ds, k, o)
    ensures SameOrders(ds, es) && FinalName(es, k) == Some(o.customerName)
  {
    hide Exhausts, SameOrders, FinalName, LastNaming, PayloadByVersion;
    var h :| TopOf(ds, h, o) && (h == o || h.customerId != k);
    var d :| d in ds && d.order == o;
    assert Delivered(h, ds);
    var e :| e in ds && e.order == h;
    var others := Others(ds, o.orderId);
    var before := others + [d, e];
    es := before + ds;
    ExtraDeliveries(before, ds);
    var n := |others|;
    assert before[n] == d && before[n + 1] == e;
    OwnTopExhausts(ds, o.orderId, d, e);
    forall j | 0 <= j < n ensures es[j].order.orderId != o.orderId {
      assert es[j] == others[j] && others[j] in others;
    }
    assert NamesAt(es, k, n);
    forall j | n < j < |es| ensures !NamesAt(es, k, j) {
      if j == n + 1 {
        assert es[j].order == h;
      } else {
        NothingMoreAccepted(before, ds, j);
      }
    }
    FinalNameIsLast(es, k);
  }

  /** Deliver every deal's highest version first: the lower ones are never accepted. */
  lemma HighestFirst(ds: seq<Delivery>, k: string) returns (es: seq<Delivery>)
    requires forall o :: Top(ds, o) ==> o.customerId != k
    ensures SameOrders(ds, es) && FinalName(es, k) == None
  {
    var before := Tops(ds, ds);
    es := before + ds;
    ExtraDeliveries(before, ds);
    forall x | x in ds ensures Reached(before, x.order) {
      assert Delivered(x.order, ds);
      var h := HasTop(ds, x.order);
      assert Delivered(h, ds);
      var e :| e in ds && e.order == h;
      assert e in before;
      var j :| 0 <= j < |before| && before[j] == e;
      assert before[j].order.version >= x.order.version;
    }
    forall j | 0 <= j < |es| ensures !NamesAt(es, k, j) {
      if j < |before| {
        assert es[j] == before[j] && before[j] in before;
      } else {
        NothingMoreAccepted(before, ds, j);
      }
    }
    FinalNameIsLast(es, k);
  }

  /** Deliver one order first: it is accepted. */
  lemma NamedFirst(ds: seq<Delivery>, k: string, o: Order) returns (es: seq<Delivery>)
    requires Delivered(o, ds) && o.customerId == k
    ensures SameOrders(ds, es) && FinalName(es, k).Some?
  {
    var d :| d in ds && d.order == o;
    es := [d] + ds;
    ExtraDeliveries([d], ds);
    assert NamesAt(es, k, 0);
    FinalNameIsLast(es, k);
  }

  lemma UnsettledDisagrees(ds: seq<Delivery>, k: string)
    requires !Settles(ds, k)
    ensures !OrderIrrelevant(ds, k)
  {
    hide CanEnd, Top, FinalName;
    var o :| Delivered(o, ds) && o.customerId == k;
    if forall h :: Top(ds, h) ==> h.customerId != k {
      var es := HighestFirst(ds, k);
      var fs := NamedFirst(ds, k, o);
      assert FinalName(es, k) != FinalName(fs, k);
    } else {
      var p, q :| CanEnd(ds, k, p) && CanEnd(ds, k, q) && p.customerName != q.customerName;
      var es := EndingWith(ds, k, p);
      var fs := EndingWith(ds, k, q);
      assert FinalName(es, k) != FinalName(fs, k);
    }
  }

  /** With one payload per version, every sequence of the same orders leaves the same name for a customer if and only
    * if it settles. */
  lemma NameSettlesExactly(ds: seq<Delivery>, k: string)
    requires PayloadByVersion(ds)
    ensures OrderIrrelevant(ds, k) <==> Settles(ds, k)
  {
    hide FinalName, Settles, SameOrders;
    if Settles(ds, k) {
      forall es | SameOrders(ds, es) ensures FinalName(es, k) == FinalName(ds, k) {
        SettledAgrees(ds, es, k);
      }
    } else {
      UnsettledDisagrees(ds, k);
    }
  }
}
