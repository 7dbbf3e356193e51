/** Stable sorting, one key at a time, and what the passes add up to. */
module Sorting {
  import opened Prelude

  // ---- text order ---------------------------------------------------------------

  /** Code-point order of strings. */
  predicate TextLess(a: string, b: string) {
    b != "" && (a == "" || a[0] < b[0] || (a[0] == b[0] && TextLess(a[1..], b[1..])))
  }

  predicate TextAtMost(a: string, b: string) {
    !TextLess(b, a)
  }

  lemma {:induction false} TextOrder(a: string, b: string)
    ensures TextLess(a, b) || TextLess(b, a) || a == b
    ensures !(TextLess(a, b) && TextLess(b, a)) && !TextLess(a, a)
  {
    if a != "" && b != "" && a[0] == b[0] {
      TextOrder(a[1..], b[1..]);
      assert a == [a[0]] + a[1..] && b == [b[0]] + b[1..];
    }
    if a != "" {
      TextOrder(a[1..], a[1..]);
    }
  }

  lemma {:induction false} TextTransitive(a: string, b: string, c: string)
    requires TextLess(a, b) && TextLess(b, c)
    ensures TextLess(a, c)
  {
    if a != "" && a[0] == b[0] == c[0] {
      TextTransitive(a[1..], b[1..], c[1..]);
    }
  }

  // ---- one pass --------------------------------------------------------------------

  ghost predicate TotalPreorder<T(!new)>(le: (T, T) -> bool) {
    && (forall x, y :: le(x, y) || le(y, x))
    && (forall x, y, z :: le(x, y) && le(y, z) ==> le(x, z))
  }

  function Insert<T>(x: T, s: seq<T>, le: (T, T) -> bool): seq<T> {
    if s == [] then [x]
    else if le(x, s[0]) then [x] + s
    else [s[0]] + Insert(x, s[1..], le)
  }

  /** A stable sort: elements that are equal under `le` keep their order. */
  function StableSort<T>(s: seq<T>, le: (T, T) -> bool): seq<T> {
    if s == [] then [] else Insert(s[0], StableSort(s[1..], le), le)
  }

  /** Ordered by `le` first and by `r` among equals. */
  ghost function Then<T(!new)>(le: (T, T) -> bool, r: (T, T) -> bool): (T, T) -> bool {
    (x, y) => le(x, y) && (le(y, x) ==> r(x, y))
  }

  lemma PairwiseTail<T(!new)>(r: (T, T) -> bool, s: seq<T>)
    requires s != []
    ensures Pairwise(r, s) <==> Pairwise(r, s[1..]) && forall y :: y in s[1..] ==> r(s[0], y)
  {
    var t := s[1..];
    if Pairwise(r, s) {
      forall i, j | 0 <= i < j < |t| ensures r(t[i], t[j]) {
        assert r(s[i + 1], s[j + 1]);
      }
      forall y | y in t ensures r(s[0], y) {
        var k :| 0 <= k < |t| && t[k] == y;
        assert r(s[0], s[k + 1]);
      }
    }
    if Pairwise(r, t) && forall y :: y in t ==> r(s[0], y) {
      forall i, j | 0 <= i < j < |s| ensures r(s[i], s[j]) {
        assert s[j] == t[j - 1] && t[j - 1] in t;
        assert i > 0 ==> s[i] == t[i - 1];
      }
    }
  }

  lemma {:induction false} InsertMembers<T>(x: T, s: seq<T>, le: (T, T) -> bool)
    ensures multiset(Insert(x, s, le)) == multiset(s) + multiset{x}
    ensures forall y :: y in Insert(x, s, le) <==> y in s || y == x
  {
    if s != [] && !le(x, s[0]) {
      InsertMembers(x, s[1..], le);
      assert s == [s[0]] + s[1..];
    }
  }

  lemma {:induction false} InsertKeeps<T(!new)>(x: T, s: seq<T>, le: (T, T) -> bool, r: (T, T) -> bool)
    requires TotalPreorder(le)
    requires Pairwise(Then(le, r), s)
    requires forall y :: y in s ==> r(x, y)
    ensures Pairwise(Then(le, r), Insert(x, s, le))
  {
    var t := Insert(x, s, le);
    if s != [] {
      PairwiseTail(Then(le, r), s);
      PairwiseTail(Then(le, r), t);
      if le(x, s[0]) {
        assert t[1..] == s;
        forall y | y in s ensures Then(le, r)(x, y) {
          assert y == s[0] || y in s[1..];
        }
      } else {
        assert t[1..] == Insert(x, s[1..], le);
        InsertKeeps(x, s[1..], le, r);
        InsertMembers(x, s[1..], le);
      }
    }
  }

  lemma {:induction false} StableSortMembers<T>(s: seq<T>, le: (T, T) -> bool)
    ensures multiset(StableSort(s, le)) == multiset(s)
    ensures forall y :: y in StableSort(s, le) <==> y in s
    ensures |StableSort(s, le)| == |s|
  {
    if s != [] {
      StableSortMembers(s[1..], le);
      InsertMembers(s[0], StableSort(s[1..], le), le);
      assert s == [s[0]] + s[1..];
      assert |multiset(StableSort(s, le))| == |multiset(s)|;
    }
  }

  /** One stable pass over a sequence ordered by `r` orders it by the key, and by `r` among equal keys. */
  lemma {:induction false} StableSortKeeps<T(!new)>(s: seq<T>, le: (T, T) -> bool, r: (T, T) -> bool)
    requires TotalPreorder(le)
    requires Pairwise(r, s)
    ensures Pairwise(Then(le, r), StableSort(s, le))
  {
    if s != [] {
      PairwiseTail(r, s);
      StableSortKeeps(s[1..], le, r);
      StableSortMembers(s[1..], le);
      InsertKeeps(s[0], StableSort(s[1..], le), le, r);
    }
  }

  // ---- many passes -------------------------------------------------------------------

  /** Sort by the last key first and the first key last. */
  function MultiSort<T>(s: seq<T>, keys: seq<(T, T) -> bool>): seq<T> {
    if keys == [] then s else StableSort(MultiSort(s, keys[1..]), keys[0])
  }

  /** The order of all keys in turn, and `r` among full ties. */
  ghost function Lexicographic<T(!new)>(keys: seq<(T, T) -> bool>, r: (T, T) -> bool): (T, T) -> bool {
    if keys == [] then r else Then(keys[0], Lexicographic(keys[1..], r))
  }

  /** Stable passes from the last key to the first give a permutation in the order of all keys in turn. Any
    * relation that held between earlier and later elements, such as their input order, still holds between full
    * ties. */
  lemma {:induction false} MultiSortSorts<T(!new)>(s: seq<T>, keys: seq<(T, T) -> bool>, r: (T, T) -> bool)
    requires forall k :: k in keys ==> TotalPreorder(k)
    requires Pairwise(r, s)
    ensures Pairwise(Lexicographic(keys, r), MultiSort(s, keys))
    ensures multiset(MultiSort(s, keys)) == multiset(s)
  {
    if keys != [] {
      MultiSortSorts(s, keys[1..], r);
      StableSortKeeps(MultiSort(s, keys[1..]), keys[0], Lexicographic(keys[1..], r));
      StableSortMembers(MultiSort(s, keys[1..]), keys[0]);
    }
  }

  /** Sorting text gives the one ascending arrangement. */
  function SortText(s: seq<string>): seq<string> {
    StableSort(s, (a, b) => TextAtMost(a, b))
  }

  lemma TextAtMostIsPreorder()
    ensures TotalPreorder((a, b) => TextAtMost(a, b))
  {
    forall x, y
      ensures TextAtMost(x, y) || TextAtMost(y, x)
    {
      TextOrder(x, y);
    }
    forall x, y, z | TextAtMost(x, y) && TextAtMost(y, z)
      ensures TextAtMost(x, z)
    {
      TextOrder(x, y);
      TextOrder(y, z);
      if TextLess(z, x) {
        if TextLess(x, y) {
          TextTransitive(z, x, y);
        }
      }
    }
  }

  lemma SortTextSorts(s: seq<string>)
    ensures Pairwise((a, b) => TextAtMost(a, b), SortText(s))
    ensures multiset(SortText(s)) == multiset(s)
  {
    TextAtMostIsPreorder();
    var le := (a: string, b: string) => TextAtMost(a, b);
    StableSortKeeps(s, le, (a, b) => true);
    StableSortMembers(s, le);
    var t := StableSort(s, le);
    assert forall i, j :: 0 <= i < j < |t| ==> Then(le, (a, b) => true)(t[i], t[j]);
  }
}
