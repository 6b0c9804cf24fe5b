/**
 * The two orders the engine sorts by, and the sort itself.
 * `Array.prototype.sort` is stable; the model sorts by stable insertion.
 */
module Sorting {

  /**
   * `a <= b` in JavaScript's default string order, used by `items.sort()`
   * with no comparator: character by character, a proper prefix first.
   */
  predicate StrLe(a: string, b: string) {
    |a| == 0 || (|b| > 0 && (a[0] < b[0] || (a[0] == b[0] && StrLe(a[1..], b[1..]))))
  }

  predicate StrLt(a: string, b: string) {
    StrLe(a, b) && a != b
  }

  lemma {:induction false} StrLeTotal(a: string, b: string)
    ensures StrLe(a, b) || StrLe(b, a)
  {
    if |a| > 0 && |b| > 0 && a[0] == b[0] {
      StrLeTotal(a[1..], b[1..]);
    }
  }

  lemma {:induction false} StrLeTransitive(a: string, b: string, c: string)
    requires StrLe(a, b) && StrLe(b, c)
    ensures StrLe(a, c)
  {
    if |a| > 0 && a[0] == b[0] && b[0] == c[0] {
      StrLeTransitive(a[1..], b[1..], c[1..]);
    }
  }

  lemma {:induction false} StrLeAntisymmetric(a: string, b: string)
    requires StrLe(a, b) && StrLe(b, a)
    ensures a == b
  {
    if |a| > 0 {
      StrLeAntisymmetric(a[1..], b[1..]);
      assert a == [a[0]] + a[1..] && b == [b[0]] + b[1..];
    }
  }

  ghost predicate Total<T(!new)>(le: (T, T) -> bool) {
    forall a, b :: le(a, b) || le(b, a)
  }

  ghost predicate Transitive<T(!new)>(le: (T, T) -> bool) {
    forall a, b, c :: le(a, b) && le(b, c) ==> le(a, c)
  }

  ghost predicate TotalPreorder<T(!new)>(le: (T, T) -> bool) {
    Total(le) && Transitive(le)
  }

  ghost predicate Symmetric<T(!new)>(rel: (T, T) -> bool) {
    forall a, b :: rel(a, b) ==> rel(b, a)
  }

  /** Every element of `s` stands in `rel` to every element after it; with an order, "sorted". */
  ghost predicate Ordered<T>(s: seq<T>, rel: (T, T) -> bool) {
    forall i, j :: 0 <= i < j < |s| ==> rel(s[i], s[j])
  }

  /** Places `x` before the first element it is `le` to. */
  function Insert<T>(x: T, s: seq<T>, le: (T, T) -> bool): (r: seq<T>)
    ensures multiset(r) == multiset(s) + multiset{x}
  {
    if s == [] then [x]
    else if le(x, s[0]) then [x] + s
    else
      assert s == [s[0]] + s[1..];
      [s[0]] + Insert(x, s[1..], le)
  }

  /** Stable insertion sort: equal elements keep their input order. */
  function Sort<T>(s: seq<T>, le: (T, T) -> bool): (r: seq<T>)
    ensures multiset(r) == multiset(s)
  {
    if s == [] then []
    else
      assert s == [s[0]] + s[1..];
      Insert(s[0], Sort(s[1..], le), le)
  }

  lemma {:induction false} InsertOrdered<T(!new)>(x: T, s: seq<T>, le: (T, T) -> bool)
    requires TotalPreorder(le) && Ordered(s, le)
    ensures Ordered(Insert(x, s, le), le)
  {
    if s != [] && !le(x, s[0]) {
      var t := s[1..];
      assert Ordered(t, le);
      InsertOrdered(x, t, le);
      var r := Insert(x, s, le);
      assert r == [s[0]] + Insert(x, t, le);
      forall j | 1 <= j < |r|
        ensures le(s[0], r[j])
      {
        assert r[j] in multiset(Insert(x, t, le));
        assert r[j] == x || r[j] in t;
        assert le(x, s[0]) || le(s[0], x);
      }
    }
  }

  lemma {:induction false} SortOrdered<T(!new)>(s: seq<T>, le: (T, T) -> bool)
    requires TotalPreorder(le)
    ensures Ordered(Sort(s, le), le)
  {
    if s != [] {
      SortOrdered(s[1..], le);
      InsertOrdered(s[0], Sort(s[1..], le), le);
    }
  }

  lemma {:induction false} InsertKeepsPairwise<T(!new)>(x: T, s: seq<T>, le: (T, T) -> bool, rel: (T, T) -> bool)
    requires Symmetric(rel) && Ordered(s, rel)
    requires forall y :: y in s ==> rel(x, y)
    ensures Ordered(Insert(x, s, le), rel)
  {
    if s != [] && !le(x, s[0]) {
      var t := s[1..];
      InsertKeepsPairwise(x, t, le, rel);
      var r := Insert(x, s, le);
      forall j | 1 <= j < |r|
        ensures rel(s[0], r[j])
      {
        assert r[j] in multiset(Insert(x, t, le));
        assert r[j] == x || r[j] in t;
      }
    }
  }

  /** A symmetric relation that holds between all pairs of `s` still does after sorting. */
  lemma {:induction false} SortKeepsPairwise<T(!new)>(s: seq<T>, le: (T, T) -> bool, rel: (T, T) -> bool)
    requires Symmetric(rel) && Ordered(s, rel)
    ensures Ordered(Sort(s, le), rel)
  {
    if s != [] {
      SortKeepsPairwise(s[1..], le, rel);
      var t := Sort(s[1..], le);
      forall y | y in t
        ensures rel(s[0], y)
      {
        assert y in multiset(t);
        var k :| 0 <= k < |s[1..]| && s[1..][k] == y;
        assert s[k + 1] == y;
      }
      InsertKeepsPairwise(s[0], t, le, rel);
    }
  }

  /** The elements of `s` that `le` ranks equal to `e`, in their order in `s`. */
  function EqualTo<T>(s: seq<T>, e: T, le: (T, T) -> bool): seq<T> {
    if s == [] then []
    else (if le(s[0], e) && le(e, s[0]) then [s[0]] else []) + EqualTo(s[1..], e, le)
  }

  lemma EqualToCons<T>(a: T, s: seq<T>, e: T, le: (T, T) -> bool)
    ensures EqualTo([a] + s, e, le) == (if le(a, e) && le(e, a) then [a] else []) + EqualTo(s, e, le)
  {
    assert ([a] + s)[1..] == s;
  }

  lemma ThroughEqual<T(!new)>(x: T, e: T, y: T, le: (T, T) -> bool)
    requires Transitive(le) && le(x, e) && le(e, y)
    ensures le(x, y)
  {
  }

  lemma SwapPastEmpty<T>(a: seq<T>, b: seq<T>, r: seq<T>)
    requires a == [] || b == []
    ensures a + (b + r) == b + (a + r)
  {
    if a == [] {
      assert a + (b + r) == b + r;
      assert a + r == r;
    } else {
      assert b + r == r;
      assert b + (a + r) == a + r;
    }
  }

  /** One step past an element `x` is not `le` to, given the step for the rest. */
  lemma InsertPast<T>(x: T, s: seq<T>, e: T, le: (T, T) -> bool)
    requires s != [] && !le(x, s[0])
    requires forall y :: le(x, e) && le(e, y) ==> le(x, y)
    requires EqualTo(Insert(x, s[1..], le), e, le)
      == (if le(x, e) && le(e, x) then [x] else []) + EqualTo(s[1..], e, le)
    ensures EqualTo(Insert(x, s, le), e, le)
      == (if le(x, e) && le(e, x) then [x] else []) + EqualTo(s, e, le)
  {
    var h, rest := s[0], s[1..];
    var bx := if le(x, e) && le(e, x) then [x] else [];
    var bh := if le(h, e) && le(e, h) then [h] else [];
    var r := EqualTo(rest, e, le);
    assert Insert(x, s, le) == [h] + Insert(x, rest, le);
    EqualToCons(h, Insert(x, rest, le), e, le);
    // were both `x` and `h` equal to `e`, `x` would be `le` to `h`
    assert bh == [] || bx == [];
    calc {
      EqualTo(Insert(x, s, le), e, le);
      bh + (bx + r);
      { SwapPastEmpty(bh, bx, r); }
      bx + (bh + r);
      bx + EqualTo(s, e, le);
    }
  }

  /** Inserting `x` puts it before every element already there that ranks equal to it. */
  lemma {:induction false} InsertStable<T>(x: T, s: seq<T>, e: T, le: (T, T) -> bool)
    requires forall y :: le(x, e) && le(e, y) ==> le(x, y)
    ensures EqualTo(Insert(x, s, le), e, le)
      == (if le(x, e) && le(e, x) then [x] else []) + EqualTo(s, e, le)
  {
    if s == [] || le(x, s[0]) {
      EqualToCons(x, s, e, le);
    } else {
      InsertStable(x, s[1..], e, le);
      InsertPast(x, s, e, le);
    }
  }

  /** The sort is stable: elements that rank equal keep their order in the input. */
  lemma {:induction false} SortStable<T(!new)>(s: seq<T>, e: T, le: (T, T) -> bool)
    requires Transitive(le)
    ensures EqualTo(Sort(s, le), e, le) == EqualTo(s, e, le)
  {
    if s != [] {
      SortStable(s[1..], e, le);
      forall y | le(s[0], e) && le(e, y) {
        ThroughEqual(s[0], e, y, le);
      }
      InsertStable(s[0], Sort(s[1..], le), e, le);
    }
  }
}
