/**
  Python's `sorted`, for the two forms the scripts use: `sorted(list, key=...)`, which is stable
  and keeps every element, and `sorted(set)`, which keeps one of each.
 */
module Sorting {

  ghost predicate TotalPreorder<T(!new)>(le: (T, T) -> bool) {
    && (forall a, b :: le(a, b) || le(b, a))
    && (forall a, b, c :: le(a, b) && le(b, c) ==> le(a, c))
  }

  ghost predicate Antisymmetric<T(!new)>(le: (T, T) -> bool) {
    forall a, b :: le(a, b) && le(b, a) ==> a == b
  }

  ghost predicate SortedBy<T>(le: (T, T) -> bool, s: seq<T>) {
    forall i, j :: 0 <= i < j < |s| ==> le(s[i], s[j])
  }

  ghost predicate Distinct<T>(s: seq<T>) {
    forall i, j :: 0 <= i < j < |s| ==> s[i] != s[j]
  }

  /** Puts `x` before the first element that is strictly larger. */
  function Insert<T>(le: (T, T) -> bool, s: seq<T>, x: T): seq<T> {
    if s == [] then [x]
    else if le(s[0], x) then [s[0]] + Insert(le, s[1..], x)
    else [x] + s
  }

  function SortBy<T>(le: (T, T) -> bool, s: seq<T>): seq<T> {
    if s == [] then [] else Insert(le, SortBy(le, s[..|s| - 1]), s[|s| - 1])
  }

  lemma {:induction false} InsertKeeps<T(!new)>(le: (T, T) -> bool, s: seq<T>, x: T)
    ensures multiset(Insert(le, s, x)) == multiset(s) + multiset{x}
  {
    if s != [] && le(s[0], x) {
      InsertKeeps(le, s[1..], x);
      assert s == [s[0]] + s[1..];
    }
  }

  lemma {:induction false} InsertMembers<T(!new)>(le: (T, T) -> bool, s: seq<T>, x: T)
    ensures forall y :: y in Insert(le, s, x) <==> y in s || y == x
  {
    if s != [] && le(s[0], x) {
      InsertMembers(le, s[1..], x);
      assert s == [s[0]] + s[1..];
    }
  }

  /** A sequence is sorted when its first element is below the others and they are sorted. */
  lemma SortedCons<T(!new)>(le: (T, T) -> bool, x: T, s: seq<T>)
    requires SortedBy(le, s) && forall y :: y in s ==> le(x, y)
    ensures SortedBy(le, [x] + s)
  {
  }

  lemma {:induction false} InsertSorts<T(!new)>(le: (T, T) -> bool, s: seq<T>, x: T)
    requires TotalPreorder(le) && SortedBy(le, s)
    ensures SortedBy(le, Insert(le, s, x))
    ensures multiset(Insert(le, s, x)) == multiset(s) + multiset{x}
  {
    InsertKeeps(le, s, x);
    if s == [] {
    } else if le(s[0], x) {
      SortedTail(le, s);
      InsertSorts(le, s[1..], x);
      InsertMembers(le, s[1..], x);
      forall y | y in Insert(le, s[1..], x) ensures le(s[0], y) {
        if y in s[1..] {
          FirstIsLeast(le, s, y);
        }
      }
      SortedCons(le, s[0], Insert(le, s[1..], x));
    } else {
      forall y | y in s ensures le(x, y) {
        FirstIsLeast(le, s, y);
      }
      SortedCons(le, x, s);
    }
  }

  /** Sorting keeps the elements and orders them. */
  lemma {:induction false} SortBySorts<T(!new)>(le: (T, T) -> bool, s: seq<T>)
    requires TotalPreorder(le)
    ensures SortedBy(le, SortBy(le, s))
    ensures multiset(SortBy(le, s)) == multiset(s)
    ensures |SortBy(le, s)| == |s|
  {
    if s == [] {
    } else {
      var n := |s| - 1;
      SortBySorts(le, s[..n]);
      InsertSorts(le, SortBy(le, s[..n]), s[n]);
      assert s == s[..n] + [s[n]];
      assert |multiset(SortBy(le, s))| == |multiset(s)|;
    }
  }

  lemma {:induction false} SortByElements<T(!new)>(le: (T, T) -> bool, s: seq<T>)
    requires TotalPreorder(le)
    ensures forall x :: x in SortBy(le, s) <==> x in s
  {
    SortBySorts(le, s);
    forall x ensures x in SortBy(le, s) <==> x in s {
      assert x in SortBy(le, s) <==> x in multiset(SortBy(le, s));
      assert x in s <==> x in multiset(s);
    }
  }

  lemma SameMembers<T(!new)>(a: seq<T>, b: seq<T>, x: T)
    requires multiset(a) == multiset(b) && x in a
    ensures x in b
  {
    assert x in multiset(a);
  }

  lemma SameLength<T(!new)>(a: seq<T>, b: seq<T>)
    requires multiset(a) == multiset(b)
    ensures |a| == |b|
  {
    assert |a| == |multiset(a)| == |multiset(b)| == |b|;
  }

  lemma {:induction false} DistinctCounts<T>(s: seq<T>, x: T)
    requires Distinct(s)
    ensures multiset(s)[x] <= 1
  {
    if s != [] {
      var n := |s| - 1;
      DistinctCounts(s[..n], x);
      assert s == s[..n] + [s[n]];
      if s[n] == x {
        assert x !in s[..n];
      }
    }
  }

  lemma RepeatCounts<T>(s: seq<T>, i: nat, j: nat)
    requires i < j < |s| && s[i] == s[j]
    ensures multiset(s)[s[i]] >= 2
  {
    assert s == (s[..i] + [s[i]]) + s[i + 1..];
    assert s[i + 1..][j - i - 1] == s[j];
    assert s[j] in multiset(s[i + 1..]);
  }

  /** Reordering keeps elements apart. */
  lemma DistinctOfPermutation<T(!new)>(a: seq<T>, b: seq<T>)
    requires Distinct(a) && multiset(a) == multiset(b)
    ensures Distinct(b)
  {
    forall i, j | 0 <= i < j < |b| ensures b[i] != b[j] {
      if b[i] == b[j] {
        RepeatCounts(b, i, j);
        DistinctCounts(a, b[i]);
        assert false;
      }
    }
  }

  lemma SameTails<T(!new)>(a: seq<T>, b: seq<T>)
    requires multiset(a) == multiset(b) && a != [] && b != [] && a[0] == b[0]
    ensures multiset(a[1..]) == multiset(b[1..])
  {
    assert a == [a[0]] + a[1..] && b == [b[0]] + b[1..];
    assert multiset(a[1..]) == multiset(a) - multiset{a[0]};
    assert multiset(b[1..]) == multiset(b) - multiset{b[0]};
  }

  /** The first element of a sorted sequence is not larger than any other. */
  lemma FirstIsLeast<T(!new)>(le: (T, T) -> bool, a: seq<T>, x: T)
    requires TotalPreorder(le) && SortedBy(le, a) && x in a
    ensures le(a[0], x)
  {
    var i :| 0 <= i < |a| && a[i] == x;
  }

  lemma SameFirst<T(!new)>(le: (T, T) -> bool, a: seq<T>, b: seq<T>)
    requires TotalPreorder(le) && Antisymmetric(le)
    requires SortedBy(le, a) && SortedBy(le, b) && multiset(a) == multiset(b) && a != [] && b != []
    ensures a[0] == b[0]
  {
    SameMembers(a, b, a[0]);
    SameMembers(b, a, b[0]);
    FirstIsLeast(le, a, b[0]);
    FirstIsLeast(le, b, a[0]);
  }

  lemma SortedTail<T>(le: (T, T) -> bool, a: seq<T>)
    requires SortedBy(le, a) && a != []
    ensures SortedBy(le, a[1..])
  {
  }

  /** Under an order, the sorted arrangement of a collection is unique. */
  lemma {:induction false} SortedIsUnique<T(!new)>(le: (T, T) -> bool, a: seq<T>, b: seq<T>)
    requires TotalPreorder(le) && Antisymmetric(le)
    requires SortedBy(le, a) && SortedBy(le, b) && multiset(a) == multiset(b)
    ensures a == b
  {
    SameLength(a, b);
    if a != [] {
      SameFirst(le, a, b);
      SameTails(a, b);
      SortedTail(le, a);
      SortedTail(le, b);
      SortedIsUnique(le, a[1..], b[1..]);
      assert a == [a[0]] + a[1..] && b == [b[0]] + b[1..];
    }
  }

  // ---- sorted(set) --------------------------------------------------------

  ghost predicate StrictOrder<T(!new)>(less: (T, T) -> bool) {
    && (forall a :: !less(a, a))
    && (forall a, b :: less(a, b) || less(b, a) || a == b)
    && (forall a, b, c :: less(a, b) && less(b, c) ==> less(a, c))
  }

  ghost predicate Ascending<T>(less: (T, T) -> bool, s: seq<T>) {
    forall i, j :: 0 <= i < j < |s| ==> less(s[i], s[j])
  }

  function InsertNew<T(==)>(less: (T, T) -> bool, s: seq<T>, x: T): seq<T> {
    if s == [] then [x]
    else if s[0] == x then s
    else if less(s[0], x) then [s[0]] + InsertNew(less, s[1..], x)
    else [x] + s
  }

  /** `sorted(set(s))`. */
  function SortedSet<T(==)>(less: (T, T) -> bool, s: seq<T>): seq<T> {
    if s == [] then [] else InsertNew(less, SortedSet(less, s[..|s| - 1]), s[|s| - 1])
  }

  lemma {:induction false} InsertNewAscends<T(!new)>(less: (T, T) -> bool, s: seq<T>, x: T)
    requires StrictOrder(less) && Ascending(less, s)
    ensures Ascending(less, InsertNew(less, s, x))
    ensures forall y :: y in InsertNew(less, s, x) <==> y in s || y == x
  {
    if s == [] {
    } else if s[0] == x {
    } else if less(s[0], x) {
      InsertNewAscends(less, s[1..], x);
      assert s == [s[0]] + s[1..];
      var rest := InsertNew(less, s[1..], x);
      forall j | 0 <= j < |rest| ensures less(s[0], rest[j]) {
        assert rest[j] in rest;
        if rest[j] != x {
          assert rest[j] in s[1..];
        }
      }
    } else {
      forall j | 0 <= j < |s| ensures less(x, s[j]) {
        if j > 0 {
          assert less(s[0], s[j]);
        }
      }
    }
  }

  lemma {:induction false} SortedSetAscends<T(!new)>(less: (T, T) -> bool, s: seq<T>)
    requires StrictOrder(less)
    ensures Ascending(less, SortedSet(less, s))
    ensures forall y :: y in SortedSet(less, s) <==> y in s
  {
    if s == [] {
    } else {
      var n := |s| - 1;
      SortedSetAscends(less, s[..n]);
      InsertNewAscends(less, SortedSet(less, s[..n]), s[n]);
      assert s == s[..n] + [s[n]];
    }
  }

  /** Ascending sequences with the same members are equal: `sorted(set)` has one answer. */
  lemma {:induction false} AscendingIsUnique<T(!new)>(less: (T, T) -> bool, a: seq<T>, b: seq<T>)
    requires StrictOrder(less) && Ascending(less, a) && Ascending(less, b)
    requires forall y :: y in a <==> y in b
    ensures a == b
  {
    assert b == [] || b[0] in b;
    if a == [] {
    } else {
      assert a[0] in b;
      assert b[0] in a;
      assert a[0] == b[0];
      forall y ensures y in a[1..] <==> y in b[1..] {
        if y in a[1..] {
          assert less(a[0], y) && y in a;
          assert y in b;
        }
        if y in b[1..] {
          assert less(b[0], y) && y in b;
          assert y in a;
        }
      }
      AscendingIsUnique(less, a[1..], b[1..]);
    }
  }

  // ---- the orders in use --------------------------------------------------

  function IntLess(a: int, b: int): bool {
    a < b
  }

  lemma IntLessIsStrict()
    ensures StrictOrder(IntLess)
  {
  }

  /** Python's order on `str`: the first differing code point decides, a prefix comes first. */
  predicate StringLess(a: string, b: string) {
    b != [] && (a == [] || a[0] < b[0] || (a[0] == b[0] && StringLess(a[1..], b[1..])))
  }

  lemma {:induction false} StringLessTotal(a: string, b: string)
    ensures !StringLess(a, a)
    ensures StringLess(a, b) || StringLess(b, a) || a == b
    decreases |a|
  {
    if a != [] {
      if b != [] && a[0] == b[0] {
        StringLessTotal(a[1..], b[1..]);
        assert a == [a[0]] + a[1..] && b == [b[0]] + b[1..];
      } else {
        StringLessTotal(a[1..], []);
      }
    }
  }

  lemma {:induction false} StringLessTransitive(a: string, b: string, c: string)
    requires StringLess(a, b) && StringLess(b, c)
    ensures StringLess(a, c)
    decreases |a|
  {
    if a != [] && a[0] == b[0] == c[0] {
      StringLessTransitive(a[1..], b[1..], c[1..]);
    }
  }

  lemma StringLessIsStrict()
    ensures StrictOrder(StringLess)
  {
    forall a: string ensures !StringLess(a, a) {
      StringLessTotal(a, a);
    }
    forall a: string, b: string ensures StringLess(a, b) || StringLess(b, a) || a == b {
      StringLessTotal(a, b);
    }
    forall a: string, b: string, c: string | StringLess(a, b) && StringLess(b, c) ensures StringLess(a, c) {
      StringLessTransitive(a, b, c);
    }
  }
}
