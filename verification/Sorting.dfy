/** sort.SliceStable over a "less" function, and when its outcome is independent of input order. */
module Sorting {

  /** Puts x behind every element it is not less than, so equal elements keep their order. */
  function InsertLast<T>(less: (T, T) -> bool, s: seq<T>, x: T): (r: seq<T>)
    ensures |r| == |s| + 1
  {
    if s == [] || !less(x, s[|s| - 1]) then s + [x]
    else InsertLast(less, s[..|s| - 1], x) + [s[|s| - 1]]
  }

  function StableSort<T>(less: (T, T) -> bool, s: seq<T>): (r: seq<T>)
    ensures |r| == |s|
  {
    if s == [] then [] else InsertLast(less, StableSort(less, s[..|s| - 1]), s[|s| - 1])
  }

  ghost predicate Sorted<T>(less: (T, T) -> bool, s: seq<T>) {
    forall i, j :: 0 <= i < j < |s| ==> !less(s[j], s[i])
  }

  /** less is a strict order on the elements of s that tells distinct elements apart. */
  ghost predicate TotalOn<T>(less: (T, T) -> bool, s: multiset<T>) {
    && (forall x :: x in s ==> !less(x, x))
    && (forall x, y :: x in s && y in s && x != y ==> less(x, y) != less(y, x))
    && (forall x, y, z :: x in s && y in s && z in s && less(x, y) && less(y, z) ==> less(x, z))
  }

  lemma {:induction false} InsertKeeps<T>(less: (T, T) -> bool, s: seq<T>, x: T)
    ensures multiset(InsertLast(less, s, x)) == multiset(s) + multiset{x}
  {
    if s != [] && less(x, s[|s| - 1]) {
      InsertKeeps(less, s[..|s| - 1], x);
      assert s == s[..|s| - 1] + [s[|s| - 1]];
    }
  }

  lemma {:induction false} SortKeeps<T>(less: (T, T) -> bool, s: seq<T>)
    ensures multiset(StableSort(less, s)) == multiset(s)
  {
    if s != [] {
      SortKeeps(less, s[..|s| - 1]);
      InsertKeeps(less, StableSort(less, s[..|s| - 1]), s[|s| - 1]);
      assert s == s[..|s| - 1] + [s[|s| - 1]];
    }
  }

  /** Sorting neither adds nor drops elements. */
  lemma SortMembers<T>(less: (T, T) -> bool, s: seq<T>)
    ensures forall x :: x in StableSort(less, s) <==> x in s
  {
    SortKeeps(less, s);
    forall x ensures x in StableSort(less, s) <==> x in s {
      assert x in multiset(StableSort(less, s)) <==> x in multiset(s);
    }
  }

  lemma NotLessTransitive<T>(less: (T, T) -> bool, m: multiset<T>, a: T, b: T, c: T)
    requires TotalOn(less, m) && a in m && b in m && c in m
    requires !less(a, b) && !less(b, c)
    ensures !less(a, c)
  {
  }

  /** If x is not less than the last element of a sorted s it is not less than any. */
  lemma NotLessThanAny<T>(less: (T, T) -> bool, m: multiset<T>, s: seq<T>, x: T)
    requires TotalOn(less, m) && multiset(s) <= m && x in m
    requires Sorted(less, s) && s != [] && !less(x, s[|s| - 1])
    ensures forall y :: y in multiset(s) ==> !less(x, y)
  {
    forall y | y in multiset(s) ensures !less(x, y) {
      var i :| 0 <= i < |s| && s[i] == y;
      var last := s[|s| - 1];
      assert last in multiset(s);
      if i < |s| - 1 {
        NotLessTransitive(less, m, x, last, y);
      }
    }
  }

  lemma {:induction false} InsertSorted<T>(less: (T, T) -> bool, m: multiset<T>, s: seq<T>, x: T)
    requires Sorted(less, s) && TotalOn(less, m) && multiset(s) <= m && x in m
    ensures Sorted(less, InsertLast(less, s, x))
  {
    if s != [] {
      var init, last := s[..|s| - 1], s[|s| - 1];
      assert s == init + [last];
      assert last in multiset(s);
      if less(x, last) {
        InsertSorted(less, m, init, x);
        InsertKeeps(less, init, x);
        forall y | y in multiset(InsertLast(less, init, x)) ensures !less(last, y) {
          if y in multiset(init) {
            var i :| 0 <= i < |init| && init[i] == y;
            assert s[i] == y;
          }
        }
        SortedSnoc(less, InsertLast(less, init, x), last);
      } else {
        NotLessThanAny(less, m, s, x);
        SortedSnoc(less, s, x);
      }
    }
  }

  lemma SortedSnoc<T>(less: (T, T) -> bool, s: seq<T>, last: T)
    requires Sorted(less, s)
    requires forall y :: y in multiset(s) ==> !less(last, y)
    ensures Sorted(less, s + [last])
  {
    forall i | 0 <= i < |s| ensures !less(last, s[i]) {
      assert s[i] in multiset(s);
    }
  }

  lemma {:induction false} SortSorted<T>(less: (T, T) -> bool, s: seq<T>)
    requires TotalOn(less, multiset(s))
    ensures Sorted(less, StableSort(less, s))
  {
    if s != [] {
      var init, last := s[..|s| - 1], s[|s| - 1];
      assert s == init + [last];
      SortKeeps(less, init);
      SubTotal(less, multiset(s), multiset(init));
      SortSorted(less, init);
      InsertSorted(less, multiset(s), StableSort(less, init), last);
    }
  }

  /** The first elements of two sorted arrangements of the same elements agree. */
  lemma SameFirst<T>(less: (T, T) -> bool, a: seq<T>, b: seq<T>)
    requires a != [] && b != [] && multiset(a) == multiset(b)
    requires TotalOn(less, multiset(a))
    requires Sorted(less, a) && Sorted(less, b)
    ensures a[0] == b[0]
  {
    assert a[0] in multiset(b) && b[0] in multiset(a);
    var i :| 0 <= i < |b| && b[i] == a[0];
    var j :| 0 <= j < |a| && a[j] == b[0];
  }

  lemma {:induction false} SortedUnique<T>(less: (T, T) -> bool, a: seq<T>, b: seq<T>)
    requires multiset(a) == multiset(b)
    requires TotalOn(less, multiset(a))
    requires Sorted(less, a) && Sorted(less, b)
    ensures a == b
  {
    SameLength(a, b);
    if a != [] {
      hide *;
      SameFirst(less, a, b);
      SameRest(less, a, b);
      SortedUnique(less, a[1..], b[1..]);
      assert a == [a[0]] + a[1..] && b == [b[0]] + b[1..];
    }
  }

  lemma SameLength<T>(a: seq<T>, b: seq<T>)
    requires multiset(a) == multiset(b)
    ensures |a| == |b|
  {
    assert |a| == |multiset(a)| && |b| == |multiset(b)|;
  }

  lemma SameRest<T>(less: (T, T) -> bool, a: seq<T>, b: seq<T>)
    requires a != [] && b != [] && a[0] == b[0] && multiset(a) == multiset(b)
    requires TotalOn(less, multiset(a)) && Sorted(less, a) && Sorted(less, b)
    ensures multiset(a[1..]) == multiset(b[1..]) && TotalOn(less, multiset(a[1..]))
    ensures Sorted(less, a[1..]) && Sorted(less, b[1..])
  {
    TailSorted(less, a);
    TailSorted(less, b);
    hide *;
    DropFirst(a);
    DropFirst(b);
    SubTotal(less, multiset(a), multiset(a[1..]));
  }

  lemma TailSorted<T>(less: (T, T) -> bool, s: seq<T>)
    requires Sorted(less, s) && s != []
    ensures Sorted(less, s[1..])
  {
  }

  lemma DropFirst<T>(s: seq<T>)
    requires s != []
    ensures multiset(s[1..]) == multiset(s) - multiset{s[0]}
  {
    assert s == [s[0]] + s[1..];
  }

  lemma SubTotal<T>(less: (T, T) -> bool, m: multiset<T>, n: multiset<T>)
    requires TotalOn(less, m) && n <= m
    ensures TotalOn(less, n)
  {
  }

  /** The sorted list depends only on the multiset of elements once less tells them apart. */
  lemma SortOrderFree<T>(less: (T, T) -> bool, a: seq<T>, b: seq<T>)
    requires multiset(a) == multiset(b)
    requires TotalOn(less, multiset(a))
    ensures StableSort(less, a) == StableSort(less, b)
  {
    SortKeeps(less, a);
    SortKeeps(less, b);
    SortSorted(less, a);
    SortSorted(less, b);
    SortedUnique(less, StableSort(less, a), StableSort(less, b));
  }

  // Stability.

  function Only<T>(pick: T -> bool, s: seq<T>): seq<T> {
    if s == [] then []
    else Only(pick, s[..|s| - 1]) + (if pick(s[|s| - 1]) then [s[|s| - 1]] else [])
  }

  lemma OnlySnoc<T>(pick: T -> bool, s: seq<T>, x: T)
    ensures Only(pick, s + [x]) == Only(pick, s) + (if pick(x) then [x] else [])
  {
    assert (s + [x])[..|s|] == s;
  }

  lemma {:induction false} OnlyConcat<T>(pick: T -> bool, s: seq<T>, t: seq<T>)
    ensures Only(pick, s + t) == Only(pick, s) + Only(pick, t)
  {
    if t == [] {
      assert s + t == s;
    } else {
      var init, last := t[..|t| - 1], t[|t| - 1];
      OnlyConcat(pick, s, init);
      OnlySnoc(pick, s + init, last);
      assert s + t == s + init + [last];
    }
  }

  lemma {:induction false} InsertStable<T(!new)>(less: (T, T) -> bool, pick: T -> bool, s: seq<T>, x: T)
    requires forall a, b :: pick(a) && pick(b) ==> !less(a, b)
    ensures Only(pick, InsertLast(less, s, x)) == Only(pick, s) + (if pick(x) then [x] else [])
  {
    OnlySnoc(pick, s, x);
    if s != [] && less(x, s[|s| - 1]) {
      var init, last := s[..|s| - 1], s[|s| - 1];
      InsertStable(less, pick, init, x);
      OnlySnoc(pick, InsertLast(less, init, x), last);
    }
  }

  /** Elements of which none is less than another keep their order. */
  lemma {:induction false} SortStable<T(!new)>(less: (T, T) -> bool, pick: T -> bool, s: seq<T>)
    requires forall a, b :: pick(a) && pick(b) ==> !less(a, b)
    ensures Only(pick, StableSort(less, s)) == Only(pick, s)
  {
    if s != [] {
      SortStable(less, pick, s[..|s| - 1]);
      InsertStable(less, pick, StableSort(less, s[..|s| - 1]), s[|s| - 1]);
    }
  }
}
