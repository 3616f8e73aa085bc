/**
 * `Array.prototype.sort` with a comparator, as ECMAScript 2019 and later
 * define it: a STABLE sort. A comparator `cmp` is represented by the relation
 * `lt(a, b) == (cmp(a, b) < 0)`, "a must come before b". Every comparator the
 * application passes to `sort` is a strict weak order, and for such an order
 * the stable sort of a sequence is the insertion sort below: each element is
 * placed after every element it does not have to precede.
 */
module StableSort {

  /** Irreflexive, transitive, and "being tied" is transitive too
      (expressed as: if a < c then every b is above a or below c). */
  ghost predicate StrictWeakOrder<T(!new)>(lt: (T, T) -> bool) {
    && (forall a :: !lt(a, a))
    && (forall a, b, c :: lt(a, b) && lt(b, c) ==> lt(a, c))
    && (forall a, b, c :: lt(a, c) ==> lt(a, b) || lt(b, c))
  }

  /** Neither has to come before the other: the comparator returns 0. */
  predicate Tie<T>(lt: (T, T) -> bool, a: T, b: T) {
    !lt(a, b) && !lt(b, a)
  }

  /** No element has to come before an element to its left. */
  ghost predicate Sorted<T>(s: seq<T>, lt: (T, T) -> bool) {
    forall i, j :: 0 <= i < j < |s| ==> !lt(s[j], s[i])
  }

  /** Places `x` in front of the first element it has to precede. */
  function Insert<T>(x: T, s: seq<T>, lt: (T, T) -> bool): (r: seq<T>)
    ensures |r| == |s| + 1
    ensures multiset(r) == multiset(s) + multiset{x}
  {
    if s == [] then [x]
    else if lt(x, s[0]) then [x] + s
    else
      assert s == [s[0]] + s[1..];
      [s[0]] + Insert(x, s[1..], lt)
  }

  /** The stable sort of `s` under `lt`. */
  function Sort<T>(s: seq<T>, lt: (T, T) -> bool): (r: seq<T>)
    ensures |r| == |s|
    ensures multiset(r) == multiset(s)
  {
    if s == [] then []
    else
      assert s == s[..|s| - 1] + [s[|s| - 1]];
      Insert(s[|s| - 1], Sort(s[..|s| - 1], lt), lt)
  }

  /** The elements of `s` tied with `k`, in their order in `s`. */
  function Tied<T>(s: seq<T>, lt: (T, T) -> bool, k: T): (r: seq<T>)
    ensures |r| <= |s|
  {
    if s == [] then []
    else (if Tie(lt, s[0], k) then [s[0]] else []) + Tied(s[1..], lt, k)
  }

  /** The sum of `f` over `s`. */
  function Sum<T>(s: seq<T>, f: T -> int): int {
    if s == [] then 0 else f(s[0]) + Sum(s[1..], f)
  }

  // ---------------------------------------------------------------------------
  // Sortedness

  /** If `x` has to precede the head of a sorted sequence, it has to precede
      every element of it. */
  lemma PrecedesAll<T(!new)>(x: T, s: seq<T>, lt: (T, T) -> bool)
    requires StrictWeakOrder(lt) && Sorted(s, lt)
    requires s != [] && lt(x, s[0])
    ensures forall j :: 0 <= j < |s| ==> lt(x, s[j])
  {
    forall j | 0 < j < |s| ensures lt(x, s[j]) {
      var y, h := s[j], s[0];
      assert !lt(y, h);
      assert lt(x, h) ==> lt(x, y) || lt(y, h);
    }
  }

  lemma {:induction false} InsertSorted<T(!new)>(x: T, s: seq<T>, lt: (T, T) -> bool)
    requires StrictWeakOrder(lt) && Sorted(s, lt)
    ensures Sorted(Insert(x, s, lt), lt)
  {
    if s == [] {
    } else if lt(x, s[0]) {
      FrontSorted(x, s, lt);
    } else {
      SortedTail(s, lt);
      InsertSorted(x, s[1..], lt);
      HeadSorted(x, s, lt);
    }
  }

  /** An element that precedes the head of a sorted sequence can go in front. */
  lemma FrontSorted<T(!new)>(x: T, s: seq<T>, lt: (T, T) -> bool)
    requires StrictWeakOrder(lt) && Sorted(s, lt)
    requires s != [] && lt(x, s[0])
    ensures Sorted([x] + s, lt)
  {
    PrecedesAll(x, s, lt);
    var r := [x] + s;
    forall i, j | 0 <= i < j < |r| ensures !lt(r[j], r[i]) {
      if i == 0 {
        assert lt(x, r[j]);
      } else {
        assert r[i] == s[i - 1] && r[j] == s[j - 1];
      }
    }
  }

  /** The head of a sorted sequence stays in front when `x`, which does not
      precede it, goes into the rest. */
  lemma HeadSorted<T(!new)>(x: T, s: seq<T>, lt: (T, T) -> bool)
    requires StrictWeakOrder(lt) && Sorted(s, lt)
    requires s != [] && !lt(x, s[0]) && Sorted(Insert(x, s[1..], lt), lt)
    ensures Sorted([s[0]] + Insert(x, s[1..], lt), lt)
  {
    var t := s[1..];
    var it := Insert(x, t, lt);
    var r := [s[0]] + it;
    forall i, j | 0 <= i < j < |r| ensures !lt(r[j], r[i]) {
      if i == 0 {
        var y := it[j - 1];
        assert y in multiset(it);
        if y != x {
          assert y in multiset(t);
          var m :| 0 <= m < |t| && t[m] == y;
          assert s[m + 1] == y;
        }
      } else {
        assert r[i] == it[i - 1] && r[j] == it[j - 1];
      }
    }
  }

  /** The stable sort is sorted. */
  lemma {:induction false} SortSorted<T(!new)>(s: seq<T>, lt: (T, T) -> bool)
    requires StrictWeakOrder(lt)
    ensures Sorted(Sort(s, lt), lt)
  {
    if s != [] {
      SortSorted(s[..|s| - 1], lt);
      InsertSorted(s[|s| - 1], Sort(s[..|s| - 1], lt), lt);
    }
  }

  // ---------------------------------------------------------------------------
  // Stability

  lemma {:induction false} TiedConcat<T>(a: seq<T>, b: seq<T>, lt: (T, T) -> bool, k: T)
    ensures Tied(a + b, lt, k) == Tied(a, lt, k) + Tied(b, lt, k)
  {
    if a == [] {
      assert a + b == b;
    } else {
      var h := if Tie(lt, a[0], k) then [a[0]] else [];
      assert (a + b)[0] == a[0] && (a + b)[1..] == a[1..] + b;
      TiedConcat(a[1..], b, lt, k);
      calc {
        Tied(a + b, lt, k);
        h + Tied(a[1..] + b, lt, k);
        h + (Tied(a[1..], lt, k) + Tied(b, lt, k));
        (h + Tied(a[1..], lt, k)) + Tied(b, lt, k);
      }
    }
  }

  /** Nothing in `s` is tied with `k` when everything in `s` is strictly
      after something tied with `k`. */
  lemma {:induction false} NoneTied<T(!new)>(x: T, s: seq<T>, lt: (T, T) -> bool, k: T)
    requires StrictWeakOrder(lt) && Tie(lt, x, k)
    requires forall j :: 0 <= j < |s| ==> lt(x, s[j])
    ensures Tied(s, lt, k) == []
  {
    if s != [] {
      var h := s[0];
      assert lt(x, h) ==> lt(x, k) || lt(k, h);
      NoneTied(x, s[1..], lt, k);
    }
  }

  /** Inserting `x` places it after every element tied with it. */
  lemma {:induction false} InsertTied<T(!new)>(x: T, s: seq<T>, lt: (T, T) -> bool, k: T)
    requires StrictWeakOrder(lt) && Sorted(s, lt)
    ensures Tied(Insert(x, s, lt), lt, k) == Tied(s, lt, k) + (if Tie(lt, x, k) then [x] else [])
  {
    if s == [] {
    } else if lt(x, s[0]) {
      InsertFront(x, s, lt, k);
    } else {
      var t := s[1..];
      SortedTail(s, lt);
      InsertTied(x, t, lt, k);
      TiedConcat([s[0]], Insert(x, t, lt), lt, k);
      TiedConcat([s[0]], t, lt, k);
      SplitFirst(s);
    }
  }

  /** `x` inserted in front of a sorted sequence whose head it precedes is
      the last of the elements tied with `k`. */
  lemma InsertFront<T(!new)>(x: T, s: seq<T>, lt: (T, T) -> bool, k: T)
    requires StrictWeakOrder(lt) && Sorted(s, lt)
    requires s != [] && lt(x, s[0])
    ensures Tied([x] + s, lt, k) == Tied(s, lt, k) + (if Tie(lt, x, k) then [x] else [])
  {
    TiedConcat([x], s, lt, k);
    if Tie(lt, x, k) {
      PrecedesAll(x, s, lt);
      NoneTied(x, s, lt, k);
    }
  }

  lemma SortedTail<T>(s: seq<T>, lt: (T, T) -> bool)
    requires s != [] && Sorted(s, lt)
    ensures Sorted(s[1..], lt)
  {
    var t := s[1..];
    forall i, j | 0 <= i < j < |t| ensures !lt(t[j], t[i]) {
      assert t[i] == s[i + 1] && t[j] == s[j + 1];
    }
  }

  lemma SplitFirst<T>(s: seq<T>)
    requires s != []
    ensures [s[0]] + s[1..] == s
  {
  }

  /** Stability: the elements tied with any `k` appear in the sorted result
      in exactly their order in the input. */
  lemma {:induction false} SortStable<T(!new)>(s: seq<T>, lt: (T, T) -> bool, k: T)
    requires StrictWeakOrder(lt)
    ensures Tied(Sort(s, lt), lt, k) == Tied(s, lt, k)
  {
    if s != [] {
      var init, last := s[..|s| - 1], s[|s| - 1];
      SortStable(init, lt, k);
      SortSorted(init, lt);
      InsertTied(last, Sort(init, lt), lt, k);
      TiedConcat(init, [last], lt, k);
      SplitLast(s);
    }
  }

  lemma SplitLast<T>(s: seq<T>)
    requires s != []
    ensures s[..|s| - 1] + [s[|s| - 1]] == s
  {
  }

  // ---------------------------------------------------------------------------
  // Sums

  lemma {:induction false} InsertSum<T>(x: T, s: seq<T>, lt: (T, T) -> bool, f: T -> int)
    ensures Sum(Insert(x, s, lt), f) == f(x) + Sum(s, f)
  {
    if s != [] && !lt(x, s[0]) {
      InsertSum(x, s[1..], lt, f);
    }
  }

  /** Sorting does not change a sum over the sequence. */
  lemma {:induction false} SortSum<T>(s: seq<T>, lt: (T, T) -> bool, f: T -> int)
    ensures Sum(Sort(s, lt), f) == Sum(s, f)
  {
    if s != [] {
      var init, last := s[..|s| - 1], s[|s| - 1];
      SortSum(init, lt, f);
      InsertSum(last, Sort(init, lt), lt, f);
      SumConcat(init, [last], f);
      SplitLast(s);
    }
  }

  lemma {:induction false} SumConcat<T>(a: seq<T>, b: seq<T>, f: T -> int)
    ensures Sum(a + b, f) == Sum(a, f) + Sum(b, f)
  {
    if a == [] {
      assert a + b == b;
    } else {
      assert (a + b)[0] == a[0] && (a + b)[1..] == a[1..] + b;
      SumConcat(a[1..], b, f);
    }
  }
}
