/**
 * Array.prototype.toSorted with a comparator: a stable sort that returns a
 * new sequence. It is modelled as insertion sort: the elements are taken in
 * input order and each is placed just before the first already placed
 * element that compares strictly greater, so elements that compare equal
 * keep their input order.
 *
 * ECMA-262 fixes the result only when the comparator is consistent; the
 * lemmas below that speak of order assume it (ConsistentOn). Permutation
 * holds for any comparator. That already ordered input comes back unchanged
 * is proved for any comparator too, but for an inconsistent one this is a
 * property of the insertion-sort model, not of the standard, which leaves
 * the order implementation-defined there.
 */
module StableSort {
  import opened Seqs

  /** Inserts `x` into `s` before the first element that compares greater than `x`. */
  function Insert<T>(x: T, s: seq<T>, cmp: (T, T) -> int): (r: seq<T>)
    ensures |r| == |s| + 1
    ensures multiset(r) == multiset(s) + multiset{x}
  {
    if s == [] then [x]
    else if cmp(s[0], x) > 0 then [x] + s
    else
      var rest := Insert(x, s[1..], cmp);
      assert s == [s[0]] + s[1..];
      [s[0]] + rest
  }

  /** Stable sort of `s` under `cmp`. */
  function SortBy<T>(s: seq<T>, cmp: (T, T) -> int): (r: seq<T>)
    ensures |r| == |s|
    ensures multiset(r) == multiset(s)
  {
    if s == [] then []
    else
      var sorted := SortBy(s[..|s| - 1], cmp);
      assert s == s[..|s| - 1] + [s[|s| - 1]];
      Insert(s[|s| - 1], sorted, cmp)
  }

  /** `s` is ordered by `cmp`: no element compares greater than a later one. */
  ghost predicate Sorted<T>(s: seq<T>, cmp: (T, T) -> int)
  {
    forall i, j :: 0 <= i < j < |s| ==> cmp(s[i], s[j]) <= 0
  }

  /**
   * On the elements of `s`, `cmp` is a consistent comparator: swapping its
   * arguments flips the sign, and "compares at most" is transitive.
   */
  ghost predicate ConsistentOn<T>(cmp: (T, T) -> int, s: seq<T>)
  {
    && (forall a, b :: a in s && b in s ==> (cmp(a, b) < 0 <==> cmp(b, a) > 0) && (cmp(a, b) == 0 <==> cmp(b, a) == 0))
    && (forall a, b, c :: a in s && b in s && c in s && cmp(a, b) <= 0 && cmp(b, c) <= 0 ==> cmp(a, c) <= 0)
  }

  /** The test for membership in the class of `e`: comparing equal to `e`. */
  function InClass<T>(cmp: (T, T) -> int, e: T): T -> bool
  {
    x => cmp(x, e) == 0
  }

  /** The elements of `s` that compare equal to `e`, in their order in `s`: the class of `e`. */
  function SameClass<T>(s: seq<T>, cmp: (T, T) -> int, e: T): (r: seq<T>)
    ensures |r| <= |s|
    ensures forall x :: x in r ==> x in s && cmp(x, e) == 0
  {
    KeepMembers(s, InClass(cmp, e));
    Keep(s, InClass(cmp, e))
  }

  lemma SameClassAppend<T>(a: seq<T>, b: seq<T>, cmp: (T, T) -> int, e: T)
    ensures SameClass(a + b, cmp, e) == SameClass(a, cmp, e) + SameClass(b, cmp, e)
  {
    KeepAppend(a, b, InClass(cmp, e));
  }

  lemma SameClassEmpty<T>(s: seq<T>, cmp: (T, T) -> int, e: T)
    requires forall x :: x in s ==> cmp(x, e) != 0
    ensures SameClass(s, cmp, e) == []
  {
    KeepNone(s, InClass(cmp, e));
  }

  /** Every element of `s` is an element of `u`. */
  ghost predicate Within<T>(s: seq<T>, u: seq<T>)
  {
    forall y :: y in s ==> y in u
  }

  lemma SortedCons<T>(a: T, t: seq<T>, cmp: (T, T) -> int)
    requires Sorted(t, cmp)
    requires forall y :: y in t ==> cmp(a, y) <= 0
    ensures Sorted([a] + t, cmp)
  {
    var s := [a] + t;
    forall i, j | 0 <= i < j < |s| ensures cmp(s[i], s[j]) <= 0 {
      if i == 0 {
        assert s[j] == t[j - 1];
      } else {
        assert s[i] == t[i - 1] && s[j] == t[j - 1];
      }
    }
  }

  /** In an ordered sequence the first element compares at most every element. */
  lemma SortedHead<T>(s: seq<T>, cmp: (T, T) -> int, y: T)
    requires Sorted(s, cmp) && s != [] && y in s && y != s[0]
    ensures cmp(s[0], y) <= 0
  {
    var j :| 0 <= j < |s| && s[j] == y;
    assert j > 0;
  }

  /** The elements of Insert's result are `x` and those of `s`. */
  lemma InsertElements<T>(x: T, s: seq<T>, cmp: (T, T) -> int, y: T)
    requires y in Insert(x, s, cmp)
    ensures y == x || y in s
  {
    assert y in multiset(Insert(x, s, cmp));
  }

  /** Inserting into an ordered sequence keeps it ordered. */
  lemma {:induction false} InsertSorted<T>(x: T, s: seq<T>, cmp: (T, T) -> int, u: seq<T>)
    requires ConsistentOn(cmp, u) && Within(s, u) && x in u
    requires Sorted(s, cmp)
    ensures Sorted(Insert(x, s, cmp), cmp)
  {
    if s == [] {
    } else if cmp(s[0], x) > 0 {
      assert s[0] in u;
      forall y | y in s ensures cmp(x, y) <= 0 {
        if y != s[0] {
          SortedHead(s, cmp, y);
          assert y in u;
        }
      }
      SortedCons(x, s, cmp);
    } else {
      assert Sorted(s[1..], cmp);
      InsertSorted(x, s[1..], cmp, u);
      var rest := Insert(x, s[1..], cmp);
      forall y | y in rest ensures cmp(s[0], y) <= 0 {
        InsertElements(x, s[1..], cmp, y);
        if y != x && y != s[0] {
          SortedHead(s, cmp, y);
        }
      }
      SortedCons(s[0], rest, cmp);
    }
  }

  /** The elements of SortBy's result are those of its input. */
  lemma SortByElements<T>(s: seq<T>, cmp: (T, T) -> int, u: seq<T>)
    requires Within(s, u)
    ensures Within(SortBy(s, cmp), u)
  {
    forall y | y in SortBy(s, cmp) ensures y in u {
      assert y in multiset(SortBy(s, cmp));
      assert y in s;
    }
  }

  lemma {:induction false} SortBySortedWithin<T>(s: seq<T>, cmp: (T, T) -> int, u: seq<T>)
    requires ConsistentOn(cmp, u) && Within(s, u)
    ensures Sorted(SortBy(s, cmp), cmp)
  {
    if s != [] {
      var init, last := s[..|s| - 1], s[|s| - 1];
      assert Within(init, u) by {
        forall y | y in init ensures y in u {
          assert y in s;
        }
      }
      SortBySortedWithin(init, cmp, u);
      SortByElements(init, cmp, u);
      InsertSorted(last, SortBy(init, cmp), cmp, u);
    }
  }

  /** Under a consistent comparator, SortBy orders its input. */
  lemma SortBySorted<T>(s: seq<T>, cmp: (T, T) -> int)
    requires ConsistentOn(cmp, s)
    ensures Sorted(SortBy(s, cmp), cmp)
  {
    SortBySortedWithin(s, cmp, s);
  }

  /** Inserting an element outside the class of `e` leaves the class as it was. */
  lemma {:induction false} InsertOtherClass<T>(x: T, s: seq<T>, cmp: (T, T) -> int, e: T)
    requires cmp(x, e) != 0
    ensures SameClass(Insert(x, s, cmp), cmp, e) == SameClass(s, cmp, e)
  {
    var inClass := InClass(cmp, e);
    if s == [] {
      KeepStep(x, [], inClass);
      assert [x] + [] == [x];
    } else if cmp(s[0], x) > 0 {
      KeepStep(x, s, inClass);
    } else {
      InsertOtherClass(x, s[1..], cmp, e);
      KeepStep(s[0], Insert(x, s[1..], cmp), inClass);
      KeepStep(s[0], s[1..], inClass);
      assert s == [s[0]] + s[1..];
    }
  }

  /**
   * In an ordered sequence whose first element compares greater than `x`,
   * nothing compares equal to `e`, an element of `x`'s class.
   */
  lemma NoClassAboveGreater<T>(x: T, s: seq<T>, cmp: (T, T) -> int, e: T, u: seq<T>)
    requires ConsistentOn(cmp, u) && Within(s, u) && x in u && e in u
    requires Sorted(s, cmp)
    requires s != [] && cmp(s[0], x) > 0
    requires cmp(x, e) == 0
    ensures forall y :: y in s ==> cmp(y, e) != 0
  {
    assert s[0] in u;
    assert cmp(e, x) == 0;
    forall y | y in s ensures cmp(y, e) != 0 {
      assert y in u;
      if y != s[0] {
        SortedHead(s, cmp, y);
      }
    }
  }

  /** Inserting an element of the class of `e` puts it after every member of that class. */
  lemma {:induction false} InsertSameClass<T>(x: T, s: seq<T>, cmp: (T, T) -> int, e: T, u: seq<T>)
    requires ConsistentOn(cmp, u) && Within(s, u) && x in u && e in u
    requires Sorted(s, cmp)
    requires cmp(x, e) == 0
    ensures SameClass(Insert(x, s, cmp), cmp, e) == SameClass(s, cmp, e) + [x]
  {
    if s == [] {
    } else if cmp(s[0], x) > 0 {
      NoClassAboveGreater(x, s, cmp, e, u);
      SameClassEmpty(s, cmp, e);
    } else {
      assert Sorted(s[1..], cmp);
      InsertSameClass(x, s[1..], cmp, e, u);
    }
  }

  lemma {:induction false} SortByStableWithin<T>(s: seq<T>, cmp: (T, T) -> int, e: T, u: seq<T>)
    requires ConsistentOn(cmp, u) && Within(s, u) && e in u
    ensures SameClass(SortBy(s, cmp), cmp, e) == SameClass(s, cmp, e)
  {
    if s != [] {
      var init, last := s[..|s| - 1], s[|s| - 1];
      assert s == init + [last];
      assert Within(init, u) by {
        forall y | y in init ensures y in u {
          assert y in s;
        }
      }
      SortByStableWithin(init, cmp, e, u);
      SortBySnocKeepsClass(init, last, cmp, e, u);
    }
  }

  /** Sorting one more element at the end keeps the class of `e` in input order, if sorting the rest did. */
  lemma SortBySnocKeepsClass<T>(init: seq<T>, last: T, cmp: (T, T) -> int, e: T, u: seq<T>)
    requires ConsistentOn(cmp, u) && Within(init, u) && last in u && e in u
    requires SameClass(SortBy(init, cmp), cmp, e) == SameClass(init, cmp, e)
    ensures SameClass(SortBy(init + [last], cmp), cmp, e) == SameClass(init + [last], cmp, e)
  {
    var s := init + [last];
    assert s[..|s| - 1] == init;
    SortBySnoc(s, cmp);
    var sorted := SortBy(init, cmp);
    SameClassAppend(init, [last], cmp, e);
    KeepStep(last, [], InClass(cmp, e));
    assert [last] + [] == [last];
    if cmp(last, e) == 0 {
      SortBySortedWithin(init, cmp, u);
      SortByElements(init, cmp, u);
      InsertSameClass(last, sorted, cmp, e, u);
    } else {
      InsertOtherClass(last, sorted, cmp, e);
    }
  }

  /**
   * Stability: under a consistent comparator, the elements that compare
   * equal to an element `e` of the input appear in SortBy's result in the
   * same order as in the input.
   */
  lemma SortByStable<T>(s: seq<T>, cmp: (T, T) -> int, e: T)
    requires ConsistentOn(cmp, s) && e in s
    ensures SameClass(SortBy(s, cmp), cmp, e) == SameClass(s, cmp, e)
  {
    SortByStableWithin(s, cmp, e, s);
  }

  /** An insertion that finds nothing greater appends. */
  lemma {:induction false} InsertAppends<T>(x: T, s: seq<T>, cmp: (T, T) -> int)
    requires forall i :: 0 <= i < |s| ==> cmp(s[i], x) <= 0
    ensures Insert(x, s, cmp) == s + [x]
  {
    if s != [] {
      assert cmp(s[0], x) <= 0;
      forall i | 0 <= i < |s| - 1 ensures cmp(s[1..][i], x) <= 0 {
        assert s[1..][i] == s[i + 1];
      }
      InsertAppends(x, s[1..], cmp);
    }
  }

  /**
   * Input that is already in order comes back unchanged; in particular when
   * every pair compares equal (a consistent comparator, so stability alone
   * fixes the result). For an inconsistent comparator this is the model's
   * behaviour only: the standard leaves that order implementation-defined.
   */
  lemma {:induction false} SortByOrderedIdentity<T>(s: seq<T>, cmp: (T, T) -> int)
    requires Sorted(s, cmp)
    ensures SortBy(s, cmp) == s
  {
    if s != [] {
      var init, last := s[..|s| - 1], s[|s| - 1];
      assert s == init + [last];
      OrderedSnoc(init, last, cmp);
      SortByOrderedIdentity(init, cmp);
      SortBySnocStays(init, last, cmp);
    }
  }

  /** When the sort leaves the front alone and the last element is not below any of it, the sort leaves everything alone. */
  lemma SortBySnocStays<T>(init: seq<T>, last: T, cmp: (T, T) -> int)
    requires SortBy(init, cmp) == init
    requires forall i :: 0 <= i < |init| ==> cmp(init[i], last) <= 0
    ensures SortBy(init + [last], cmp) == init + [last]
  {
    var s := init + [last];
    assert s[..|s| - 1] == init;
    SortBySnoc(s, cmp);
    InsertAppends(last, init, cmp);
  }

  /** The front of an ordered sequence is ordered, and not above its last element. */
  lemma OrderedSnoc<T>(init: seq<T>, last: T, cmp: (T, T) -> int)
    requires Sorted(init + [last], cmp)
    ensures Sorted(init, cmp)
    ensures forall i :: 0 <= i < |init| ==> cmp(init[i], last) <= 0
  {
    var s := init + [last];
    forall i, j | 0 <= i < j < |init|
      ensures cmp(init[i], init[j]) <= 0
    {
      assert s[i] == init[i] && s[j] == init[j];
    }
    forall i | 0 <= i < |init|
      ensures cmp(init[i], last) <= 0
    {
      assert s[i] == init[i] && s[|init|] == last;
    }
  }

  /** The sort inserts the last element into the sorted rest. */
  lemma SortBySnoc<T>(s: seq<T>, cmp: (T, T) -> int)
    requires s != []
    ensures SortBy(s, cmp) == Insert(s[|s| - 1], SortBy(s[..|s| - 1], cmp), cmp)
  {
  }
}
