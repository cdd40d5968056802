/**
 * sortList: sorts records by one field. Direction none returns the list as
 * it is; asc and desc return a stably sorted copy, compared by subtraction
 * when both values are numbers, by collation when both are strings, and as
 * equal otherwise, with the sign flipped for desc.
 */
module ListSort {
  import opened Types
  import opened Records
  import opened Strings
  import opened StableSort
  import opened Seqs

  /** 1 for asc, -1 otherwise. */
  function Multiplier(d: Direction): int
  {
    if d == Asc then 1 else -1
  }

  /** The two field values can be ordered: both numbers or both strings. */
  predicate Comparable(a: Value, b: Value)
  {
    (a.Num? && b.Num?) || (a.Str? && b.Str?)
  }

  /** The comparator applied to two field values. */
  function CompareValues(a: Value, b: Value, multiplier: int): (c: int)
    ensures !Comparable(a, b) ==> c == 0
  {
    if a.Num? && b.Num? then (a.n - b.n) * multiplier
    else if a.Str? && b.Str? then Compare(a.s, b.s) * multiplier
    else 0
  }

  /** Compares the `key` fields of two records. */
  function CompareRecords(a: Record, b: Record, key: string, d: Direction): int
  {
    CompareValues(Get(a, key), Get(b, key), Multiplier(d))
  }

  /** The comparator handed to the sort, as a function value. */
  function RecordOrder(key: string, d: Direction): (cmp: (Record, Record) -> int)
    ensures forall a, b :: cmp(a, b) == CompareRecords(a, b, key, d)
  {
    (a: Record, b: Record) => CompareRecords(a, b, key, d)
  }

  function SortList(list: seq<Record>, key: string, d: Direction): (r: seq<Record>)
    ensures multiset(r) == multiset(list)
    ensures d == None ==> r == list
    ensures |list| <= 1 ==> r == list
  {
    if d == None then list
    else
      assert |list| == 1 ==> list[..0] == [];
      SortBy(list, RecordOrder(key, d))
  }

  /** Every record's `key` field holds a number. */
  ghost predicate AllNumbers(list: seq<Record>, key: string)
  {
    forall x :: x in list ==> Get(x, key).Num?
  }

  /** Every record's `key` field holds a string. */
  ghost predicate AllStrings(list: seq<Record>, key: string)
  {
    forall x :: x in list ==> Get(x, key).Str?
  }

  /** Numeric fields make the comparator consistent, in either direction. */
  lemma NumbersConsistent(list: seq<Record>, key: string, d: Direction)
    requires AllNumbers(list, key) && d != None
    ensures ConsistentOn(RecordOrder(key, d), list)
  {
  }

  /** String fields make the comparator consistent, in either direction. */
  lemma StringsConsistent(list: seq<Record>, key: string, d: Direction)
    requires AllStrings(list, key) && d != None
    ensures ConsistentOn(RecordOrder(key, d), list)
  {
    var cmp := RecordOrder(key, d);
    forall a, b | a in list && b in list
      ensures (cmp(a, b) < 0 <==> cmp(b, a) > 0) && (cmp(a, b) == 0 <==> cmp(b, a) == 0)
    {
      CompareAntisymmetric(Get(a, key).s, Get(b, key).s);
    }
    forall a, b, c | a in list && b in list && c in list && cmp(a, b) <= 0 && cmp(b, c) <= 0
      ensures cmp(a, c) <= 0
    {
      var x, y, z := Get(a, key).s, Get(b, key).s, Get(c, key).s;
      if d == Asc {
        CompareTransitive(x, y, z);
      } else {
        CompareAntisymmetric(x, y);
        CompareAntisymmetric(y, z);
        CompareAntisymmetric(x, z);
        CompareTransitive(z, y, x);
      }
    }
  }

  lemma SortListElements(list: seq<Record>, key: string, d: Direction, x: Record)
    requires x in SortList(list, key, d)
    ensures x in list
  {
    assert x in multiset(SortList(list, key, d));
  }

  /**
   * Numeric fields: asc yields non-decreasing values, desc non-increasing
   * ones.
   */
  lemma SortListNumbers(list: seq<Record>, key: string, d: Direction)
    requires AllNumbers(list, key) && d != None
    ensures AllNumbers(SortList(list, key, d), key)
    ensures var r := SortList(list, key, d);
      forall i, j :: 0 <= i < j < |r| ==>
        if d == Asc then Get(r[i], key).n <= Get(r[j], key).n else Get(r[i], key).n >= Get(r[j], key).n
  {
    var r := SortList(list, key, d);
    forall x | x in r ensures Get(x, key).Num? {
      SortListElements(list, key, d, x);
    }
    NumbersConsistent(list, key, d);
    SortBySorted(list, RecordOrder(key, d));
    forall i, j | 0 <= i < j < |r|
      ensures if d == Asc then Get(r[i], key).n <= Get(r[j], key).n else Get(r[i], key).n >= Get(r[j], key).n
    {
      assert RecordOrder(key, d)(r[i], r[j]) <= 0;
      NumbersInOrder(Get(r[i], key).n, Get(r[j], key).n, d);
    }
  }

  /** The numeric comparator puts a first exactly when a <= b for asc, a >= b for desc. */
  lemma NumbersInOrder(a: int, b: int, d: Direction)
    requires d != None
    ensures CompareValues(Num(a), Num(b), Multiplier(d)) <= 0 <==> if d == Asc then a <= b else a >= b
  {
    if d == Asc {
      assert Multiplier(d) == 1;
    } else {
      assert Multiplier(d) == -1;
    }
  }

  /** The string comparator puts a first exactly when a collates first for asc, last for desc. */
  lemma StringsInOrder(a: string, b: string, d: Direction)
    requires d != None
    ensures CompareValues(Str(a), Str(b), Multiplier(d)) <= 0 <==> if d == Asc then Compare(a, b) <= 0 else Compare(b, a) <= 0
  {
    CompareAntisymmetric(a, b);
    if d == Asc {
      assert Multiplier(d) == 1;
    } else {
      assert Multiplier(d) == -1;
    }
  }

  /**
   * String fields: asc yields values in collation order, desc in the
   * reverse order.
   */
  lemma SortListStrings(list: seq<Record>, key: string, d: Direction)
    requires AllStrings(list, key) && d != None
    ensures AllStrings(SortList(list, key, d), key)
    ensures var r := SortList(list, key, d);
      forall i, j :: 0 <= i < j < |r| ==>
        if d == Asc then Compare(Get(r[i], key).s, Get(r[j], key).s) <= 0
        else Compare(Get(r[j], key).s, Get(r[i], key).s) <= 0
  {
    var r := SortList(list, key, d);
    forall x | x in r ensures Get(x, key).Str? {
      SortListElements(list, key, d, x);
    }
    StringsConsistent(list, key, d);
    SortBySorted(list, RecordOrder(key, d));
    forall i, j | 0 <= i < j < |r|
      ensures if d == Asc then Compare(Get(r[i], key).s, Get(r[j], key).s) <= 0
              else Compare(Get(r[j], key).s, Get(r[i], key).s) <= 0
    {
      assert RecordOrder(key, d)(r[i], r[j]) <= 0;
      assert r[i] in r && r[j] in r;
      StringsInOrder(Get(r[i], key).s, Get(r[j], key).s, d);
    }
  }

  /** The test for a record whose `key` field equals `v`. */
  function HasValue(key: string, v: Value): Record -> bool
  {
    x => Get(x, key) == v
  }

  /** The records of `s` whose `key` field equals `v`, in their order in `s`. */
  function WithValue(s: seq<Record>, key: string, v: Value): (r: seq<Record>)
    ensures forall x :: x in r ==> x in s && Get(x, key) == v
  {
    KeepMembers(s, HasValue(key, v));
    Keep(s, HasValue(key, v))
  }

  /** When comparing equal to `e` means having `e`'s field value, classes are value groups. */
  lemma SameClassIsWithValue(s: seq<Record>, key: string, d: Direction, e: Record)
    requires forall x :: x in s ==> (RecordOrder(key, d)(x, e) == 0 <==> Get(x, key) == Get(e, key))
    ensures SameClass(s, RecordOrder(key, d), e) == WithValue(s, key, Get(e, key))
  {
    var inClass, hasValue := InClass(RecordOrder(key, d), e), HasValue(key, Get(e, key));
    forall x | x in s
      ensures inClass(x) == hasValue(x)
    {
    }
    KeepAgree(s, inClass, hasValue);
  }

  /** With numeric or string fields, comparing equal is having the same field value. */
  lemma EqualKeysCompareEqual(list: seq<Record>, key: string, d: Direction, e: Record, x: Record)
    requires AllNumbers(list, key) || AllStrings(list, key)
    requires d != None && e in list && x in list
    ensures RecordOrder(key, d)(x, e) == 0 <==> Get(x, key) == Get(e, key)
  {
  }

  /**
   * Stability: the records whose `key` field equals that of `e` appear in
   * the sorted list in the order they had in the input.
   */
  lemma SortListStable(list: seq<Record>, key: string, d: Direction, e: Record)
    requires AllNumbers(list, key) || AllStrings(list, key)
    requires e in list
    ensures WithValue(SortList(list, key, d), key, Get(e, key)) == WithValue(list, key, Get(e, key))
  {
    if d != None {
      var cmp := RecordOrder(key, d);
      var r := SortList(list, key, d);
      if AllNumbers(list, key) {
        NumbersConsistent(list, key, d);
      } else {
        StringsConsistent(list, key, d);
      }
      SortByStable(list, cmp, e);
      forall x | x in list ensures cmp(x, e) == 0 <==> Get(x, key) == Get(e, key) {
        EqualKeysCompareEqual(list, key, d, e, x);
      }
      SameClassIsWithValue(list, key, d, e);
      forall x | x in r ensures cmp(x, e) == 0 <==> Get(x, key) == Get(e, key) {
        SortListElements(list, key, d, x);
        EqualKeysCompareEqual(list, key, d, e, x);
      }
      SameClassIsWithValue(r, key, d, e);
    }
  }

  /**
   * When no two field values of the list can be ordered (null, undefined, or
   * a number against a string), the sort returns the list unchanged.
   */
  lemma SortListIncomparable(list: seq<Record>, key: string, d: Direction)
    requires forall i, j :: 0 <= i < j < |list| ==> !Comparable(Get(list[i], key), Get(list[j], key))
    ensures SortList(list, key, d) == list
  {
    if d != None {
      SortByOrderedIdentity(list, RecordOrder(key, d));
    }
  }
}
