/** The concrete scenarios of the useTableData unit tests, checked against the model. */
module TableDataExamples {
  import opened Types
  import opened Records
  import opened TableData
  import opened Strings
  import opened ListSort
  import opened StableSort
  import opened Seqs

  function Person(id: int, name: string, age: int): Record
  {
    [Entry("id", Num(id)), Entry("name", Str(name)), Entry("age", Num(age))]
  }

  function People(): seq<Record>
  {
    [Person(1, "Alice", 25), Person(2, "Bob", 30), Person(3, "Charlie", 35),
     Person(4, "David", 40), Person(5, "Eve", 45)]
  }

  /** A text in which the query's first character never occurs does not contain the query. */
  lemma NotIncludesHead(s: string, sub: string)
    requires sub != []
    requires forall i :: 0 <= i < |s| ==> s[i] != sub[0]
    ensures !Includes(s, sub)
  {
    forall i | 0 <= i && i + |sub| <= |s|
      ensures !OccursAt(s, sub, i)
    {
      assert s[i..i + |sub|][0] == s[i];
    }
  }

  /** A text in which no position starts with the query's first two characters does not contain the query. */
  lemma NotIncludesPair(s: string, sub: string)
    requires |sub| >= 2
    requires forall i :: 0 <= i && i + |sub| <= |s| ==> s[i] != sub[0] || s[i + 1] != sub[1]
    ensures !Includes(s, sub)
  {
    forall i | 0 <= i && i + |sub| <= |s|
      ensures !OccursAt(s, sub, i)
    {
      assert s[i..i + |sub|][0] == s[i] && s[i..i + |sub|][1] == s[i + 1];
    }
  }

  lemma PersonFields(id: int, name: string, age: int)
    ensures Get(Person(id, name, age), "name") == Str(name)
    ensures Get(Person(id, name, age), "age") == Num(age)
  {
    var r := Person(id, name, age);
    assert r[0].key == "id" && r[1].key == "name" && r[2].key == "age";
    assert forall j :: 0 <= j < 1 ==> r[j].key != "name";
    assert forall j :: 0 <= j < 2 ==> r[j].key != "age";
  }

  /** A person passes a name filter when the lower-cased query occurs in the lower-cased name. */
  lemma NameHas(id: int, name: string, age: int, query: string, lowName: string, lowQuery: string, at: nat)
    requires Lower(name) == lowName && Lower(query) == lowQuery
    requires OccursAt(lowName, lowQuery, at)
    ensures Matches(Person(id, name, age), "name", query)
  {
    PersonFields(id, name, age);
  }

  /** A person fails a name filter whose first character the lower-cased name lacks. */
  lemma NameLacks(id: int, name: string, age: int, query: string, lowName: string, lowQuery: string)
    requires Lower(name) == lowName && Lower(query) == lowQuery
    requires lowQuery != [] && forall i :: 0 <= i < |lowName| ==> lowName[i] != lowQuery[0]
    ensures !Matches(Person(id, name, age), "name", query)
  {
    PersonFields(id, name, age);
    NotIncludesHead(lowName, lowQuery);
  }

  /** A person fails a name filter when no position of the lower-cased name starts with the query's first two characters. */
  lemma NameLacksPair(id: int, name: string, age: int, query: string, lowName: string, lowQuery: string)
    requires Lower(name) == lowName && Lower(query) == lowQuery
    requires |lowQuery| >= 2
    requires forall i :: 0 <= i && i + |lowQuery| <= |lowName| ==> lowName[i] != lowQuery[0] || lowName[i + 1] != lowQuery[1]
    ensures !Matches(Person(id, name, age), "name", query)
  {
    PersonFields(id, name, age);
    NotIncludesPair(lowName, lowQuery);
  }

  /** Filtering five elements of which only the first passes. */
  lemma KeepFirstOfFive<T>(a: T, b: T, c: T, d: T, e: T, p: T -> bool)
    requires p(a) && !p(b) && !p(c) && !p(d) && !p(e)
    ensures Keep([a, b, c, d, e], p) == [a]
  {
    KeepStep(e, [], p);
    KeepStep(d, [e], p);
    KeepStep(c, [d, e], p);
    KeepStep(b, [c, d, e], p);
    KeepStep(a, [b, c, d, e], p);
    assert [a] + [b, c, d, e] == [a, b, c, d, e];
    assert [d] + [e] == [d, e];
    assert [c] + [d, e] == [c, d, e];
    assert [b] + [c, d, e] == [b, c, d, e];
  }

  /** Filtering five elements of which the first, third and fifth pass. */
  lemma KeepOddOfFive<T>(a: T, b: T, c: T, d: T, e: T, p: T -> bool)
    requires p(a) && !p(b) && p(c) && !p(d) && p(e)
    ensures Keep([a, b, c, d, e], p) == [a, c, e]
  {
    KeepStep(e, [], p);
    KeepStep(d, [e], p);
    KeepStep(c, [d, e], p);
    KeepStep(b, [c, d, e], p);
    KeepStep(a, [b, c, d, e], p);
    assert [a] + [b, c, d, e] == [a, b, c, d, e];
    assert [d] + [e] == [d, e];
    assert [c] + [d, e] == [c, d, e];
    assert [b] + [c, d, e] == [b, c, d, e];
  }

  /** Filtering five elements of which the first and third pass. */
  lemma KeepFirstAndThirdOfFive<T>(a: T, b: T, c: T, d: T, e: T, p: T -> bool)
    requires p(a) && !p(b) && p(c) && !p(d) && !p(e)
    ensures Keep([a, b, c, d, e], p) == [a, c]
  {
    KeepStep(e, [], p);
    KeepStep(d, [e], p);
    KeepStep(c, [d, e], p);
    KeepStep(b, [c, d, e], p);
    KeepStep(a, [b, c, d, e], p);
    assert [a] + [b, c, d, e] == [a, b, c, d, e];
    assert [d] + [e] == [d, e];
    assert [c] + [d, e] == [c, d, e];
    assert [b] + [c, d, e] == [b, c, d, e];
  }

  /** Filtering five elements none of which pass. */
  lemma KeepNoneOfFive<T>(a: T, b: T, c: T, d: T, e: T, p: T -> bool)
    requires !p(a) && !p(b) && !p(c) && !p(d) && !p(e)
    ensures Keep([a, b, c, d, e], p) == []
  {
    KeepStep(e, [], p);
    KeepStep(d, [e], p);
    KeepStep(c, [d, e], p);
    KeepStep(b, [c, d, e], p);
    KeepStep(a, [b, c, d, e], p);
    assert [a] + [b, c, d, e] == [a, b, c, d, e];
    assert [d] + [e] == [d, e];
    assert [c] + [d, e] == [c, d, e];
    assert [b] + [c, d, e] == [b, c, d, e];
  }

  lemma AliceHasE()
    ensures Matches(Person(1, "Alice", 25), "name", "e")
  {
    assert Lower("Alice") == "alice" && Lower("e") == "e";
    NameHas(1, "Alice", 25, "e", "alice", "e", 4);
  }

  lemma BobLacksE()
    ensures !Matches(Person(2, "Bob", 30), "name", "e")
  {
    assert Lower("Bob") == "bob" && Lower("e") == "e";
    NameLacks(2, "Bob", 30, "e", "bob", "e");
  }

  lemma CharlieHasE()
    ensures Matches(Person(3, "Charlie", 35), "name", "e")
  {
    assert Lower("Charlie") == "charlie" && Lower("e") == "e";
    NameHas(3, "Charlie", 35, "e", "charlie", "e", 6);
  }

  lemma DavidLacksE()
    ensures !Matches(Person(4, "David", 40), "name", "e")
  {
    assert Lower("David") == "david" && Lower("e") == "e";
    NameLacks(4, "David", 40, "e", "david", "e");
  }

  lemma EveHasE()
    ensures Matches(Person(5, "Eve", 45), "name", "e")
  {
    assert Lower("Eve") == "eve" && Lower("e") == "e";
    NameHas(5, "Eve", 45, "e", "eve", "e", 0);
  }

  /** Filter name contains "e": Alice, Charlie and Eve, in data order. */
  lemma FilterByE()
    ensures FilterData(People(), Filter("name", "e"))
         == [Person(1, "Alice", 25), Person(3, "Charlie", 35), Person(5, "Eve", 45)]
  {
    AliceHasE();
    BobLacksE();
    CharlieHasE();
    DavidLacksE();
    EveHasE();
    KeepOddOfFive(Person(1, "Alice", 25), Person(2, "Bob", 30), Person(3, "Charlie", 35),
                  Person(4, "David", 40), Person(5, "Eve", 45), MatchTest("name", "e"));
  }

  /** The descending age order puts the older of two records first. */
  lemma OlderFirst(young: Record, elder: Record)
    requires Get(young, "age").Num? && Get(elder, "age").Num?
    requires Get(young, "age").n < Get(elder, "age").n
    ensures RecordOrder("age", Desc)(young, elder) > 0
  {
  }

  /** Two elements the comparator puts the other way round are swapped. */
  lemma SortSwapsTwo<T>(a: T, b: T, cmp: (T, T) -> int)
    requires cmp(a, b) > 0
    ensures SortBy([a, b], cmp) == [b, a]
  {
    assert [a, b][..1] == [a];
    assert [a][..0] == [];
  }

  /** A third element that goes before the first of the sorted pair ends up in front. */
  lemma SortPutsThirdFirst<T>(a: T, b: T, c: T, cmp: (T, T) -> int)
    requires SortBy([a, b], cmp) == [b, a]
    requires cmp(b, c) > 0
    ensures SortBy([a, b, c], cmp) == [c, b, a]
  {
    assert [a, b, c][..2] == [a, b];
  }

  /** Sorting three records of increasing age by age, descending, reverses them. */
  lemma SortThreeByAgeDescending(a: Record, b: Record, c: Record)
    requires Get(a, "age").Num? && Get(b, "age").Num? && Get(c, "age").Num?
    requires Get(a, "age").n < Get(b, "age").n < Get(c, "age").n
    ensures SortList([a, b, c], "age", Desc) == [c, b, a]
  {
    var cmp := RecordOrder("age", Desc);
    OlderFirst(a, b);
    OlderFirst(b, c);
    SortSwapsTwo(a, b, cmp);
    SortPutsThirdFirst(a, b, c, cmp);
  }

  /** Sorting the three filtered records by age, descending. */
  lemma SortByAgeDescending()
    ensures SortList([Person(1, "Alice", 25), Person(3, "Charlie", 35), Person(5, "Eve", 45)], "age", Desc)
         == [Person(5, "Eve", 45), Person(3, "Charlie", 35), Person(1, "Alice", 25)]
  {
    PersonFields(1, "Alice", 25);
    PersonFields(3, "Charlie", 35);
    PersonFields(5, "Eve", 45);
    SortThreeByAgeDescending(Person(1, "Alice", 25), Person(3, "Charlie", 35), Person(5, "Eve", 45));
  }

  /** Filter name contains "e", sort age descending, first page of two: Eve, then Charlie. */
  lemma FilterSortPaginate()
    ensures DeriveView(People(), 0, 2, Sort("age", Desc), Filter("name", "e")).rows
         == [Person(5, "Eve", 45), Person(3, "Charlie", 35)]
    ensures DeriveView(People(), 0, 2, Sort("age", Desc), Filter("name", "e")).totalItems == 3
  {
    var alice, charlie, eve := Person(1, "Alice", 25), Person(3, "Charlie", 35), Person(5, "Eve", 45);
    FilterByE();
    SortByAgeDescending();
    FirstTwoOfThree(People(), Sort("age", Desc), Filter("name", "e"), [alice, charlie, eve], eve, charlie, alice);
  }

  /** When three records come out of filter and sort, a page of two shows the first two of them. */
  lemma FirstTwoOfThree(data: seq<Record>, sort: Sort, filter: Filter, filtered: seq<Record>, a: Record, b: Record, c: Record)
    requires FilterData(data, filter) == filtered
    requires SortList(filtered, sort.key, sort.direction) == [a, b, c]
    ensures DeriveView(data, 0, 2, sort, filter).rows == [a, b]
    ensures DeriveView(data, 0, 2, sort, filter).totalItems == 3
  {
    FirstPage(data, 2, sort, filter);
    assert [a, b, c][..2] == [a, b];
  }

  lemma AliceHasLi()
    ensures Matches(Person(1, "Alice", 25), "name", "li")
  {
    assert Lower("Alice") == "alice" && Lower("li") == "li";
    NameHas(1, "Alice", 25, "li", "alice", "li", 1);
  }

  lemma BobLacksLi()
    ensures !Matches(Person(2, "Bob", 30), "name", "li")
  {
    assert Lower("Bob") == "bob" && Lower("li") == "li";
    NameLacks(2, "Bob", 30, "li", "bob", "li");
  }

  lemma CharlieHasLi()
    ensures Matches(Person(3, "Charlie", 35), "name", "li")
  {
    assert Lower("Charlie") == "charlie" && Lower("li") == "li";
    NameHas(3, "Charlie", 35, "li", "charlie", "li", 4);
  }

  lemma DavidLacksLi()
    ensures !Matches(Person(4, "David", 40), "name", "li")
  {
    assert Lower("David") == "david" && Lower("li") == "li";
    NameLacks(4, "David", 40, "li", "david", "li");
  }

  lemma EveLacksLi()
    ensures !Matches(Person(5, "Eve", 45), "name", "li")
  {
    assert Lower("Eve") == "eve" && Lower("li") == "li";
    NameLacks(5, "Eve", 45, "li", "eve", "li");
  }

  /** Filter name contains "li": Alice, then Charlie. */
  lemma FilterByLi()
    ensures FilterData(People(), Filter("name", "li")) == [Person(1, "Alice", 25), Person(3, "Charlie", 35)]
  {
    AliceHasLi();
    BobLacksLi();
    CharlieHasLi();
    DavidLacksLi();
    EveLacksLi();
    KeepFirstAndThirdOfFive(Person(1, "Alice", 25), Person(2, "Bob", 30), Person(3, "Charlie", 35),
                            Person(4, "David", 40), Person(5, "Eve", 45), MatchTest("name", "li"));
  }

  /** Unsorted, the "li" page of ten holds exactly Alice and Charlie. */
  lemma FilterByLiPage()
    ensures DeriveView(People(), 0, 10, Sort("id", None), Filter("name", "li")).rows
         == [Person(1, "Alice", 25), Person(3, "Charlie", 35)]
  {
    FilterByLi();
    UnsortedFitsOnePage(People(), "id", 10, Filter("name", "li"), [Person(1, "Alice", 25), Person(3, "Charlie", 35)]);
  }

  /** Unsorted, when every record that passes the filter fits on page 0, page 0 shows them all in data order. */
  lemma UnsortedFitsOnePage(data: seq<Record>, key: string, pageSize: nat, filter: Filter, filtered: seq<Record>)
    requires FilterData(data, filter) == filtered
    requires |filtered| <= pageSize
    ensures DeriveView(data, 0, pageSize, Sort(key, None), filter).rows == filtered
  {
    FirstPage(data, pageSize, Sort(key, None), filter);
  }

  lemma AliceHasAlice()
    ensures Matches(Person(1, "Alice", 25), "name", "ALICE")
  {
    assert Lower("ALICE") == "alice" && Lower("Alice") == "alice";
    NameHas(1, "Alice", 25, "ALICE", "alice", "alice", 0);
  }

  lemma BobLacksAlice()
    ensures !Matches(Person(2, "Bob", 30), "name", "ALICE")
  {
    assert Lower("Bob") == "bob" && Lower("ALICE") == "alice";
    NameLacks(2, "Bob", 30, "ALICE", "bob", "alice");
  }

  lemma CharlieLacksAlice()
    ensures !Matches(Person(3, "Charlie", 35), "name", "ALICE")
  {
    assert Lower("Charlie") == "charlie" && Lower("ALICE") == "alice";
    NameLacksPair(3, "Charlie", 35, "ALICE", "charlie", "alice");
  }

  lemma DavidLacksAlice()
    ensures !Matches(Person(4, "David", 40), "name", "ALICE")
  {
    assert Lower("David") == "david" && Lower("ALICE") == "alice";
    NameLacksPair(4, "David", 40, "ALICE", "david", "alice");
  }

  lemma EveLacksAlice()
    ensures !Matches(Person(5, "Eve", 45), "name", "ALICE")
  {
    assert Lower("Eve") == "eve" && Lower("ALICE") == "alice";
    NameLacks(5, "Eve", 45, "ALICE", "eve", "alice");
  }

  /** Filter name contains "ALICE": Alice alone, since the match ignores case. */
  lemma FilterByAlice()
    ensures FilterData(People(), Filter("name", "ALICE")) == [Person(1, "Alice", 25)]
  {
    AliceHasAlice();
    BobLacksAlice();
    CharlieLacksAlice();
    DavidLacksAlice();
    EveLacksAlice();
    KeepFirstOfFive(Person(1, "Alice", 25), Person(2, "Bob", 30), Person(3, "Charlie", 35),
                    Person(4, "David", 40), Person(5, "Eve", 45), MatchTest("name", "ALICE"));
  }

  /** The filter ignores case: the unsorted page of ten for "ALICE" shows exactly Alice. */
  lemma FilterIgnoresCase()
    ensures DeriveView(People(), 0, 10, Sort("id", None), Filter("name", "ALICE")).rows == [Person(1, "Alice", 25)]
  {
    FilterByAlice();
    UnsortedFitsOnePage(People(), "id", 10, Filter("name", "ALICE"), [Person(1, "Alice", 25)]);
  }

  lemma AliceLacksXyz()
    ensures !Matches(Person(1, "Alice", 25), "name", "xyz")
  {
    assert Lower("Alice") == "alice" && Lower("xyz") == "xyz";
    NameLacks(1, "Alice", 25, "xyz", "alice", "xyz");
  }

  lemma BobLacksXyz()
    ensures !Matches(Person(2, "Bob", 30), "name", "xyz")
  {
    assert Lower("Bob") == "bob" && Lower("xyz") == "xyz";
    NameLacks(2, "Bob", 30, "xyz", "bob", "xyz");
  }

  lemma CharlieLacksXyz()
    ensures !Matches(Person(3, "Charlie", 35), "name", "xyz")
  {
    assert Lower("Charlie") == "charlie" && Lower("xyz") == "xyz";
    NameLacks(3, "Charlie", 35, "xyz", "charlie", "xyz");
  }

  lemma DavidLacksXyz()
    ensures !Matches(Person(4, "David", 40), "name", "xyz")
  {
    assert Lower("David") == "david" && Lower("xyz") == "xyz";
    NameLacks(4, "David", 40, "xyz", "david", "xyz");
  }

  lemma EveLacksXyz()
    ensures !Matches(Person(5, "Eve", 45), "name", "xyz")
  {
    assert Lower("Eve") == "eve" && Lower("xyz") == "xyz";
    NameLacks(5, "Eve", 45, "xyz", "eve", "xyz");
  }

  /** No name contains "xyz". */
  lemma FilterByXyz()
    ensures FilterData(People(), Filter("name", "xyz")) == []
  {
    AliceLacksXyz();
    BobLacksXyz();
    CharlieLacksXyz();
    DavidLacksXyz();
    EveLacksXyz();
    KeepNoneOfFive(Person(1, "Alice", 25), Person(2, "Bob", 30), Person(3, "Charlie", 35),
                   Person(4, "David", 40), Person(5, "Eve", 45), MatchTest("name", "xyz"));
  }

  /** A query no name contains leaves no rows, and the page is the last one. */
  lemma FilterMatchingNothing()
    ensures DeriveView(People(), 0, 10, Sort("id", None), Filter("name", "xyz")).rows == []
    ensures DeriveView(People(), 0, 10, Sort("id", None), Filter("name", "xyz")).isLastPage
  {
    FilterByXyz();
    ViewPastTheEnd(People(), 0, 10, Sort("id", None), Filter("name", "xyz"));
  }

  /** Five records, two per page, unsorted and unfiltered: pages of 2, 2 and 1. */
  lemma PagesOfTwo()
    ensures var v := DeriveView(People(), 0, 2, Sort("id", None), NoFilter);
            v.rows == [Person(1, "Alice", 25), Person(2, "Bob", 30)] && !v.isLastPage
    ensures var v := DeriveView(People(), 1, 2, Sort("id", None), NoFilter);
            v.rows == [Person(3, "Charlie", 35), Person(4, "David", 40)] && !v.isLastPage
    ensures var v := DeriveView(People(), 2, 2, Sort("id", None), NoFilter);
            v.rows == [Person(5, "Eve", 45)] && v.isLastPage
  {
    assert PageStart(0, 2) == 0;
    assert PageStart(1, 2) == 2;
    assert PageStart(2, 2) == 4;
  }

  /** All five records fit on a page of ten, which is then the last page. */
  lemma OnePageOfTen()
    ensures var v := DeriveView(People(), 0, 10, Sort("id", None), NoFilter);
            v.rows == People() && v.isLastPage
  {
    assert PageStart(0, 10) == 0;
  }
}
