/**
 * useTableColumns: the columns are inferred from the keys of the first
 * record, in that record's key order, each headed by its own key; the
 * row-id column can be hidden. Every column renders a value as its string
 * form (Records.Stringify).
 */
module TableColumns {
  import opened Records
  import opened Seqs

  /** A column: the field it shows and the label in its header. */
  datatype Column = Column(key: string, header: string)

  /** Object.keys of a record: its keys in entry order. */
  function Keys(r: Record): (keys: seq<string>)
    ensures |keys| == |r|
    ensures forall i :: 0 <= i < |r| ==> keys[i] == r[i].key
  {
    seq(|r|, i requires 0 <= i < |r| => r[i].key)
  }

  /** One column per key, labelled with the key. */
  function ColumnsOf(keys: seq<string>): (cols: seq<Column>)
    ensures |cols| == |keys|
    ensures forall i :: 0 <= i < |keys| ==> cols[i].key == keys[i] && cols[i].header == keys[i]
  {
    seq(|keys|, i requires 0 <= i < |keys| => Column(keys[i], keys[i]))
  }

  /** The test handed to Array.prototype.filter when the row id is hidden. */
  function KeyIsNot(key: string): (test: Column -> bool)
    ensures forall c :: test(c) == (c.key != key)
  {
    (c: Column) => c.key != key
  }

  /** The column derivation: the first record's keys (none without data), minus the row id if hidden. */
  function InferColumns(data: seq<Record>, rowIdKey: string, hideRowId: bool): seq<Column>
  {
    var mapped := ColumnsOf(if data == [] then [] else Keys(data[0]));
    if hideRowId then Keep(mapped, KeyIsNot(rowIdKey)) else mapped
  }

  /** Without data there are no columns. */
  lemma NoDataNoColumns(rowIdKey: string, hideRowId: bool)
    ensures InferColumns([], rowIdKey, hideRowId) == []
  {
    assert ColumnsOf([]) == [];
  }

  /**
   * Without hiding: one column per key of the first record, in that
   * record's order, each headed by its own key.
   */
  lemma ColumnsFollowFirstRecord(data: seq<Record>, rowIdKey: string)
    requires data != []
    ensures var cols := InferColumns(data, rowIdKey, false);
            && |cols| == |data[0]|
            && forall i :: 0 <= i < |cols| ==> cols[i].key == data[0][i].key && cols[i].header == cols[i].key
  {
  }

  /**
   * Hiding the row id removes exactly the row-id columns and keeps every
   * other column, in order.
   */
  lemma HidingRemovesOnlyRowId(data: seq<Record>, rowIdKey: string)
    ensures var shown := InferColumns(data, rowIdKey, true);
            var all := InferColumns(data, rowIdKey, false);
            && IsSubsequence(shown, all)
            && (forall c :: multiset(shown)[c] == if c.key != rowIdKey then multiset(all)[c] else 0)
            && (forall c :: c in shown <==> c in all && c.key != rowIdKey)
  {
    var all := InferColumns(data, rowIdKey, false);
    var shown := InferColumns(data, rowIdKey, true);
    KeepInOrder(all, KeyIsNot(rowIdKey));
    KeepCounts(all, KeyIsNot(rowIdKey));
    forall c ensures c in shown <==> c in all && c.key != rowIdKey {
      assert c in shown <==> multiset(shown)[c] > 0;
      assert c in all <==> multiset(all)[c] > 0;
    }
  }

  /** Keys that only later records have produce no column: only the first record counts. */
  lemma OnlyFirstRecordCounts(first: Record, rest: seq<Record>, rowIdKey: string, hideRowId: bool)
    ensures InferColumns([first] + rest, rowIdKey, hideRowId) == InferColumns([first], rowIdKey, hideRowId)
  {
    assert ([first] + rest)[0] == first;
  }

  /** The unit test's records: id, name and age give three columns, two once the id is hidden. */
  lemma ColumnsOfTheTestData()
    ensures var data := [[Entry("id", Num(1)), Entry("name", Str("Alice")), Entry("age", Num(25))],
                         [Entry("id", Num(2)), Entry("name", Str("Bob")), Entry("age", Num(30))]];
            && InferColumns(data, "id", false) == [Column("id", "id"), Column("name", "name"), Column("age", "age")]
            && InferColumns(data, "id", true) == [Column("name", "name"), Column("age", "age")]
  {
    var test := KeyIsNot("id");
    var id, name, age := Column("id", "id"), Column("name", "name"), Column("age", "age");
    KeepStep(age, [], test);
    KeepStep(name, [age], test);
    KeepStep(id, [name, age], test);
    assert [name] + [age] == [name, age];
    assert [id] + [name, age] == [id, name, age];
  }

  /** Cells render as strings: the number 123 as "123", the string "test" as itself. */
  lemma CellsRenderAsStrings()
    ensures Stringify(Num(123)) == "123"
    ensures Stringify(Str("test")) == "test"
  {
  }
}
