/** Source rows: cells keyed by column name, and the executor's way back to positions. */
module SourceRows {
  import opened Prelude
  import opened Sorting

  datatype SourceRow = SourceRow(number: int, values: map<string, string>)

  // Building a row ------------------------------------------------------------

  /** The cell at a position of a record; records may be shorter than the header. */
  function Cell(record: seq<string>, i: nat): string {
    if i < |record| then record[i] else ""
  }

  /** The position of the last column with a name. */
  function LastIndex(columns: seq<string>, column: string): (i: nat)
    requires column in columns
    ensures i < |columns| && columns[i] == column && forall j :: i < j < |columns| ==> columns[j] != column
  {
    if Last(columns) == column then |columns| - 1
    else
      assert column in Front(columns);
      LastIndex(Front(columns), column)
  }

  /** A row's cells by column name; of several columns with one name the last counts. */
  function RowMap(columns: seq<string>, record: seq<string>): map<string, string> {
    map column | column in columns :: Cell(record, LastIndex(columns, column))
  }

  method RowValues(columns: seq<string>, record: seq<string>) returns (result: map<string, string>)
    ensures result == RowMap(columns, record)
  {
    hide RowMap;
    result := map[];
    NoColumns(record);
    for index := 0 to |columns|
      invariant result == RowMap(columns[..index], record)
    {
      OneMoreColumn(columns, record, index);
      if index < |record| {
        result := result[columns[index] := record[index]];
        continue;
      }
      result := result[columns[index] := ""];
    }
    assert columns[..|columns|] == columns;
  }

  lemma NoColumns(record: seq<string>)
    ensures RowMap([], record) == map[]
  {
  }

  lemma OneMoreColumn(columns: seq<string>, record: seq<string>, index: nat)
    requires index < |columns|
    ensures RowMap(columns[..index + 1], record)
            == RowMap(columns[..index], record)[columns[index] := Cell(record, index)]
  {
    assert columns[..index + 1] == columns[..index] + [columns[index]];
    assert Front(columns[..index + 1]) == columns[..index];
  }

  // Reading it back -----------------------------------------------------------

  function Lookup(values: map<string, string>, column: string): string {
    if column in values then values[column] else ""
  }

  function ReadColumns(values: map<string, string>, columns: seq<string>): seq<string> {
    seq(|columns|, i requires 0 <= i < |columns| => Lookup(values, columns[i]))
  }

  /** The columns are used unless none of them occurs in a row that has values. */
  predicate UsesColumns(values: map<string, string>, columns: seq<string>) {
    columns != [] && (values == map[] || exists c :: c in columns && c in values)
  }

  /** strconv.Atoi is a parameter; a key may carry one of two prefixes. */
  function ParseSourceKey(atoi: string -> Option<int>, key: string): (index: Option<nat>) {
    var digits := if "col_" <= key then key[4..] else if "column_" <= key then key[7..] else key;
    match atoi(digits)
    case Some(i) => if i >= 0 then Some(i) else None
    case None => None
  }

  /** A key has the index that it spells, bare or after one of two prefixes; a negative number is no index. */
  lemma {:induction false} SourceKeyIs(atoi: string -> Option<int>, digits: string, i: nat)
    ensures ParseSourceKey(atoi, "col_" + digits) == Some(i) <==> atoi(digits) == Some(i)
    ensures ParseSourceKey(atoi, "column_" + digits) == Some(i) <==> atoi(digits) == Some(i)
    ensures !("col_" <= digits) && !("column_" <= digits) ==>
              (ParseSourceKey(atoi, digits) == Some(i) <==> atoi(digits) == Some(i))
  {
    assert ("col_" + digits)[4..] == digits && ("column_" + digits)[7..] == digits;
    assert ("column_" + digits)[3] == 'u';
  }

  predicate AllIndexed(atoi: string -> Option<int>, values: map<string, string>) {
    forall key :: key in values ==> ParseSourceKey(atoi, key).Some?
  }

  /** The largest index of the keys, or -1. */
  function MaxIndex(atoi: string -> Option<int>, order: seq<string>): (m: int)
    ensures m >= -1
  {
    if order == [] then -1
    else
      var before, index := MaxIndex(atoi, Front(order)), ParseSourceKey(atoi, Last(order));
      if index.Some? && index.value > before then index.value else before
  }

  /** The value at an index: that of the last key visited with this index, if any. */
  function Placed(atoi: string -> Option<int>, values: map<string, string>, order: seq<string>, i: nat): string {
    if order == [] then ""
    else if ParseSourceKey(atoi, Last(order)) == Some(i) then Lookup(values, Last(order))
    else Placed(atoi, values, Front(order), i)
  }

  /** What sourceValues returns when Go delivers the keys in the given order. */
  function ValuesInOrder(atoi: string -> Option<int>, values: map<string, string>, order: seq<string>): seq<string> {
    if AllIndexed(atoi, values) then
      seq(MaxIndex(atoi, order) + 1, i requires i >= 0 => Placed(atoi, values, order, i))
    else
      var keys := SortStrings(order);
      seq(|keys|, i requires 0 <= i < |keys| => Lookup(values, keys[i]))
  }

  /** The map of indices after visiting some keys, each of which has an index. */
  ghost predicate HasPlaced(atoi: string -> Option<int>, values: map<string, string>, visited: seq<string>,
                            indexed: map<int, string>, maxIndex: int) {
    && (forall key :: key in visited ==> ParseSourceKey(atoi, key).Some?)
    && maxIndex == MaxIndex(atoi, visited)
    && (forall i :: i in indexed ==> 0 <= i <= maxIndex)
    && (forall i: nat :: Lookup'(indexed, i) == Placed(atoi, values, visited, i))
  }

  function Lookup'(indexed: map<int, string>, i: int): string {
    if i in indexed then indexed[i] else ""
  }

  lemma PlaceOneMore(atoi: string -> Option<int>, values: map<string, string>, visited: seq<string>,
                     indexed: map<int, string>, maxIndex: int, key: string)
    requires HasPlaced(atoi, values, visited, indexed, maxIndex) && key in values && ParseSourceKey(atoi, key).Some?
    ensures var index := ParseSourceKey(atoi, key).value;
      HasPlaced(atoi, values, visited + [key], indexed[index := values[key]],
                if index > maxIndex then index else maxIndex)
  {
    hide ParseSourceKey;
    assert Front(visited + [key]) == visited;
    var index := ParseSourceKey(atoi, key).value;
    forall i: nat ensures Lookup'(indexed[index := values[key]], i) == Placed(atoi, values, visited + [key], i) {
      assert Lookup'(indexed, i) == Placed(atoi, values, visited, i);
    }
  }

  method SourceValues(atoi: string -> Option<int>, row: SourceRow) returns (r: seq<string>)
    ensures exists order :: Enumerates(order, row.values.Keys) && r == ValuesInOrder(atoi, row.values, order)
  {
    hide ParseSourceKey, HasPlaced;
    var values := row.values;
    if |values| == 0 {
      assert values.Keys == {} && Enumerates([], values.Keys);
      return [];
    }
    var keys := AnyOrder(values.Keys);
    ghost var order := keys;
    var indexed: map<int, string> := map[];
    var maxIndex: int := -1;
    var allIndexed := true;
    NothingPlaced(atoi, values);
    for k := 0 to |keys|
      invariant allIndexed && HasPlaced(atoi, values, keys[..k], indexed, maxIndex)
    {
      assert keys[..k + 1] == keys[..k] + [keys[k]];
      var index := ParseSourceKey(atoi, keys[k]);
      if index.None? {
        allIndexed := false;
        break;
      }
      PlaceOneMore(atoi, values, keys[..k], indexed, maxIndex, keys[k]);
      indexed := indexed[index.value := values[keys[k]]];
      if index.value > maxIndex {
        maxIndex := index.value;
      }
    }
    if allIndexed {
      assert keys[..|keys|] == keys;
      AllPlaced(atoi, values, keys, indexed, maxIndex);
      return seq(maxIndex + 1, i => Lookup'(indexed, i));
    }
    keys := SortStrings(keys);
    assert forall i :: 0 <= i < |keys| ==> keys[i] in multiset(keys);
    r := seq(|keys|, i requires 0 <= i < |keys| => Lookup(values, keys[i]));
    assert r == ValuesInOrder(atoi, values, order);
  }

  lemma NothingPlaced(atoi: string -> Option<int>, values: map<string, string>)
    ensures HasPlaced(atoi, values, [], map[], -1)
  {
  }

  lemma AllPlaced(atoi: string -> Option<int>, values: map<string, string>, order: seq<string>,
                  indexed: map<int, string>, maxIndex: int)
    requires Enumerates(order, values.Keys) && HasPlaced(atoi, values, order, indexed, maxIndex)
    ensures maxIndex >= -1 && seq(maxIndex + 1, i => Lookup'(indexed, i)) == ValuesInOrder(atoi, values, order)
  {
    hide ParseSourceKey;
  }

  /** Go's iteration: the keys in an order the caller cannot know. */
  method AnyOrder(keys: set<string>) returns (order: seq<string>)
    ensures Enumerates(order, keys)
  {
    order := [];
    var remaining := keys;
    while remaining != {}
      invariant remaining <= keys && Enumerates(order, keys - remaining)
      decreases remaining
    {
      var key :| key in remaining;
      remaining := remaining - {key};
      order := order + [key];
    }
  }

  lemma {:induction false} MaxIndexBounds(atoi: string -> Option<int>, order: seq<string>)
    ensures forall key :: key in order && ParseSourceKey(atoi, key).Some? ==>
              ParseSourceKey(atoi, key).value <= MaxIndex(atoi, order)
    ensures MaxIndex(atoi, order) >= 0 ==>
              exists key :: key in order && ParseSourceKey(atoi, key) == Some(MaxIndex(atoi, order))
  {
    hide ParseSourceKey;
    if order != [] {
      MaxIndexBounds(atoi, Front(order));
      assert order == Front(order) + [Last(order)];
    }
  }

  method SourceValuesWithColumns(atoi: string -> Option<int>, row: SourceRow, columns: seq<string>)
    returns (r: seq<string>)
    ensures columns != [] && (row.values == map[] || exists c :: c in columns && c in row.values) ==>
              && |r| == |columns|
              && forall i :: 0 <= i < |r| ==> r[i] == if columns[i] in row.values then row.values[columns[i]] else ""
    ensures UsesColumns(row.values, columns) ==> r == ReadColumns(row.values, columns)
    ensures !UsesColumns(row.values, columns) ==>
              exists order :: Enumerates(order, row.values.Keys) && r == ValuesInOrder(atoi, row.values, order)
  {
    if |columns| != 0 {
      var values: seq<string> := [];
      var matched := 0;
      for index := 0 to |columns|
        invariant values == ReadColumns(row.values, columns[..index])
        invariant matched >= 0 && (matched != 0 <==> exists c :: c in columns[..index] && c in row.values)
      {
        assert columns[..index + 1] == columns[..index] + [columns[index]];
        if columns[index] in row.values {
          matched := matched + 1;
        }
        values := values + [Lookup(row.values, columns[index])];
      }
      assert columns[..|columns|] == columns;
      if matched != 0 || |row.values| == 0 {
        return values;
      }
    }
    r := SourceValues(atoi, row);
  }

  // The round trip ------------------------------------------------------------

  /** The record padded with empty cells, or cut, to the width of the header. */
  function Fitted(record: seq<string>, width: nat): seq<string> {
    seq(width, i requires 0 <= i < width => Cell(record, i))
  }

  /**
   * Building a row and reading it back with the same columns gives, at each position, the cell of
   * the last column of that name; with distinct names, the record fitted to the header.
   */
  lemma RoundTrip(columns: seq<string>, record: seq<string>)
    requires columns != []
    ensures var values := RowMap(columns, record); var row := ReadColumns(values, columns);
      && UsesColumns(values, columns)
      && |row| == |columns|
      && (forall i :: 0 <= i < |columns| ==> row[i] == Cell(record, LastIndex(columns, columns[i])))
      && ((forall i, j :: 0 <= i < j < |columns| ==> columns[i] != columns[j]) ==> row == Fitted(record, |columns|))
  {
    assert columns[0] in columns && columns[0] in RowMap(columns, record);
    if forall i, j :: 0 <= i < j < |columns| ==> columns[i] != columns[j] {
      forall i | 0 <= i < |columns| ensures LastIndex(columns, columns[i]) == i {
        var l := LastIndex(columns, columns[i]);
        assert !(i < l) && !(l < i);
      }
    }
  }

  /** In the cells: each column reads the cell of the last column of its name, empty where the record ends. */
  lemma {:induction false} RoundTripCells(columns: seq<string>, record: seq<string>, i: nat, last: nat)
    requires i < |columns| && i <= last < |columns| && columns[last] == columns[i]
    requires forall j :: last < j < |columns| ==> columns[j] != columns[i]
    ensures ReadColumns(RowMap(columns, record), columns)[i] == if last < |record| then record[last] else ""
  {
    hide RowMap, UsesColumns;
    RoundTrip(columns, record);
    var l := LastIndex(columns, columns[i]);
    assert !(last < l) && !(l < last);
  }

  /** A fitted record has the cells of the record, and empty ones up to its width. */
  lemma FittedIs(record: seq<string>, width: nat)
    ensures |Fitted(record, width)| == width
    ensures forall i :: 0 <= i < width ==> Fitted(record, width)[i] == if i < |record| then record[i] else ""
  {
  }

  // Independence of the order ---------------------------------------------------

  /** Keys that share an index also share their value. */
  ghost predicate Agree(atoi: string -> Option<int>, values: map<string, string>) {
    forall k, l :: k in values && l in values && ParseSourceKey(atoi, k) == ParseSourceKey(atoi, l)
        ==> values[k] == values[l]
  }

  lemma {:induction false} PlacedIs(atoi: string -> Option<int>, values: map<string, string>, order: seq<string>,
                                    i: nat)
    requires forall key :: key in order ==> key in values
    ensures var value := Placed(atoi, values, order, i);
      || (exists key :: key in order && ParseSourceKey(atoi, key) == Some(i) && values[key] == value)
      || ((forall key :: key in order ==> ParseSourceKey(atoi, key) != Some(i)) && value == "")
  {
    hide ParseSourceKey;
    if order != [] {
      assert order == Front(order) + [Last(order)];
      PlacedIs(atoi, values, Front(order), i);
      var value := Placed(atoi, values, Front(order), i);
      if key :| key in Front(order) && ParseSourceKey(atoi, key) == Some(i) && values[key] == value {
        assert key in order;
      }
    }
  }

  lemma SameMaxIndex(atoi: string -> Option<int>, keys: set<string>, o: seq<string>, p: seq<string>)
    requires Enumerates(o, keys) && Enumerates(p, keys)
    ensures MaxIndex(atoi, o) == MaxIndex(atoi, p)
  {
    hide ParseSourceKey;
    MaxIndexBounds(atoi, o);
    MaxIndexBounds(atoi, p);
  }

  lemma SamePlaced(atoi: string -> Option<int>, values: map<string, string>, o: seq<string>, p: seq<string>, i: nat)
    requires Enumerates(o, values.Keys) && Enumerates(p, values.Keys) && Agree(atoi, values)
    ensures Placed(atoi, values, o, i) == Placed(atoi, values, p, i)
  {
    hide ParseSourceKey;
    PlacedIs(atoi, values, o, i);
    PlacedIs(atoi, values, p, i);
  }

  lemma {:induction false} EnumerationsAreMultisets(keys: set<string>, o: seq<string>)
    requires Enumerates(o, keys)
    ensures multiset(o) == multiset(keys)
    decreases |o|
  {
    if o != [] {
      assert o == Front(o) + [Last(o)];
      assert Enumerates(Front(o), keys - {Last(o)});
      EnumerationsAreMultisets(keys - {Last(o)}, Front(o));
    }
  }

  lemma {:induction false} SameSorted(keys: set<string>, o: seq<string>, p: seq<string>)
    requires Enumerates(o, keys) && Enumerates(p, keys)
    ensures SortStrings(o) == SortStrings(p)
  {
    EnumerationsAreMultisets(keys, o);
    EnumerationsAreMultisets(keys, p);
    SortStringsIsAscending(o);
    SortStringsIsAscending(p);
    AscendingIsUnique(SortStrings(o), SortStrings(p));
  }

  /** sourceValues is the same for every iteration order exactly when some key has no index or colliding keys agree. */
  lemma {:induction false} OrderIndependence(atoi: string -> Option<int>, values: map<string, string>)
    ensures (!AllIndexed(atoi, values) || Agree(atoi, values)) <==>
            forall o, p :: Enumerates(o, values.Keys) && Enumerates(p, values.Keys) ==>
              ValuesInOrder(atoi, values, o) == ValuesInOrder(atoi, values, p)
  {
    hide ParseSourceKey, Placed, MaxIndex;
    if !AllIndexed(atoi, values) || Agree(atoi, values) {
      forall o, p | Enumerates(o, values.Keys) && Enumerates(p, values.Keys)
        ensures ValuesInOrder(atoi, values, o) == ValuesInOrder(atoi, values, p)
      {
        if AllIndexed(atoi, values) {
          SameMaxIndex(atoi, values.Keys, o, p);
          forall i: nat ensures Placed(atoi, values, o, i) == Placed(atoi, values, p, i) {
            SamePlaced(atoi, values, o, p, i);
          }
        } else {
          SameSorted(values.Keys, o, p);
        }
      }
    } else {
      var k, l :| k in values && l in values && ParseSourceKey(atoi, k) == ParseSourceKey(atoi, l)
          && values[k] != values[l];
      var o, i := EndsWith(atoi, values, k);
      var p, j := EndsWith(atoi, values, l);
    }
  }

  /** An order that visits a key last, so that its value stays at its index. */
  lemma EndsWith(atoi: string -> Option<int>, values: map<string, string>, key: string)
    returns (order: seq<string>, i: nat)
    requires key in values && AllIndexed(atoi, values)
    ensures Enumerates(order, values.Keys) && ParseSourceKey(atoi, key) == Some(i)
    ensures i < |ValuesInOrder(atoi, values, order)| && ValuesInOrder(atoi, values, order)[i] == values[key]
  {
    hide ParseSourceKey;
    i := ParseSourceKey(atoi, key).value;
    var rest := SomeOrder(values.Keys - {key});
    order := rest + [key];
    assert Front(order) == rest;
    MaxIndexBounds(atoi, order);
  }

  /** The two regular cases: sorted keys, and distinct indices. */
  lemma {:induction false} RegularValues(atoi: string -> Option<int>, values: map<string, string>, order: seq<string>)
    requires Enumerates(order, values.Keys)
    ensures var r := ValuesInOrder(atoi, values, order);
      && (!AllIndexed(atoi, values) ==> exists keys ::
            Ascending(keys) && multiset(keys) == multiset(values.Keys) && |r| == |keys|
            && forall i :: 0 <= i < |r| ==> keys[i] in values && r[i] == values[keys[i]])
      && (AllIndexed(atoi, values) && Agree(atoi, values) ==>
            forall i :: 0 <= i < |r| ==>
              (forall key :: key in values && ParseSourceKey(atoi, key) == Some(i) ==> r[i] == values[key])
              && ((forall key :: key in values ==> ParseSourceKey(atoi, key) != Some(i)) ==> r[i] == ""))
      && (AllIndexed(atoi, values) ==> forall key :: key in values ==> ParseSourceKey(atoi, key).value < |r|)
  {
    hide ParseSourceKey, Placed, MaxIndex;
    if AllIndexed(atoi, values) {
      MaxIndexBounds(atoi, order);
      forall i: nat | i < |ValuesInOrder(atoi, values, order)| {
        PlacedIs(atoi, values, order, i);
      }
    } else {
      SortedValues(atoi, values, order);
    }
  }

  lemma {:induction false} SortedValues(atoi: string -> Option<int>, values: map<string, string>, order: seq<string>)
    requires Enumerates(order, values.Keys) && !AllIndexed(atoi, values)
    ensures var r := ValuesInOrder(atoi, values, order);
      exists keys :: Ascending(keys) && multiset(keys) == multiset(values.Keys) && |r| == |keys|
                     && forall i :: 0 <= i < |r| ==> keys[i] in values && r[i] == values[keys[i]]
  {
    hide ParseSourceKey, Placed, MaxIndex;
    EnumerationsAreMultisets(values.Keys, order);
    SortStringsIsAscending(order);
    var keys := SortStrings(order);
    assert Ascending(keys);
    forall i | 0 <= i < |keys| ensures keys[i] in values {
      assert keys[i] in multiset(keys);
    }
  }
}
