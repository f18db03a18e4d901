/** One table of a source file: where its header is, and the rows below it. */
module Sheets {
  import opened Prelude
  import opened SourceRows
  import Names

  const DEFAULT_SAMPLE_LIMIT := 5

  type Cells = seq<string>

  datatype SheetAnalysis = SheetAnalysis(name: string, columns: seq<string>, samples: seq<SourceRow>, rows: nat)

  datatype SourceError = NoHeader | ContextError | ReadError | EndOfFile

  /** Some cell is not blank; isSpace is unicode.IsSpace. */
  predicate HasValue(record: Cells, isSpace: char -> bool) {
    exists value :: value in record && Names.Trim(value, isSpace) != ""
  }

  /** A record has a value if some cell has a character that is no white space. */
  lemma {:induction false} HasValueIs(record: Cells, isSpace: char -> bool)
    ensures HasValue(record, isSpace)
            <==> exists i, j :: 0 <= i < |record| && 0 <= j < |record[i]| && !isSpace(record[i][j])
  {
    forall i | 0 <= i < |record|
      ensures Names.Trim(record[i], isSpace) != "" <==> exists j :: 0 <= j < |record[i]| && !isSpace(record[i][j])
    {
      Names.TrimIs(record[i], isSpace);
    }
    if HasValue(record, isSpace) {
      var value :| value in record && Names.Trim(value, isSpace) != "";
      var i :| 0 <= i < |record| && record[i] == value;
    }
    if i, j :| 0 <= i < |record| && 0 <= j < |record[i]| && !isSpace(record[i][j]) {
      assert record[i] in record;
    }
  }

  /** The position of the first record that is not blank; the number of records if all are. */
  function HeaderAt(records: seq<Cells>, isSpace: char -> bool): (h: nat)
    ensures h <= |records|
    ensures forall i :: 0 <= i < h ==> !HasValue(records[i], isSpace)
    ensures h < |records| ==> HasValue(records[h], isSpace)
  {
    if records == [] then 0
    else
      var h := HeaderAt(Front(records), isSpace);
      if h < |records| - 1 then h
      else if HasValue(Last(records), isSpace) then |records| - 1 else |records|
  }

  /** A record is the header if it is the first that is not blank. */
  lemma HeaderFound(records: seq<Cells>, isSpace: char -> bool, n: nat)
    requires n <= |records| && forall i :: 0 <= i < n ==> !HasValue(records[i], isSpace)
    ensures n == |records| || HasValue(records[n], isSpace) ==> HeaderAt(records, isSpace) == n
  {
  }

  /** The records up to the first that cannot be read. */
  function Readable(records: seq<Option<Cells>>): (readable: seq<Cells>)
    ensures |readable| <= |records|
    ensures forall i :: 0 <= i < |readable| ==> records[i] == Some(readable[i])
    ensures |readable| < |records| ==> records[|readable|].None?
  {
    if records == [] || records[0].None? then [] else [records[0].value] + Readable(records[1..])
  }

  /** The rows below a header at position h, numbered from one. */
  function RowsBelow(columns: seq<string>, records: seq<Cells>, h: nat): (rows: seq<SourceRow>)
    requires h < |records|
    ensures |rows| == |records| - h - 1
  {
    seq(|records| - h - 1, k requires 0 <= k < |records| - h - 1 =>
        SourceRow(h + 2 + k, RowMap(columns, records[h + 1 + k])))
  }

  /** What an analysis reports of a table. */
  function Summary(name: string, columns: seq<string>, rows: seq<SourceRow>): SheetAnalysis {
    SheetAnalysis(name, columns, if |rows| < DEFAULT_SAMPLE_LIMIT then rows else rows[..DEFAULT_SAMPLE_LIMIT], |rows|)
  }

  /** An analysis counts the rows, and keeps the first five as samples. */
  lemma {:induction false} SummaryIs(name: string, columns: seq<string>, rows: seq<SourceRow>)
    ensures var a := Summary(name, columns, rows);
      && a.name == name && a.columns == columns && a.rows == |rows|
      && |a.samples| == (if |rows| < 5 then |rows| else 5)
      && forall i :: 0 <= i < |a.samples| ==> a.samples[i] == rows[i]
  {
  }

  lemma NothingYet(name: string, columns: seq<string>)
    ensures Summary(name, columns, []) == SheetAnalysis(name, columns, [], 0)
  {
  }

  /** One more row in an analysis. */
  lemma SummaryGrows(name: string, columns: seq<string>, rows: seq<SourceRow>, row: SourceRow)
    ensures var before, after := Summary(name, columns, rows), Summary(name, columns, rows + [row]);
      after == before.(rows := before.rows + 1,
                       samples := if |before.samples| < DEFAULT_SAMPLE_LIMIT then before.samples + [row]
                           else before.samples)
  {
    assert |rows| >= DEFAULT_SAMPLE_LIMIT ==> (rows + [row])[..DEFAULT_SAMPLE_LIMIT] == rows[..DEFAULT_SAMPLE_LIMIT];
    assert |rows| == DEFAULT_SAMPLE_LIMIT - 1 ==> (rows + [row])[..DEFAULT_SAMPLE_LIMIT] == rows + [row];
  }
}
