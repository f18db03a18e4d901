/** The CSV adapter over the records its reader delivers. */
module CsvSource {
  import opened Prelude
  import opened Schemas
  import opened SourceRows
  import opened Sheets

  const SHEET_NAME := "csv"
  const BYTE_ORDER_MARK := "\U{feff}"

  /** The records of the input (None for a malformed one), and whether reading fails after them. */
  datatype Input = Input(records: seq<Option<Cells>>, broken: bool, isSpace: char -> bool)

  function TrimPrefix(s: string, prefix: string): string {
    if prefix <= s then s[|prefix|..] else s
  }

  /** The header without a leading byte order mark. */
  function ColumnsOf(header: Cells): seq<string> {
    if header == [] then [] else [TrimPrefix(header[0], BYTE_ORDER_MARK)] + header[1..]
  }

  /** A record that is not blank comes before any error. */
  predicate HasHeader(input: Input) {
    Header(input) < |Readable(input.records)|
  }

  /** Where the first record is that is not blank. */
  function Header(input: Input): nat {
    HeaderAt(Readable(input.records), input.isSpace)
  }

  /** Nothing goes wrong with the input. */
  predicate Clean(input: Input) {
    |Readable(input.records)| == |input.records| && !input.broken
  }

  function Columns(input: Input): seq<string>
    requires HasHeader(input)
  {
    ColumnsOf(Readable(input.records)[Header(input)])
  }

  /** The columns are the cells of the header, but for a byte order mark at its very start. */
  lemma ColumnsAre(input: Input)
    requires HasHeader(input)
    ensures var header, columns := Readable(input.records)[Header(input)], Columns(input);
      && |columns| == |header|
      && (forall i :: 0 < i < |header| ==> columns[i] == header[i])
      && (header != [] ==>
            if header[0] != "" && header[0][0] == '\U{feff}' then columns[0] == header[0][1..]
            else columns[0] == header[0])
  {
    var header := Readable(input.records)[Header(input)];
    if header != [] && header[0] != "" && header[0][0] == '\U{feff}' {
      assert BYTE_ORDER_MARK <= header[0];
    }
  }

  /** The rows below the header, up to the first error. */
  function Rows(input: Input): seq<SourceRow>
    requires HasHeader(input)
  {
    RowsBelow(Columns(input), Readable(input.records), Header(input))
  }

  /** How many records are well formed: malformed ones are not numbered. */
  function Numbered(records: seq<Option<Cells>>): nat {
    if records == [] then 0 else Numbered(Front(records)) + if Last(records).Some? then 1 else 0
  }

  /** What reading on below the header gives, call by call: a row, or the error of a malformed record. */
  function Reads(input: Input): (calls: seq<Option<SourceRow>>)
    requires HasHeader(input)
    ensures |calls| == |input.records| - Header(input) - 1
  {
    var h := Header(input);
    seq(|input.records| - h - 1, k requires 0 <= k < |input.records| - h - 1 =>
      if input.records[h + 1 + k].None? then None
      else Some(SourceRow(Numbered(input.records[..h + 2 + k]),
                          RowMap(Columns(input), input.records[h + 1 + k].value))))
  }

  lemma {:induction false} AllNumbered(records: seq<Option<Cells>>, n: nat)
    requires n <= |Readable(records)|
    ensures Numbered(records[..n]) == n
  {
    if n > 0 {
      assert Front(records[..n]) == records[..n - 1];
      AllNumbered(records, n - 1);
    }
  }

  /** Row numbers count well-formed records: one after another, whatever malformed records come between. */
  lemma {:induction false} NumbersAre(input: Input, k: nat, l: nat)
    requires HasHeader(input) && k < l < |Reads(input)| && Reads(input)[k].Some? && Reads(input)[l].Some?
    requires forall i :: k < i < l ==> Reads(input)[i] == None
    ensures Reads(input)[l].value.number == Reads(input)[k].value.number + 1
  {
    hide *;
    var h, records := Header(input), input.records;
    ReadAt(input, k);
    ReadAt(input, l);
    forall i | h + 2 + k <= i < h + 1 + l ensures records[i] == None {
      ReadAt(input, i - h - 1);
    }
    NoneNumbered(records, h + 2 + k, h + 1 + l);
    OneMore(records, h + 1 + l);
  }

  lemma ReadAt(input: Input, k: nat)
    requires HasHeader(input) && k < |Reads(input)|
    ensures Reads(input)[k] == None <==> input.records[Header(input) + 1 + k] == None
    ensures Reads(input)[k].Some? ==>
              Reads(input)[k].value.number == Numbered(input.records[..Header(input) + 2 + k])
  {
    hide RowMap, Columns, Header, Numbered;
  }

  lemma OneMore(records: seq<Option<Cells>>, n: nat)
    requires n < |records| && records[n].Some?
    ensures Numbered(records[..n + 1]) == Numbered(records[..n]) + 1
  {
    assert Front(records[..n + 1]) == records[..n];
  }

  lemma {:induction false} NoneNumbered(records: seq<Option<Cells>>, m: nat, n: nat)
    requires m <= n <= |records| && forall i :: m <= i < n ==> records[i] == None
    ensures Numbered(records[..n]) == Numbered(records[..m])
  {
    if m < n {
      NoneNumbered(records, m, n - 1);
      assert Front(records[..n]) == records[..n - 1];
    }
  }

  /** Up to the first error the reads are the rows; the read after them is that error, or there is none. */
  lemma ReadsAreRows(input: Input)
    requires HasHeader(input)
    ensures |Rows(input)| <= |Reads(input)|
    ensures forall k :: 0 <= k < |Rows(input)| ==> Reads(input)[k] == Some(Rows(input)[k])
    ensures |Rows(input)| < |Reads(input)| ==> Reads(input)[|Rows(input)|] == None
    ensures |Rows(input)| == |Reads(input)| <==> |Readable(input.records)| == |input.records|
  {
    hide HeaderAt, Readable, RowMap;
    forall k | 0 <= k < |Rows(input)| ensures Reads(input)[k] == Some(Rows(input)[k]) {
      AllNumbered(input.records, Header(input) + 2 + k);
    }
  }

  class RowReader {
    const input: Input
    const ctx: Context
    var position: nat          // records taken from the CSV reader
    var columns: seq<string>
    var rowNumber: int
    var done: bool

    /** The reader stands below the header. */
    ghost predicate Valid()
      reads this
    {
      && HasHeader(input) && Header(input) < position <= |input.records|
      && rowNumber == Numbered(input.records[..position]) && columns == Columns(input)
    }

    /** How many records below the header have been read. */
    ghost function Delivered(): int
      reads this
    {
      position - Header(input) - 1
    }

    constructor (ctx: Context, input: Input)
      ensures this.ctx == ctx && this.input == input
      ensures position == 0 && rowNumber == 0 && columns == [] && !done
    {
      this.ctx, this.input := ctx, input;
      position, columns, rowNumber, done := 0, [], 0, false;
    }

    /** The reads come in order, then the end; a cancelled poll changes nothing, a malformed record is passed over. */
    method Next() returns (r: Result<SourceRow, SourceError>)
      requires Valid()
      modifies this
      ensures Valid() && columns == old(columns)
      ensures old(done) ==> r == Err(EndOfFile) && done && Delivered() == old(Delivered())
      ensures r.Ok? ==> Delivered() == old(Delivered()) + 1 && old(Delivered()) < |Reads(input)|
                        && Reads(input)[old(Delivered())] == Some(r.value) && !done
      ensures r.Err? && !old(done) ==>
                match r.error
                case EndOfFile => Delivered() == old(Delivered()) == |Reads(input)| && !input.broken && done
                case ContextError => ctx.cancellable && Delivered() == old(Delivered()) && !done
                case ReadError =>
                  && !done
                  && if old(Delivered()) < |Reads(input)|
                     then Delivered() == old(Delivered()) + 1 && Reads(input)[old(Delivered())] == None
                     else Delivered() == old(Delivered()) && input.broken
                case NoHeader => false
    {
      hide HasValue, RowMap;
      if done { return Err(EndOfFile); }
      var cancelled := Cancelled(ctx);
      if cancelled { return Err(SourceError.ContextError); }
      if position == |input.records| {
        if input.broken { return Err(ReadError); }
        done := true;
        return Err(EndOfFile);
      }
      var record := input.records[position];
      position := position + 1;
      assert Front(input.records[..position]) == input.records[..position - 1];
      if record.None? { return Err(ReadError); }
      rowNumber := rowNumber + 1;
      var values := RowValues(columns, record.value);
      r := Ok(SourceRow(rowNumber, values));
    }

    method Close()
      modifies this`done
      ensures done
    {
      done := true;
    }
  }

  /** The reader stands right below the first record that is not blank. */
  method Open(ctx: Context, input: Input) returns (r: Result<RowReader, SourceError>)
    ensures r.Ok? ==> fresh(r.value) && r.value.input == input && r.value.ctx == ctx && r.value.Valid()
                      && r.value.Delivered() == 0 && !r.value.done
    ensures r.Err? ==>
              match r.error
              case ContextError => ctx.cancellable
              case NoHeader => !HasHeader(input) && Clean(input)
              case ReadError => !HasHeader(input) && !Clean(input)
              case EndOfFile => false
  {
    hide HasValue, HeaderAt, RowMap;
    var cancelled := Cancelled(ctx);
    if cancelled { return Err(SourceError.ContextError); }
    var reader := new RowReader(ctx, input);
    ghost var readable := Readable(input.records);
    while true
      invariant fresh(reader) && reader.input == input && reader.ctx == ctx && !reader.done
      invariant reader.position <= |readable| && reader.rowNumber == reader.position
      invariant forall i :: 0 <= i < reader.position ==> !HasValue(readable[i], input.isSpace)
      decreases |readable| - reader.position
    {
      cancelled := Cancelled(ctx);
      if cancelled { return Err(SourceError.ContextError); }
      if reader.position == |input.records| {
        HeaderFound(readable, input.isSpace, reader.position);
        return Err(if input.broken then ReadError else NoHeader);
      }
      var record := input.records[reader.position];
      if record.None? {
        HeaderFound(readable, input.isSpace, reader.position);
        return Err(ReadError);
      }
      assert record.value == readable[reader.position];
      reader.position := reader.position + 1;
      reader.rowNumber := reader.rowNumber + 1;
      if !HasValue(record.value, input.isSpace) { continue; }
      reader.columns := record.value;
      if |record.value| > 0 {
        reader.columns := reader.columns[0 := TrimPrefix(record.value[0], BYTE_ORDER_MARK)];
      }
      AllNumbered(input.records, reader.position);
      HeaderFound(readable, input.isSpace, reader.position - 1);
      return Ok(reader);
    }
  }

  lemma TakeOne(rows: seq<SourceRow>, n: nat)
    requires 0 < n <= |rows|
    ensures rows[..n] == rows[..n - 1] + [rows[n - 1]]
  {
  }

  /** The analysis summarizes exactly the rows that are streamed, and fails if any record is malformed. */
  method Analyze(ctx: Context, input: Input) returns (r: Result<SheetAnalysis, SourceError>)
    ensures r.Ok? ==> HasHeader(input) && Clean(input) && r.value == Summary(SHEET_NAME, Columns(input), Rows(input))
    ensures r.Err? ==>
              match r.error
              case ContextError => ctx.cancellable
              case NoHeader => !HasHeader(input) && Clean(input)
              case ReadError => !Clean(input)
              case EndOfFile => false
  {
    hide Rows, Columns, Reads, Summary, RowMap, RowsBelow, Header, Readable;
    var start := Open(ctx, input);
    if start.Err? { return Err(start.error); }
    var reader := start.value;
    NothingYet(SHEET_NAME, reader.columns);
    ReadsAreRows(input);
    var analysis := SheetAnalysis(SHEET_NAME, reader.columns, [], 0);
    ghost var rows: seq<SourceRow> := [];
    while true
      invariant fresh(reader) && reader.Valid() && reader.input == input && reader.ctx == ctx && !reader.done
      invariant 0 <= reader.Delivered() <= |Rows(input)| && rows == Rows(input)[..reader.Delivered()]
      invariant analysis == Summary(SHEET_NAME, Columns(input), rows)
      decreases |Rows(input)| - reader.Delivered()
    {
      var next := reader.Next();
      if next.Err? {
        if next.error.EndOfFile? { break; }
        return Err(next.error);
      }
      TakeOne(Rows(input), reader.Delivered());
      SummaryGrows(SHEET_NAME, Columns(input), rows, next.value);
      rows := rows + [next.value];
      analysis := analysis.(rows := analysis.rows + 1);
      if |analysis.samples| < DEFAULT_SAMPLE_LIMIT {
        analysis := analysis.(samples := analysis.samples + [next.value]);
      }
    }
    assert rows == Rows(input);
    reader.Close();
    r := Ok(analysis);
  }
}
