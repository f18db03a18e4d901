/** The XLSX adapter over the sheets its library delivers. */
module XlsxSource {
  import opened Prelude
  import opened Schemas
  import opened SourceRows
  import opened Sheets

  /** A sheet: whether it opens, its rows (None for one that cannot be read), and how reading and closing end. */
  datatype Sheet = Sheet(name: string, opens: bool, rows: seq<Option<Cells>>, broken: bool, closes: bool)

  datatype Workbook = Workbook(sheets: seq<Sheet>, isSpace: char -> bool)

  /** Nothing goes wrong with the sheet. */
  predicate Clean(sheet: Sheet) {
    sheet.opens && |Readable(sheet.rows)| == |sheet.rows| && !sheet.broken && sheet.closes
  }

  predicate HasHeader(book: Workbook, sheet: Sheet) {
    HeaderAt(Readable(sheet.rows), book.isSpace) < |Readable(sheet.rows)|
  }

  function Columns(book: Workbook, sheet: Sheet): seq<string>
    requires HasHeader(book, sheet)
  {
    Readable(sheet.rows)[HeaderAt(Readable(sheet.rows), book.isSpace)]
  }

  function Rows(book: Workbook, sheet: Sheet): seq<SourceRow>
    requires HasHeader(book, sheet)
  {
    RowsBelow(Columns(book, sheet), Readable(sheet.rows), HeaderAt(Readable(sheet.rows), book.isSpace))
  }

  /** The row of the record at a position below the header. */
  lemma RowAt(book: Workbook, sheet: Sheet, position: int)
    requires HasHeader(book, sheet) && HeaderAt(Readable(sheet.rows), book.isSpace) < position <= |Readable(sheet.rows)|
    ensures var h := HeaderAt(Readable(sheet.rows), book.isSpace);
      && |Rows(book, sheet)| == |Readable(sheet.rows)| - h - 1
      && (position < |Readable(sheet.rows)| ==>
            Rows(book, sheet)[position - h - 1]
            == SourceRow(position + 1, RowMap(Columns(book, sheet), Readable(sheet.rows)[position])))
  {
    hide HeaderAt, Readable, RowMap;
  }

  // Streaming -----------------------------------------------------------------

  class RowReader {
    const book: Workbook
    const sheet: Sheet
    const ctx: Context
    const columns: seq<string>
    var position: nat         // rows taken from the sheet
    var rowIndex: int
    var closed: bool

    ghost predicate Valid()
      reads this
    {
      && HasHeader(book, sheet) && columns == Columns(book, sheet)
      && HeaderAt(Readable(sheet.rows), book.isSpace) < position <= |Readable(sheet.rows)|
      && rowIndex == position
    }

    ghost function Delivered(): int
      reads this
    {
      position - HeaderAt(Readable(sheet.rows), book.isSpace) - 1
    }

    constructor (ctx: Context, book: Workbook, sheet: Sheet, columns: seq<string>, rowIndex: nat)
      ensures this.ctx == ctx && this.book == book && this.sheet == sheet && this.columns == columns
      ensures this.position == rowIndex && this.rowIndex == rowIndex && !closed
    {
      this.ctx, this.book, this.sheet, this.columns := ctx, book, sheet, columns;
      position, this.rowIndex, closed := rowIndex, rowIndex, false;
    }

    /** The rows come in order; after the last, or an error of the sheet, the reader is closed. */
    method Next() returns (r: Result<SourceRow, SourceError>)
      requires Valid()
      modifies this
      ensures Valid()
      ensures old(closed) ==> r == Err(EndOfFile) && closed
      ensures r.Ok? ==> Delivered() == old(Delivered()) + 1 && old(Delivered()) < |Rows(book, sheet)|
                        && r.value == Rows(book, sheet)[old(Delivered())] && closed == old(closed)
      ensures r.Err? ==> Delivered() == old(Delivered())
      ensures r.Err? && !old(closed) ==>
                match r.error
                case EndOfFile => closed && Delivered() == |Rows(book, sheet)| && !sheet.broken
                case ContextError => !closed && ctx.cancellable
                case ReadError => closed && Delivered() == |Rows(book, sheet)| && !Clean(sheet)
                case NoHeader => false
    {
      hide HasValue, RowMap, HeaderAt, RowsBelow;
      RowAt(book, sheet, position);
      if closed { return Err(EndOfFile); }
      var cancelled := Cancelled(ctx);
      if cancelled { return Err(SourceError.ContextError); }
      if position == |sheet.rows| {
        if sheet.broken {
          var _ := Close();
          return Err(ReadError);
        }
        var failed := Close();
        return Err(if failed then ReadError else EndOfFile);
      }
      if sheet.rows[position].None? {
        var _ := Close();
        return Err(ReadError);
      }
      var record := sheet.rows[position].value;
      assert record == Readable(sheet.rows)[position];
      position := position + 1;
      rowIndex := rowIndex + 1;
      var values := RowValues(columns, record);
      r := Ok(SourceRow(rowIndex, values));
    }

    /** Closing twice is harmless. */
    method Close() returns (failed: bool)
      modifies this`closed
      ensures closed
      ensures failed <==> !old(closed) && !sheet.closes
    {
      if closed { return false; }
      closed := true;
      failed := !sheet.closes;
    }
  }

  /** The sheets before position n are clean and blank. */
  ghost predicate BlankBefore(book: Workbook, n: nat) {
    n <= |book.sheets| && forall i :: 0 <= i < n ==> Clean(book.sheets[i]) && !HasHeader(book, book.sheets[i])
  }

  ghost predicate AllClean(book: Workbook) {
    forall i :: 0 <= i < |book.sheets| ==> Clean(book.sheets[i])
  }

  /** The first sheet with a row that is not blank, right below that row. */
  method OpenSheet(ctx: Context, book: Workbook) returns (r: Result<RowReader, SourceError>)
    ensures r.Ok? ==>
              && fresh(r.value) && r.value.book == book && r.value.ctx == ctx
              && r.value.Valid() && r.value.Delivered() == 0 && !r.value.closed
              && exists n :: 0 <= n < |book.sheets| && BlankBefore(book, n) && r.value.sheet == book.sheets[n]
    ensures r.Err? ==>
              match r.error
              case ContextError => ctx.cancellable
              case NoHeader => BlankBefore(book, |book.sheets|)
              case ReadError => !AllClean(book)
              case EndOfFile => false
  {
    hide HasValue, HeaderAt, Readable, HasHeader, Clean;
    for n := 0 to |book.sheets|
      invariant BlankBefore(book, n)
    {
      var reader := OpenOne(ctx, book, book.sheets[n]);
      if reader.Err? { return Err(reader.error); }
      if reader.value.Some? { return Ok(reader.value.value); }
    }
    r := Err(NoHeader);
  }

  /** One turn of the loop over the sheets: a blank sheet is passed over. */
  method OpenOne(ctx: Context, book: Workbook, sheet: Sheet) returns (r: Result<Option<RowReader>, SourceError>)
    ensures r.Ok? && r.value.Some? ==>
              && fresh(r.value.value) && r.value.value.book == book && r.value.value.ctx == ctx
                 && r.value.value.sheet == sheet
              && r.value.value.Valid() && r.value.value.Delivered() == 0 && !r.value.value.closed
    ensures r.Ok? && r.value.None? ==> Clean(sheet) && !HasHeader(book, sheet)
    ensures r.Err? ==> (r.error.ContextError? && ctx.cancellable) || (r.error.ReadError? && !Clean(sheet))
  {
    hide HasValue, HeaderAt;
    if !sheet.opens { return Err(ReadError); }
    var rowIndex := 0;
    ghost var records := Readable(sheet.rows);
    while rowIndex < |sheet.rows|
      invariant 0 <= rowIndex <= |records|
      invariant forall i :: 0 <= i < rowIndex ==> !HasValue(records[i], book.isSpace)
    {
      var row := sheet.rows[rowIndex];
      rowIndex := rowIndex + 1;
      var cancelled := Cancelled(ctx);
      if cancelled { return Err(SourceError.ContextError); }
      if row.None? { return Err(ReadError); }
      assert row.value == records[rowIndex - 1];
      if !HasValue(row.value, book.isSpace) { continue; }
      HeaderFound(records, book.isSpace, rowIndex - 1);
      var reader := new RowReader(ctx, book, sheet, row.value, rowIndex);
      return Ok(Some(reader));
    }
    if sheet.broken || !sheet.closes { return Err(ReadError); }
    HeaderFound(records, book.isSpace, rowIndex);
    r := Ok(None);
  }

  // Analysis --------------------------------------------------------------------

  /** What the analysis lists: a summary of each sheet with a header, in workbook order. */
  function Summaries(book: Workbook, sheets: seq<Sheet>): seq<SheetAnalysis> {
    if sheets == [] then []
    else
      Summaries(book, Front(sheets))
      + if HasHeader(book, Last(sheets)) then [Summary(Last(sheets).name, Columns(book, Last(sheets)),
                                                       Rows(book, Last(sheets)))] else []
  }

  /** Where the analysis of a sheet stands when n of its rows have been read. */
  ghost predicate Analyzed(book: Workbook, sheet: Sheet, n: nat, headerFound: bool, analysis: SheetAnalysis) {
    var records := Readable(sheet.rows);
    var h := HeaderAt(records, book.isSpace);
    && n <= |records|
    && (headerFound <==> h < n)
    && (headerFound ==> analysis == Summary(sheet.name, Columns(book, sheet), Rows(book, sheet)[..n - h - 1]))
  }

  /** One row more: blank above the header, the header, or a row below it. */
  lemma {:induction false} AnalyzedGrows(book: Workbook, sheet: Sheet, n: nat, headerFound: bool,
                                         analysis: SheetAnalysis)
    requires Analyzed(book, sheet, n, headerFound, analysis) && n < |sheet.rows| && sheet.rows[n].Some?
    ensures headerFound ==>
              && analysis.columns == Columns(book, sheet)
              && Analyzed(book, sheet, n + 1, true, WithRow(analysis, n + 1, sheet.rows[n].value))
    ensures !headerFound && !HasValue(sheet.rows[n].value, book.isSpace)
            ==> Analyzed(book, sheet, n + 1, false, analysis)
    ensures !headerFound && HasValue(sheet.rows[n].value, book.isSpace)
            ==> Analyzed(book, sheet, n + 1, true, SheetAnalysis(sheet.name, sheet.rows[n].value, [], 0))
  {
    hide RowMap, HasValue;
    var records := Readable(sheet.rows);
    assert n < |records| && records[n] == sheet.rows[n].value;
    if headerFound {
      RowBelow(book, sheet, n, analysis);
    }
  }

  lemma {:induction false} RowBelow(book: Workbook, sheet: Sheet, n: nat, analysis: SheetAnalysis)
    requires Analyzed(book, sheet, n, true, analysis) && n < |Readable(sheet.rows)|
    ensures analysis.columns == Columns(book, sheet)
            && Analyzed(book, sheet, n + 1, true, WithRow(analysis, n + 1, Readable(sheet.rows)[n]))
  {
    hide RowMap, HasValue, HeaderAt, Readable;
    var records := Readable(sheet.rows);
    var h := HeaderAt(records, book.isSpace);
    var k, rows := n - h - 1, Rows(book, sheet);
    assert rows[k] == SourceRow(n + 1, RowMap(analysis.columns, records[n]));
    assert rows[..k + 1] == rows[..k] + [rows[k]];
    SummaryGrows(sheet.name, Columns(book, sheet), rows[..k], rows[k]);
  }

  /** An analysis with one more row, kept as a sample while there are few. */
  function WithRow(analysis: SheetAnalysis, number: int, record: Cells): SheetAnalysis {
    analysis.(rows := analysis.rows + 1,
              samples := if |analysis.samples| < DEFAULT_SAMPLE_LIMIT
                         then analysis.samples + [SourceRow(number, RowMap(analysis.columns, record))]
                         else analysis.samples)
  }

  method AnalyzeSheet(ctx: Context, book: Workbook, sheet: Sheet)
    returns (r: Result<Option<SheetAnalysis>, SourceError>)
    ensures r.Err? ==> (r.error.ContextError? && ctx.cancellable) || (r.error.ReadError? && !Clean(sheet))
    ensures r.Ok? ==> sheet.opens && |Readable(sheet.rows)| == |sheet.rows| && !sheet.broken
    ensures r.Ok? ==> r.value == if HasHeader(book, sheet)
            then Some(Summary(sheet.name, Columns(book, sheet), Rows(book, sheet))) else None
  {
    hide Analyzed, HasValue, RowMap;
    if !sheet.opens { return Err(ReadError); }
    var analysis := SheetAnalysis("", [], [], 0);
    var headerFound := false;
    var rowIndex := 0;
    AtTheTop(book, sheet, analysis);
    while rowIndex < |sheet.rows|
      invariant 0 <= rowIndex <= |sheet.rows|
      invariant Analyzed(book, sheet, rowIndex, headerFound, analysis)
    {
      var row := sheet.rows[rowIndex];
      rowIndex := rowIndex + 1;
      var cancelled := Cancelled(ctx);
      if cancelled { return Err(SourceError.ContextError); }
      if row.None? {
        Unreadable(sheet, rowIndex - 1);
        return Err(ReadError);
      }
      AnalyzedGrows(book, sheet, rowIndex - 1, headerFound, analysis);
      if !headerFound {
        if !HasValue(row.value, book.isSpace) { continue; }
        analysis := SheetAnalysis(sheet.name, row.value, [], 0);
        headerFound := true;
        continue;
      }
      analysis := analysis.(rows := analysis.rows + 1);
      if |analysis.samples| < DEFAULT_SAMPLE_LIMIT {
        var values := RowValues(analysis.columns, row.value);
        analysis := analysis.(samples := analysis.samples + [SourceRow(rowIndex, values)]);
      }
    }
    if sheet.broken { return Err(ReadError); }
    AtTheEnd(book, sheet, headerFound, analysis);
    r := Ok(if headerFound then Some(analysis) else None);
  }

  lemma AtTheTop(book: Workbook, sheet: Sheet, analysis: SheetAnalysis)
    ensures Analyzed(book, sheet, 0, false, analysis)
  {
  }

  lemma Unreadable(sheet: Sheet, n: nat)
    requires n < |sheet.rows| && sheet.rows[n].None?
    ensures |Readable(sheet.rows)| != |sheet.rows|
  {
  }

  lemma AtTheEnd(book: Workbook, sheet: Sheet, headerFound: bool, analysis: SheetAnalysis)
    requires Analyzed(book, sheet, |sheet.rows|, headerFound, analysis)
    ensures |Readable(sheet.rows)| == |sheet.rows|
    ensures headerFound <==> HasHeader(book, sheet)
    ensures headerFound ==> analysis == Summary(sheet.name, Columns(book, sheet), Rows(book, sheet))
  {
    if headerFound {
      assert Rows(book, sheet)[..|Rows(book, sheet)|] == Rows(book, sheet);
    }
  }

  method Analyze(ctx: Context, book: Workbook) returns (r: Result<seq<SheetAnalysis>, SourceError>)
    ensures r.Ok? ==> r.value == Summaries(book, book.sheets) && r.value != []
    ensures r.Err? ==>
              match r.error
              case ContextError => ctx.cancellable
              case NoHeader => Summaries(book, book.sheets) == []
              case ReadError => !AllClean(book)
              case EndOfFile => false
  {
    var cancelled := Cancelled(ctx);
    if cancelled { return Err(SourceError.ContextError); }
    var analyses: seq<SheetAnalysis> := [];
    for n := 0 to |book.sheets|
      invariant analyses == Summaries(book, book.sheets[..n])
    {
      assert Front(book.sheets[..n + 1]) == book.sheets[..n];
      var analysis := AnalyzeSheet(ctx, book, book.sheets[n]);
      if analysis.Err? { return Err(analysis.error); }
      if analysis.value.Some? {
        analyses := analyses + [analysis.value.value];
      }
    }
    assert book.sheets[..|book.sheets|] == book.sheets;
    if |analyses| == 0 { return Err(NoHeader); }
    r := Ok(analyses);
  }

  // Both agree --------------------------------------------------------------------

  lemma {:induction false} BlankSheetsAreNotListed(book: Workbook, n: nat)
    requires n <= |book.sheets| && forall i :: 0 <= i < n ==> !HasHeader(book, book.sheets[i])
    ensures Summaries(book, book.sheets[..n]) == []
  {
    if n > 0 {
      assert Front(book.sheets[..n]) == book.sheets[..n - 1];
      BlankSheetsAreNotListed(book, n - 1);
    }
  }

  lemma {:induction false} SummariesGrow(book: Workbook, k: nat)
    requires k <= |book.sheets|
    ensures Summaries(book, book.sheets[..k]) <= Summaries(book, book.sheets)
    decreases |book.sheets| - k
  {
    if k == |book.sheets| {
      assert book.sheets[..k] == book.sheets;
    } else {
      assert Front(book.sheets[..k + 1]) == book.sheets[..k];
      SummariesGrow(book, k + 1);
    }
  }

  /** The positions of the sheets with a header. */
  function Listed(book: Workbook, sheets: seq<Sheet>): (at: seq<nat>)
    ensures |at| == |Summaries(book, sheets)|
    ensures forall m :: 0 <= m < |at| ==> at[m] < |sheets|
  {
    if sheets == [] then []
    else Listed(book, Front(sheets)) + if HasHeader(book, Last(sheets)) then [|sheets| - 1] else []
  }

  /** The analysis lists every sheet with a header, and no other, in the order of the workbook. */
  lemma {:induction false} ListedAre(book: Workbook, sheets: seq<Sheet>)
    ensures var at := Listed(book, sheets);
      && (forall m, n :: 0 <= m < n < |at| ==> at[m] < at[n])
      && (forall n: nat :: n in at <==> n < |sheets| && HasHeader(book, sheets[n]))
  {
    hide HasHeader;
    if sheets != [] {
      ListedAre(book, Front(sheets));
      var before := Listed(book, Front(sheets));
      assert forall m :: 0 <= m < |before| ==> before[m] in before;
    }
  }

  lemma {:induction false} ListedAt(book: Workbook, sheets: seq<Sheet>, m: nat)
    requires m < |Summaries(book, sheets)|
    ensures var sheet := sheets[Listed(book, sheets)[m]];
      HasHeader(book, sheet)
      && Summaries(book, sheets)[m] == Summary(sheet.name, Columns(book, sheet), Rows(book, sheet))
  {
    hide Columns, Rows, Summary, HeaderAt, Readable;
    if m < |Summaries(book, Front(sheets))| {
      ListedAt(book, Front(sheets), m);
    }
  }

  /** The first sheet the analysis lists is the one that is streamed: same columns, rows and row numbers. */
  lemma FirstListedIsStreamed(book: Workbook, n: nat)
    requires n < |book.sheets| && BlankBefore(book, n) && HasHeader(book, book.sheets[n])
    ensures var sheet := book.sheets[n];
      Summaries(book, book.sheets) != []
      && Summaries(book, book.sheets)[0] == Summary(sheet.name, Columns(book, sheet), Rows(book, sheet))
  {
    BlankSheetsAreNotListed(book, n);
    assert Front(book.sheets[..n + 1]) == book.sheets[..n];
    SummariesGrow(book, n + 1);
  }

  /** A blank workbook has nothing to list. */
  lemma NothingToStreamNothingListed(book: Workbook)
    requires BlankBefore(book, |book.sheets|)
    ensures Summaries(book, book.sheets) == []
  {
    BlankSheetsAreNotListed(book, |book.sheets|);
    assert book.sheets[..|book.sheets|] == book.sheets;
  }
}
