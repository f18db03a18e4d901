/** From the cells of a source file to the records the processor is given. */
module Pipeline {
  import opened Prelude
  import opened Schemas
  import opened Validation
  import opened Plan
  import opened SourceRows
  import opened Sheets
  import opened Import
  import opened ImportMeaning
  import CsvSource
  import XlsxSource

  ghost predicate Distinct(columns: seq<string>) {
    forall i, j :: 0 <= i < j < |columns| ==> columns[i] != columns[j]
  }

  /** The job is the mapping, compiled for the columns of the table. */
  ghost predicate Compiled(job: Job, spec: MappingSpec, schema: Schema, columns: seq<string>) {
    && columns != [] && job.columns == columns
    && WellFormed(spec, schema, [|columns|])
    && job.plan.Valid() && IsCompiled(job.plan, spec, schema)
  }

  /** What an import meets besides the table: how cells parse, and what the processor and the context do. */
  datatype World = World(
    ctx: Context,
    parsers: Parsers,
    refuses: nat -> bool, // whether the processor refuses its call for the k-th record
    begin: Hook,
    end: Hook)

  /**
   * What becomes of one record of a table: it is converted exactly if each mapped cell, at the position its
   * mapping names, can serve its field; the processor then gets that conversion, under the record's number. A
   * record that is not converted is logged with the first mapping at fault and the reason, one that the processor
   * refuses with a processor error.
   */
  ghost predicate IsImported(p: Parsers, spec: MappingSpec, schema: Schema, columns: seq<string>, record: Cells,
                             number: int, refused: bool, outcome: Outcome) {
    var cells := Fitted(record, |columns|);
    && (outcome.Rejected? <==> !RowFits(p, spec.mappings, schema.fields, cells))
    && (outcome.Accepted? <==> RowFits(p, spec.mappings, schema.fields, cells) && !refused)
    && (outcome.Rejected? ==>
          && outcome.error.row == number && outcome.error.code != InvalidSourceIndex
          && exists j, k :: RejectedAt(p, spec.mappings, schema.fields, cells, outcome.error, j, k))
    && (!outcome.Rejected? ==>
          outcome.row == number && IsNaiveRecord(p, spec.mappings, schema.fields, cells, outcome.record))
    && (outcome.Refused? ==> outcome.Error() == RowError(number, None, None, ProcessorError))
  }

  lemma RecordIsImported(job: Job, spec: MappingSpec, schema: Schema, columns: seq<string>, turn: Turn, record: Cells,
                         j: nat, source: seq<string>)
    requires Compiled(job, spec, schema, columns) && Distinct(columns)
    requires turn.read.Row? && turn.read.row.values == RowMap(columns, record) && turn.read.row.number > 0
    requires MayReadAs(job, turn.read.row, source)
    ensures IsImported(job.parsers, spec, schema, columns, record, turn.read.row.number, turn.processorFails,
                       OutcomeOf(job, turn, j, source))
  {
    hide WellFormed, IsCompiled, RunOps, IsNaiveRecord, RowFits, RejectedAt;
    RoundTrip(columns, record);
    assert source == Fitted(record, |columns|);
    CompilationPreservesMeaning(job.parsers, job.plan, spec, schema, [|columns|], source);
    AdapterRowsHaveEverySource(job, spec, schema, turn, record, j, source);
    OutcomeIs(job, turn, j, source);
    if Converted(job, source).error.Some? {
      RejectionTellsWhy(job.parsers, job.plan, spec, schema, [|columns|], source);
      var e := Converted(job, source).error.value;
      var a, b :| RejectedAt(job.parsers, spec.mappings, schema.fields, source, e, a, b);
      NumberDoesNotMatter(job.parsers, spec.mappings, schema.fields, source, e, a, b, turn.read.row.number);
    }
  }

  lemma NumberDoesNotMatter(p: Parsers, mappings: seq<FieldMapping>, fields: seq<Field>, source: seq<string>,
                            e: RowError, j: int, k: int, number: int)
    requires RejectedAt(p, mappings, fields, source, e, j, k)
    ensures RejectedAt(p, mappings, fields, source, e.(row := number), j, k)
  {
  }

  /** The processor answers as it does; only a context that can be cancelled is. */
  ghost predicate AreAnswers(turns: seq<Turn>, world: World) {
    forall j :: 0 <= j < |turns| ==>
      turns[j].processorFails == world.refuses(j) && (turns[j].cancelledInProcess ==> world.ctx.cancellable)
  }

  /** The loop is fed the rows of a table in order: all of them, unless reading breaks off. */
  ghost predicate Feeds(stream: Stream, rows: seq<SourceRow>, world: World) {
    && stream.begin == world.begin && stream.end == world.end
    && AreAnswers(stream.turns, world) && AreReads(stream.turns, rows)
  }

  ghost predicate AreReads(turns: seq<Turn>, rows: seq<SourceRow>) {
    && (forall j :: 0 <= j < |turns| && turns[j].read.Row? ==> j < |rows| && turns[j].read == Row(rows[j]))
    && ((forall j :: 0 <= j < |turns| ==> turns[j].read.Row?) ==> |turns| == |rows|)
  }

  lemma BrokenReads(turns: seq<Turn>, rows: seq<SourceRow>, turn: Turn)
    requires |turns| <= |rows| && forall j :: 0 <= j < |turns| ==> turns[j].read == Row(rows[j])
    requires turn.read == Broken
    ensures AreReads(turns + [turn], rows)
  {
    assert (turns + [turn])[|turns|] == turn;
  }

  /** The calls of the processor: the hooks it has, around what is called for the rows. */
  function Trace(begin: Hook, end: Hook, outcomes: seq<Outcome>, result: ImportResult,
                 error: Option<ImportError>): seq<Call> {
    (if begin.Hook? then [Begin] else []) + AllCalls(outcomes)
    + (if end.Hook? && (error == None || error == Some(EndFailed)) then [End(result)] else [])
  }

  /**
   * An account of the records of a table: counters, log and calls are those of the records that were read, in
   * order and under their numbers; without error or fail-fast these are all. Only the last of them can have been
   * cut short, by a context that was cancelled while the processor refused it.
   */
  ghost predicate IsAccount(world: World, request: Request, schema: Schema, columns: seq<string>,
                            records: seq<Cells>, h: nat, result: ImportResult, error: Option<ImportError>,
                            calls: seq<Call>, outcomes: seq<Outcome>)
    requires h < |records|
  {
    && result == Account(outcomes) && calls == Trace(world.begin, world.end, outcomes, result, error)
    && |outcomes| <= |records| - h - 1
    && (error == None && !request.failFast ==> |outcomes| == |records| - h - 1)
    && (forall j :: 0 <= j < |outcomes| ==>
          && IsImported(world.parsers, SpecOf(request), schema, columns, records[h + 1 + j], h + 2 + j,
                        world.refuses(j), outcomes[j])
          && (outcomes[j].Interrupted? ==>
                j == |outcomes| - 1 && error == Some(ImportError.ContextError) && world.ctx.cancellable))
  }

  /** Import over a table with distinct headers. */
  lemma {:induction false} TableIsImported(world: World, job: Job, request: Request, schema: Schema,
                                           columns: seq<string>, records: seq<Cells>, h: nat, stream: Stream,
                                           result: ImportResult, error: Option<ImportError>, calls: seq<Call>,
                                           outcomes: seq<Outcome>, sources: seq<seq<string>>)
    requires Compiled(job, SpecOf(request), schema, columns) && Distinct(columns) && h < |records|
    requires job.failFast == request.failFast && job.parsers == world.parsers
    requires Feeds(stream, RowsBelow(columns, records, h), world)
    requires Reports(job, stream, result, error, calls, outcomes, sources)
    ensures IsAccount(world, request, schema, columns, records, h, result, error, calls, outcomes)
  {
    hide OutcomeOf, MayReadAs, IsImported, RowMap, WellFormed, IsCompiled, SoFar, Stopped, Distinct, Account, Trace;
    OutcomesOf(job, stream, result, error, calls, outcomes, sources);
    var rows := RowsBelow(columns, records, h);
    forall j | 0 <= j < |outcomes|
      ensures j < |rows|
      ensures IsImported(job.parsers, SpecOf(request), schema, columns, records[h + 1 + j], h + 2 + j, world.refuses(j),
                         outcomes[j])
    {
      var turn := stream.turns[j];
      assert turn.read == Row(rows[j]);
      assert rows[j] == SourceRow(h + 2 + j, RowMap(columns, records[h + 1 + j]));
      RecordIsImported(job, SpecOf(request), schema, columns, turn, records[h + 1 + j], j, sources[j]);
    }
    CutShortIsLast(world, job, stream, result, error, calls, outcomes, sources);
    if |outcomes| > 0 {
      assert stream.turns[|outcomes| - 1].read.Row?;
    }
    if error == None && !job.failFast {
      CleanRunReadsEverything(job, stream, result, error, calls, outcomes, sources);
      assert forall j :: 0 <= j < |stream.turns| ==> stream.turns[j].read.Row?;
    }
  }

  lemma CutShortIsLast(world: World, job: Job, stream: Stream, result: ImportResult, error: Option<ImportError>,
                       calls: seq<Call>, outcomes: seq<Outcome>, sources: seq<seq<string>>)
    requires job.plan.Valid() && Reports(job, stream, result, error, calls, outcomes, sources)
    requires AreAnswers(stream.turns, world)
    ensures forall j :: 0 <= j < |outcomes| && outcomes[j].Interrupted? ==>
              j == |outcomes| - 1 && error == Some(ImportError.ContextError) && world.ctx.cancellable
  {
    hide OutcomeOf, MayReadAs, Account, Stopped;
    OutcomesAre(job, stream, result, error, calls, outcomes, sources);
    CancellationIs(job, stream, result, error, calls, outcomes, sources);
    forall j | 0 <= j < |outcomes| && outcomes[j].Interrupted?
      ensures j == |outcomes| - 1 && error == Some(ImportError.ContextError) && world.ctx.cancellable
    {
      assert IsCutShort(job, stream.turns[j], sources[j]);
    }
  }

  lemma OutcomesOf(job: Job, stream: Stream, result: ImportResult, error: Option<ImportError>, calls: seq<Call>,
                   outcomes: seq<Outcome>, sources: seq<seq<string>>)
    requires job.plan.Valid() && Reports(job, stream, result, error, calls, outcomes, sources)
    ensures AreOutcomes(job, stream.turns, outcomes, sources) && result == Account(outcomes)
    ensures calls == Trace(stream.begin, stream.end, outcomes, result, error)
  {
    hide OutcomeOf, MayReadAs, Stopped, Account;
    assert [Begin] + [] == [Begin] && [Begin] + [] + [] == [Begin];
  }

  // From the file to the report ------------------------------------------------------

  /** What the caller of an import brings along, besides the file. */
  datatype Setting =
    Setting(world: World, atoi: string -> Option<int>, schemas: map<uint64, Schema>, hasProcessor: bool)

  /** What an import of a table with distinct headers reports. */
  ghost predicate ReportsTable(setting: Setting, request: Request, columns: seq<string>, records: seq<Cells>, h: nat,
                               result: ImportResult, error: Option<ImportError>, calls: seq<Call>)
    requires h < |records|
  {
    && request.schemaID in setting.schemas
    && (Distinct(columns) ==> exists outcomes ::
          IsAccount(setting.world, request, setting.schemas[request.schemaID], columns, records, h, result, error,
                    calls, outcomes))
  }

  /** The import only complained. */
  predicate NothingDone(result: ImportResult, error: Option<ImportError>, calls: seq<Call>) {
    error.Some? && result == ImportResult(0, 0, 0, []) && calls == []
  }

  lemma TableIsReported(setting: Setting, request: Request, env: Environment, stream: Stream, plan: ExecutionPlan,
                        columns: seq<string>, records: seq<Cells>, h: nat,
                        result: ImportResult, error: Option<ImportError>, calls: seq<Call>)
    requires columns != [] && h < |records| && Feeds(stream, RowsBelow(columns, records, h), setting.world)
    requires env.schemas == setting.schemas && env.columns == Some(columns) && Prepared(request, env)
    requires ReportsRequest(setting.world.parsers, setting.atoi, request, env, stream, plan, result, error, calls)
    ensures ReportsTable(setting, request, columns, records, h, result, error, calls)
  {
    hide WellFormed, IsCompiled, Reports, Feeds, IsAccount, Distinct;
    if Distinct(columns) {
      var job := Job(setting.world.parsers, setting.atoi, plan, columns, request.failFast);
      var outcomes, sources :| Reports(job, stream, result, error, calls, outcomes, sources);
      TableIsImported(setting.world, job, request, setting.schemas[request.schemaID], columns, records, h, stream,
                      result, error, calls, outcomes, sources);
    }
  }

  /** One turn, with the poll before it and the processor's answer to it. */
  method NextTurn(setting: Setting, read: Read, j: nat) returns (turn: Turn)
    ensures turn.read == read && turn.processorFails == setting.world.refuses(j)
    ensures turn.cancelledInProcess ==> setting.world.ctx.cancellable
  {
    var cancelled := Cancelled(setting.world.ctx);
    var interrupted := Cancelled(setting.world.ctx);
    turn := Turn(cancelled, read, setting.world.refuses(j), interrupted);
  }

  method StreamOf(setting: Setting, turns: seq<Turn>) returns (stream: Stream)
    ensures stream.turns == turns && stream.begin == setting.world.begin && stream.end == setting.world.end
  {
    var atEnd := Cancelled(setting.world.ctx);
    var after := Cancelled(setting.world.ctx);
    stream := Stream(turns, atEnd, after, setting.world.begin, setting.world.end);
  }

  method FeedCsv(setting: Setting, reader: CsvSource.RowReader) returns (stream: Stream)
    requires reader.Valid() && reader.Delivered() == 0 && !reader.done
    modifies reader
    ensures Feeds(stream, CsvSource.Rows(reader.input), setting.world)
  {
    hide CsvSource.Rows, CsvSource.Reads, CsvSource.Columns, CsvSource.Header, CsvSource.HasHeader, Readable;
    var turns: seq<Turn> := [];
    ghost var rows := CsvSource.Rows(reader.input);
    CsvSource.ReadsAreRows(reader.input);
    while true
      invariant reader.Valid() && !reader.done && reader.Delivered() == |turns| <= |rows|
      invariant forall j :: 0 <= j < |turns| ==> turns[j].read == Row(rows[j])
      invariant AreAnswers(turns, setting.world)
      decreases |rows| - |turns|
    {
      var next := reader.Next();
      if next.Err? && next.error.EndOfFile? { break; }
      var turn := NextTurn(setting, if next.Ok? then Row(next.value) else Broken, |turns|);
      if next.Err? {
        BrokenReads(turns, rows, turn);
        turns := turns + [turn];
        break;
      }
      turns := turns + [turn];
    }
    assert AreReads(turns, rows);
    stream := StreamOf(setting, turns);
  }

  /** Nothing stands in the way of importing a table with these columns. */
  ghost predicate IsReady(setting: Setting, request: Request, opens: bool, columns: seq<string>) {
    && !setting.world.ctx.cancellable && opens && setting.hasProcessor && request.fileID != "" && request.sheet == 0
    && request.schemaID != 0 && request.schemaID in setting.schemas
    && WellFormed(SpecOf(request), setting.schemas[request.schemaID], [|columns|])
  }

  lemma ReadyIsPrepared(setting: Setting, request: Request, env: Environment, columns: seq<string>)
    requires IsReady(setting, request, env.fileOpens, columns) && columns != []
    requires !env.cancelled && env.schemas == setting.schemas && env.hasProcessor == setting.hasProcessor
    requires env.columns == Some(columns) && env.rowsOpen
    ensures Prepared(request, env)
  {
  }

  /**
   * Import of a CSV file. Either nothing is done, or the whole file is well formed and has a header, and the report
   * is the account of the records below it.
   */
  method ImportCsv(setting: Setting, request: Request, opens: bool, input: CsvSource.Input)
    returns (result: ImportResult, error: Option<ImportError>, calls: seq<Call>)
    ensures NothingDone(result, error, calls) ||
            (&& CsvSource.HasHeader(input) && CsvSource.Clean(input)
             && ReportsTable(setting, request, CsvSource.Columns(input), Readable(input.records),
                             CsvSource.Header(input),
                             result, error, calls))
    ensures CsvSource.HasHeader(input) && CsvSource.Clean(input)
            && IsReady(setting, request, opens, CsvSource.Columns(input))
            ==> ReportsTable(setting, request, CsvSource.Columns(input), Readable(input.records),
                             CsvSource.Header(input), result, error, calls)
  {
    hide Prepared, IsFirstComplaint, Feeds, IsAccount, ReportsTable, ReportsRequest, WellFormed;
    hide CsvSource.Columns, Summary, RowsBelow;
    var cancelled := Cancelled(setting.world.ctx);
    var analysis := CsvSource.Analyze(setting.world.ctx, input);
    var columns := if analysis.Ok? && request.sheet == 0 then Some(analysis.value.columns) else None;
    var start := CsvSource.Open(setting.world.ctx, input);
    var env := Environment(cancelled, setting.schemas, setting.hasProcessor, opens, columns, start.Ok?);
    if start.Err? || columns.None? {
      var stream := StreamOf(setting, []);
      Unprepared(request, env);
      result, error, calls := Import.Import(setting.world.parsers, setting.atoi, request, env, stream);
      return;
    }
    var stream := FeedCsv(setting, start.value);
    SummaryColumns(CsvSource.SHEET_NAME, CsvSource.Columns(input), CsvSource.Rows(input));
    CsvColumns(input);
    if IsReady(setting, request, opens, CsvSource.Columns(input)) {
      ReadyIsPrepared(setting, request, env, CsvSource.Columns(input));
    }
    result, error, calls := Import.Import(setting.world.parsers, setting.atoi, request, env, stream);
    if Prepared(request, env) {
      ghost var plan :| ReportsRequest(setting.world.parsers, setting.atoi, request, env, stream, plan, result, error,
                                       calls);
      TableIsReported(setting, request, env, stream, plan, columns.value, Readable(input.records),
                      CsvSource.Header(input),
                      result, error, calls);
    }
  }

  lemma Unprepared(request: Request, env: Environment)
    requires env.columns.None? || !env.rowsOpen
    ensures !Prepared(request, env)
  {
  }

  lemma SummaryColumns(name: string, columns: seq<string>, rows: seq<SourceRow>)
    ensures Summary(name, columns, rows).columns == columns
  {
  }

  /** A header has a cell. */
  lemma CsvColumns(input: CsvSource.Input)
    requires CsvSource.HasHeader(input)
    ensures CsvSource.Columns(input) != []
  {
    var header := Readable(input.records)[CsvSource.Header(input)];
    assert HasValue(header, input.isSpace);
  }

  lemma SheetColumns(book: XlsxSource.Workbook, sheet: XlsxSource.Sheet)
    requires XlsxSource.HasHeader(book, sheet)
    ensures XlsxSource.Columns(book, sheet) != []
  {
    assert HasValue(XlsxSource.Columns(book, sheet), book.isSpace);
  }

  lemma SheetRows(book: XlsxSource.Workbook, sheet: XlsxSource.Sheet)
    requires XlsxSource.HasHeader(book, sheet)
    ensures var records := Readable(sheet.rows);
      XlsxSource.Rows(book, sheet) == RowsBelow(XlsxSource.Columns(book, sheet), records,
                                                HeaderAt(records, book.isSpace))
  {
  }

  method FeedSheet(setting: Setting, reader: XlsxSource.RowReader) returns (stream: Stream)
    requires reader.Valid() && reader.Delivered() == 0 && !reader.closed
    modifies reader
    ensures Feeds(stream, XlsxSource.Rows(reader.book, reader.sheet), setting.world)
  {
    hide XlsxSource.Rows, XlsxSource.Columns, HeaderAt, Readable;
    var turns: seq<Turn> := [];
    ghost var rows := XlsxSource.Rows(reader.book, reader.sheet);
    while true
      invariant reader.Valid() && !reader.closed && reader.Delivered() == |turns| <= |rows|
      invariant forall j :: 0 <= j < |turns| ==> turns[j].read == Row(rows[j])
      invariant AreAnswers(turns, setting.world)
      decreases |rows| - |turns|
    {
      var next := reader.Next();
      if next.Err? && next.error.EndOfFile? { break; }
      var turn := NextTurn(setting, if next.Ok? then Row(next.value) else Broken, |turns|);
      if next.Err? {
        BrokenReads(turns, rows, turn);
        turns := turns + [turn];
        break;
      }
      turns := turns + [turn];
    }
    assert AreReads(turns, rows);
    stream := StreamOf(setting, turns);
  }

  /** The workbook is in order, and nothing stands in the way of importing its first sheet with a header. */
  ghost predicate ReadyFor(setting: Setting, request: Request, opens: bool, book: XlsxSource.Workbook, n: int) {
    && XlsxSource.AllClean(book) && IsStreamed(book, n)
    && IsReady(setting, request, opens, XlsxSource.Columns(book, book.sheets[n]))
  }

  ghost predicate IsStreamed(book: XlsxSource.Workbook, n: int) {
    0 <= n < |book.sheets| && XlsxSource.BlankBefore(book, n) && XlsxSource.HasHeader(book, book.sheets[n])
  }

  lemma OneIsStreamed(book: XlsxSource.Workbook, m: int, n: int)
    requires IsStreamed(book, m) && IsStreamed(book, n)
    ensures m == n && !XlsxSource.BlankBefore(book, |book.sheets|)
  {
  }

  /**
   * Import of a workbook. Either nothing is done, or there is a first sheet with a header; for sheet zero the report
   * is the account of the records below that header.
   */
  method ImportWorkbook(setting: Setting, request: Request, opens: bool, book: XlsxSource.Workbook)
    returns (result: ImportResult, error: Option<ImportError>, calls: seq<Call>)
    ensures NothingDone(result, error, calls) ||
            exists n :: 0 <= n < |book.sheets| && XlsxSource.BlankBefore(book, n)
                && XlsxSource.HasHeader(book, book.sheets[n])
              && (request.sheet == 0 ==>
                    var records := Readable(book.sheets[n].rows);
                    ReportsTable(setting, request, XlsxSource.Columns(book, book.sheets[n]), records,
                                 HeaderAt(records, book.isSpace), result, error, calls))
    ensures forall n :: ReadyFor(setting, request, opens, book, n) ==>
              var records := Readable(book.sheets[n].rows);
              ReportsTable(setting, request, XlsxSource.Columns(book, book.sheets[n]), records,
                           HeaderAt(records, book.isSpace), result, error, calls)
  {
    hide Prepared, IsFirstComplaint, Feeds, IsAccount, ReportsTable, ReportsRequest;
    hide HeaderAt, Readable, XlsxSource.Rows, XlsxSource.Summaries, XlsxSource.BlankBefore, XlsxSource.Clean;
    var cancelled := Cancelled(setting.world.ctx);
    var analysis := XlsxSource.Analyze(setting.world.ctx, book);
    var columns := None;
    if analysis.Ok? && 0 <= request.sheet < |analysis.value| {
      columns := Some(analysis.value[request.sheet].columns);
    }
    var start := XlsxSource.OpenSheet(setting.world.ctx, book);
    var env := Environment(cancelled, setting.schemas, setting.hasProcessor, opens, columns, start.Ok?);
    if start.Err? || columns.None? {
      var stream := StreamOf(setting, []);
      Unprepared(request, env);
      result, error, calls := Import.Import(setting.world.parsers, setting.atoi, request, env, stream);
      forall n ensures !ReadyFor(setting, request, opens, book, n) {
        if IsStreamed(book, n) {
          OneIsStreamed(book, n, n);
          FirstSheetColumns(book, n);
        }
      }
      return;
    }
    var stream := FeedSheet(setting, start.value);
    result, error, calls := Import.Import(setting.world.parsers, setting.atoi, request, env, stream);
    ghost var n :| 0 <= n < |book.sheets| && XlsxSource.BlankBefore(book, n) && start.value.sheet == book.sheets[n];
    SheetColumns(book, book.sheets[n]);
    FirstSheetColumns(book, n);
    if ReadyFor(setting, request, opens, book, n) {
      ReadyIsPrepared(setting, request, env, XlsxSource.Columns(book, book.sheets[n]));
    }
    forall m | ReadyFor(setting, request, opens, book, m) ensures m == n {
      OneIsStreamed(book, m, n);
    }
    if Prepared(request, env) && request.sheet == 0 {
      ghost var sheet := book.sheets[n];
      ghost var plan :| ReportsRequest(setting.world.parsers, setting.atoi, request, env, stream, plan, result, error,
                                       calls);
      SheetRows(book, sheet);
      TableIsReported(setting, request, env, stream, plan, columns.value, Readable(sheet.rows),
                      HeaderAt(Readable(sheet.rows), book.isSpace), result, error, calls);
    }
  }

  /** The columns the import uses for sheet zero are those of the sheet that is streamed. */
  lemma FirstSheetColumns(book: XlsxSource.Workbook, n: nat)
    requires n < |book.sheets| && XlsxSource.BlankBefore(book, n) && XlsxSource.HasHeader(book, book.sheets[n])
    ensures var listed := XlsxSource.Summaries(book, book.sheets);
      listed != [] && listed[0].columns == XlsxSource.Columns(book, book.sheets[n])
  {
    hide XlsxSource.Summaries, XlsxSource.Rows;
    XlsxSource.FirstListedIsStreamed(book, n);
    SummaryColumns(book.sheets[n].name, XlsxSource.Columns(book, book.sheets[n]),
                   XlsxSource.Rows(book, book.sheets[n]));
  }
}
