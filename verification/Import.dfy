/** The import loop: one plan, a stream of rows, a processor with optional hooks, and the final account. */
module Import {
  import opened Prelude
  import opened Schemas
  import opened Validation
  import opened Plan
  import opened SourceRows

  const MAX_ERRORS := 1000

  datatype ImportResult = ImportResult(processed: int, succeeded: int, failed: int, errors: seq<RowError>)

  datatype ImportError =
    | ContextError | ReadFailed | BeginFailed | EndFailed
    | InvalidRequest(code: Code) | MappingRejected(defect: Defect)
    | SchemaUnknown | ProcessorUnavailable | FileUnavailable | ColumnsUnavailable | RowsUnavailable

  /** The calls the processor sees. */
  datatype Call = Begin | Process(row: int, record: Record) | End(result: ImportResult)

  datatype Read = Row(row: SourceRow) | Broken

  /** One turn of the loop: the poll before the read, the read, and how the processor answers. */
  datatype Turn = Turn(cancelled: bool, read: Read, processorFails: bool, cancelledInProcess: bool)

  /** An optional hook: absent, or present and failing or not. */
  datatype Hook = NoHook | Hook(fails: bool)

  /** Everything outside the loop: after the turns the source is exhausted. */
  datatype Stream = Stream(turns: seq<Turn>, cancelledAtEnd: bool, cancelledAfter: bool, begin: Hook, end: Hook)

  datatype Job = Job(parsers: Parsers, atoi: string -> Option<int>, plan: ExecutionPlan, columns: seq<string>,
                     failFast: bool)

  // The account of a stream -----------------------------------------------------

  /** What becomes of a row: it does not convert; the processor refuses it, or is interrupted; or it is accepted. */
  datatype Outcome =
    | Rejected(error: RowError)
    | Refused(row: int, record: Record)
    | Interrupted(row: int, record: Record)
    | Accepted(row: int, record: Record)
  {
    predicate Fails() { Rejected? || Refused? }

    function Error(): RowError
      requires Fails()
    {
      if Rejected? then error else RowError(row, None, None, ProcessorError)
    }

    /** The processor is given exactly the rows that convert. */
    function Calls(): seq<Call> {
      if Rejected? then [] else [Process(row, record)]
    }

    /** No row is read after this one. */
    predicate Stops(failFast: bool) { Interrupted? || (failFast && Fails()) }
  }

  /** What a row may be read as: by the known columns, or in some order of its keys. */
  ghost predicate MayReadAs(job: Job, row: SourceRow, source: seq<string>) {
    if UsesColumns(row.values, job.columns) then source == ReadColumns(row.values, job.columns)
    else exists order :: Enumerates(order, row.values.Keys) && source == ValuesInOrder(job.atoi, row.values, order)
  }

  function RowNumber(row: SourceRow, processed: int): int {
    if row.number > 0 then row.number else processed
  }

  /** What becomes of row j of the stream, read as source. */
  function OutcomeOf(job: Job, turn: Turn, j: nat, source: seq<string>): Outcome
    requires job.plan.Valid() && turn.read.Row?
  {
    var number := RowNumber(turn.read.row, j + 1);
    var executed := RunOps(job.parsers, job.plan.ops, |job.plan.targetFields|, source);
    if executed.error.Some? then Rejected(executed.error.value.(row := number))
    else if !turn.processorFails then Accepted(number, executed.record)
    else if turn.cancelledInProcess then Interrupted(number, executed.record)
    else Refused(number, executed.record)
  }

  /** The outcomes of the rows that were read, in order, and what each was read as. */
  ghost predicate AreOutcomes(job: Job, turns: seq<Turn>, outcomes: seq<Outcome>, sources: seq<seq<string>>)
    requires job.plan.Valid()
  {
    && |outcomes| == |sources| <= |turns|
    && forall j :: 0 <= j < |outcomes| ==>
         && turns[j].read.Row? && !turns[j].cancelled
         && MayReadAs(job, turns[j].read.row, sources[j])
         && outcomes[j] == OutcomeOf(job, turns[j], j, sources[j])
  }

  function Failures(outcomes: seq<Outcome>): seq<RowError> {
    if outcomes == [] then []
    else Failures(Front(outcomes)) + if Last(outcomes).Fails() then [Last(outcomes).Error()] else []
  }

  function Successes(outcomes: seq<Outcome>): nat {
    if outcomes == [] then 0 else Successes(Front(outcomes)) + if Last(outcomes).Accepted? then 1 else 0
  }

  function AllCalls(outcomes: seq<Outcome>): seq<Call> {
    if outcomes == [] then [] else AllCalls(Front(outcomes)) + Last(outcomes).Calls()
  }

  function Cut(errors: seq<RowError>): seq<RowError> {
    if |errors| <= MAX_ERRORS then errors else errors[..MAX_ERRORS]
  }

  /** The counters and the error log for some outcomes: every row counted, the first failures logged. */
  function Account(outcomes: seq<Outcome>): ImportResult {
    ImportResult(|outcomes|, Successes(outcomes), |Failures(outcomes)|, Cut(Failures(outcomes)))
  }

  function Begun(stream: Stream): seq<Call> {
    if stream.begin.Hook? then [Begin] else []
  }

  /** Where the loop stands after some rows: only the last of them may stop it. */
  ghost predicate SoFar(job: Job, stream: Stream, outcomes: seq<Outcome>, sources: seq<seq<string>>,
                        result: ImportResult, calls: seq<Call>)
    requires job.plan.Valid()
  {
    && AreOutcomes(job, stream.turns, outcomes, sources)
    && result == Account(outcomes)
    && calls == Begun(stream) + AllCalls(outcomes)
    && (forall j :: 0 <= j < |outcomes| - 1 ==> !outcomes[j].Stops(job.failFast))
  }

  /** The loop was left normally: a last poll, then the end hook. */
  predicate Ended(stream: Stream, error: Option<ImportError>) {
    if stream.cancelledAfter then error == Some(ContextError)
    else error == if stream.end.Hook? && stream.end.fails then Some(EndFailed) else None
  }

  /** Why no further row was read. */
  ghost predicate Stopped(job: Job, stream: Stream, outcomes: seq<Outcome>, error: Option<ImportError>) {
    var n := |outcomes|;
    if n > 0 && Last(outcomes).Stops(job.failFast) then
      if Last(outcomes).Interrupted? then error == Some(ContextError) else Ended(stream, error)
    else if n < |stream.turns| then
      if stream.turns[n].cancelled then error == Some(ContextError)
      else stream.turns[n].read.Broken? && error == Some(ReadFailed)
    else if stream.cancelledAtEnd then error == Some(ContextError)
    else Ended(stream, error)
  }

  /** The end hook is called exactly when the loop was left normally. */
  predicate CallsEnd(stream: Stream, error: Option<ImportError>) {
    stream.end.Hook? && (error == None || error == Some(EndFailed))
  }

  /** The whole report: counters, log, calls and reason to stop follow from the outcomes of the rows read. */
  ghost predicate Reports(job: Job, stream: Stream, result: ImportResult, error: Option<ImportError>, calls: seq<Call>,
                          outcomes: seq<Outcome>, sources: seq<seq<string>>)
    requires job.plan.Valid()
  {
    if stream.begin.Hook? && stream.begin.fails then
      outcomes == [] && sources == [] && result == Account([]) && error == Some(BeginFailed) && calls == [Begin]
    else
      && (exists before ::
            && SoFar(job, stream, outcomes, sources, result, before)
            && calls == before + if CallsEnd(stream, error) then [End(result)] else [])
      && Stopped(job, stream, outcomes, error)
  }

  // The loop ----------------------------------------------------------------------

  /** The log of some failures becomes the log of these and one more. */
  method AppendError(result: ImportResult, e: RowError) returns (r: ImportResult)
    ensures forall failures :: result.errors == Cut(failures) ==> r.errors == Cut(failures + [e])
    ensures r == result.(errors := if |result.errors| < MAX_ERRORS then result.errors + [e] else result.errors)
  {
    forall failures | |failures| >= MAX_ERRORS ensures Cut(failures + [e]) == Cut(failures) {
      assert (failures + [e])[..MAX_ERRORS] == failures[..MAX_ERRORS];
    }
    r := result;
    if |r.errors| < MAX_ERRORS {
      r := r.(errors := r.errors + [e]);
    }
  }

  /** One more row on the account. */
  function Add(result: ImportResult, outcome: Outcome): ImportResult {
    ImportResult(result.processed + 1,
                 result.succeeded + (if outcome.Accepted? then 1 else 0),
                 result.failed + (if outcome.Fails() then 1 else 0),
                 if outcome.Fails() && |result.errors| < MAX_ERRORS then result.errors + [outcome.Error()]
                 else result.errors)
  }

  lemma AccountAdds(outcomes: seq<Outcome>, outcome: Outcome)
    ensures Account(outcomes + [outcome]) == Add(Account(outcomes), outcome)
    ensures AllCalls(outcomes + [outcome]) == AllCalls(outcomes) + outcome.Calls()
  {
    assert Front(outcomes + [outcome]) == outcomes;
    var before := Failures(outcomes);
    if outcome.Fails() {
      assert Failures(outcomes + [outcome]) == before + [outcome.Error()];
      assert |before| >= MAX_ERRORS ==> (before + [outcome.Error()])[..MAX_ERRORS] == before[..MAX_ERRORS];
    } else {
      assert Failures(outcomes + [outcome]) == before + [];
    }
  }

  lemma {:induction false} OneMoreRow(job: Job, stream: Stream, outcomes: seq<Outcome>, sources: seq<seq<string>>,
                   result: ImportResult, calls: seq<Call>, source: seq<string>)
    requires job.plan.Valid() && SoFar(job, stream, outcomes, sources, result, calls)
    requires outcomes != [] ==> !Last(outcomes).Stops(job.failFast)
    requires |outcomes| < |stream.turns|
    requires var turn := stream.turns[|outcomes|];
      turn.read.Row? && !turn.cancelled && MayReadAs(job, turn.read.row, source)
    ensures var outcome := OutcomeOf(job, stream.turns[|outcomes|], |outcomes|, source);
      SoFar(job, stream, outcomes + [outcome], sources + [source], Add(result, outcome), calls + outcome.Calls())
  {
    hide OutcomeOf, MayReadAs, Account, Add;
    AccountAdds(outcomes, OutcomeOf(job, stream.turns[|outcomes|], |outcomes|, source));
  }

  /** One turn of the loop once its row is there: the new result, the calls made, and whether the loop goes on. */
  method ServeRow(job: Job, turn: Turn, j: nat, result: ImportResult, calls: seq<Call>)
    returns (result': ImportResult, calls': seq<Call>, outcome: Outcome, source: seq<string>)
    requires job.plan.Valid() && turn.read.Row? && result.processed == j
    ensures MayReadAs(job, turn.read.row, source)
    ensures outcome == OutcomeOf(job, turn, j, source)
    ensures result' == Add(result, outcome) && calls' == calls + outcome.Calls()
  {
    hide MayReadAs;
    var row := turn.read.row;
    result', calls' := result.(processed := result.processed + 1), calls;
    var rowNumber := row.number;
    if rowNumber <= 0 {
      rowNumber := result'.processed;
    }
    var executed;
    source, executed := ReadAndExecute(job, row);
    if executed.error.Some? {
      outcome := Rejected(executed.error.value.(row := rowNumber));
      result' := result'.(failed := result'.failed + 1);
      result' := AppendError(result', outcome.error);
      return;
    }
    calls' := calls' + [Process(rowNumber, executed.record)];
    if turn.processorFails {
      if turn.cancelledInProcess {
        outcome := Interrupted(rowNumber, executed.record);
        return;
      }
      outcome := Refused(rowNumber, executed.record);
      result' := result'.(failed := result'.failed + 1);
      result' := AppendError(result', RowError(rowNumber, None, None, ProcessorError));
      return;
    }
    outcome := Accepted(rowNumber, executed.record);
    result' := result'.(succeeded := result'.succeeded + 1);
  }

  method ReadAndExecute(job: Job, row: SourceRow) returns (source: seq<string>, executed: Executed)
    requires job.plan.Valid()
    ensures MayReadAs(job, row, source)
    ensures executed == RunOps(job.parsers, job.plan.ops, |job.plan.targetFields|, source)
  {
    source := SourceValuesWithColumns(job.atoi, row, job.columns);
    executed := Execute(job.parsers, job.plan, source);
  }

  /** Import from BeginImport on. */
  method ImportRows(job: Job, stream: Stream)
    returns (result: ImportResult, error: Option<ImportError>, calls: seq<Call>)
    requires job.plan.Valid()
    ensures exists outcomes, sources :: Reports(job, stream, result, error, calls, outcomes, sources)
  {
    hide OutcomeOf, MayReadAs, Account, Add, SoFar;
    result, error, calls := ImportResult(0, 0, 0, []), None, [];
    ghost var outcomes: seq<Outcome>, sources: seq<seq<string>> := [], [];
    NothingYet(job, stream);
    if stream.begin.Hook? {
      calls := calls + [Begin];
      if stream.begin.fails {
        error := Some(BeginFailed);
        assert Reports(job, stream, result, error, calls, outcomes, sources);
        return;
      }
    }
    assert calls == Begun(stream);
    var k := 0;
    while true
      invariant k == |outcomes| <= |stream.turns| && result.processed == k
      invariant SoFar(job, stream, outcomes, sources, result, calls)
      invariant k > 0 ==> !Last(outcomes).Stops(job.failFast)
      invariant error == None
      decreases |stream.turns| - k
    {
      if k == |stream.turns| {
        if stream.cancelledAtEnd { error := Some(ContextError); }
        break;
      }
      var turn := stream.turns[k];
      if turn.cancelled { error := Some(ContextError); break; }
      if turn.read.Broken? { error := Some(ReadFailed); break; }
      var result', calls', outcome, source := ServeRow(job, turn, k, result, calls);
      OneMoreRow(job, stream, outcomes, sources, result, calls, source);
      AddCounts(result, outcome);
      result, calls, outcomes, sources := result', calls', outcomes + [outcome], sources + [source];
      k := k + 1;
      if outcome.Interrupted? { error := Some(ContextError); break; }
      if outcome.Fails() && job.failFast { break; }
    }
    ghost var before := calls;
    if error.Some? {
      assert calls == before + [];
      assert Reports(job, stream, result, error, calls, outcomes, sources);
      return;
    }
    if stream.cancelledAfter {
      error := Some(ContextError);
      assert calls == before + [];
      assert Reports(job, stream, result, error, calls, outcomes, sources);
      return;
    }
    if stream.end.Hook? {
      calls := calls + [End(result)];
      if stream.end.fails {
        error := Some(EndFailed);
      }
    } else {
      assert calls == before + [];
    }
    assert Reports(job, stream, result, error, calls, outcomes, sources);
  }

  lemma AddCounts(result: ImportResult, outcome: Outcome)
    ensures Add(result, outcome).processed == result.processed + 1
  {
  }

  lemma NothingYet(job: Job, stream: Stream)
    requires job.plan.Valid()
    ensures Account([]) == ImportResult(0, 0, 0, [])
    ensures SoFar(job, stream, [], [], Account([]), Begun(stream))
  {
    assert Begun(stream) + [] == Begun(stream);
  }

  // What the account says ------------------------------------------------------------

  lemma {:induction false} Counts(outcomes: seq<Outcome>)
    requires forall j :: 0 <= j < |outcomes| - 1 ==> !outcomes[j].Interrupted?
    ensures |outcomes| == Successes(outcomes) + |Failures(outcomes)|
                        + if outcomes != [] && Last(outcomes).Interrupted? then 1 else 0
  {
    if outcomes != [] {
      Counts(Front(outcomes));
    }
  }

  lemma {:induction false} NoFailures(outcomes: seq<Outcome>)
    requires forall j :: 0 <= j < |outcomes| ==> !outcomes[j].Fails()
    ensures Failures(outcomes) == []
  {
    if outcomes != [] {
      NoFailures(Front(outcomes));
    }
  }

  /** Every row that was read is accounted for; only an interrupted one is neither a success nor a failure. */
  lemma EveryRowIsCounted(job: Job, stream: Stream, result: ImportResult, error: Option<ImportError>, calls: seq<Call>,
                          outcomes: seq<Outcome>, sources: seq<seq<string>>)
    requires job.plan.Valid() && Reports(job, stream, result, error, calls, outcomes, sources)
    ensures result.processed == |outcomes| == result.succeeded + result.failed
              + if outcomes != [] && Last(outcomes).Interrupted? then 1 else 0
    ensures outcomes != [] && Last(outcomes).Interrupted? ==> error == Some(ContextError)
    ensures result.errors == Cut(Failures(outcomes)) && result.failed == |Failures(outcomes)|
    ensures error == None ==> result.processed == result.succeeded + result.failed
  {
    hide OutcomeOf, MayReadAs;
    Counts(outcomes);
  }

  /** With fail-fast there is at most one failure, it is the last row, and no later row is read. */
  lemma FailFastStops(job: Job, stream: Stream, result: ImportResult, error: Option<ImportError>, calls: seq<Call>,
                      outcomes: seq<Outcome>, sources: seq<seq<string>>)
    requires job.plan.Valid() && job.failFast && Reports(job, stream, result, error, calls, outcomes, sources)
    ensures result.failed <= 1
    ensures result.failed == 1 <==> outcomes != [] && Last(outcomes).Fails()
    ensures result.failed == 1 ==> result.errors == [Last(outcomes).Error()]
  {
    hide OutcomeOf, MayReadAs;
    if outcomes != [] {
      NoFailures(Front(outcomes));
    }
  }

  /**
   * Without fail-fast, cancellation or a broken source, every row of the stream is read and the end hook sees
   * the result.
   */
  lemma CleanRunReadsEverything(job: Job, stream: Stream, result: ImportResult, error: Option<ImportError>,
                                calls: seq<Call>,
                                outcomes: seq<Outcome>, sources: seq<seq<string>>)
    requires job.plan.Valid() && !job.failFast && Reports(job, stream, result, error, calls, outcomes, sources)
    requires error == None
    ensures |outcomes| == |stream.turns|
    ensures calls == Begun(stream) + AllCalls(outcomes) + if stream.end.Hook? then [End(result)] else []
  {
    hide OutcomeOf, MayReadAs;
  }

  /** The rows of an adapter, read with its own header, always have the sources the mapping was validated for. */
  lemma AdapterRowsHaveEverySource(job: Job, spec: MappingSpec, schema: Schema, turn: Turn, record: seq<string>,
                                   j: nat, source: seq<string>)
    requires job.columns != [] && WellFormed(spec, schema, [|job.columns|])
    requires job.plan.Valid() && IsCompiled(job.plan, spec, schema)
    requires turn.read.Row? && turn.read.row.values == RowMap(job.columns, record)
    requires MayReadAs(job, turn.read.row, source)
    ensures var outcome := OutcomeOf(job, turn, j, source);
      outcome.Rejected? ==> outcome.error.code != InvalidSourceIndex
  {
    RoundTrip(job.columns, record);
    assert |source| == |job.columns|;
    ValidatedSourcesArePresent(job.parsers, job.plan, spec, schema, source);
  }

  // Before the rows ------------------------------------------------------------------

  datatype Request = Request(fileID: string, schemaID: uint64, sheet: int, mappings: seq<FieldMapping>, failFast: bool)

  /** What the registry, the file store and the source adapter answer. */
  datatype Environment = Environment(
    cancelled: bool,
    schemas: map<uint64, Schema>,
    hasProcessor: bool,
    fileOpens: bool,
    columns: Option<seq<string>>,
    rowsOpen: bool)

  function SpecOf(request: Request): MappingSpec {
    MappingSpec(request.schemaID, request.mappings)
  }

  /** The source width, when the columns are known. */
  function Width(columns: seq<string>): seq<int> {
    if columns == [] then [] else [|columns|]
  }

  /** Everything the import needs is there, and the mapping is one that compiles. */
  ghost predicate Prepared(request: Request, env: Environment) {
    && !env.cancelled && request.fileID != "" && request.schemaID != 0 && request.sheet >= 0
    && request.schemaID in env.schemas && env.hasProcessor && env.fileOpens && env.columns.Some? && env.rowsOpen
    && WellFormed(SpecOf(request), env.schemas[request.schemaID], Width(env.columns.value))
  }

  /** What an import makes sure of before it reads rows, in this order. */
  datatype Need = LiveContext | FileID | SchemaID | SchemaKnown | Processor | File | Sheet | Columns | Rows

  const NEEDS := [LiveContext, FileID, SchemaID, SchemaKnown, Processor, File, Sheet, Columns, Rows]

  predicate Met(need: Need, request: Request, env: Environment) {
    match need
    case LiveContext => !env.cancelled
    case FileID => request.fileID != ""
    case SchemaID => request.schemaID != 0
    case SchemaKnown => request.schemaID in env.schemas
    case Processor => env.hasProcessor
    case File => env.fileOpens
    case Sheet => request.sheet >= 0
    case Columns => env.columns.Some?
    case Rows => env.rowsOpen
  }

  /** The error for a need that is not met. */
  function Complaint(need: Need): ImportError {
    match need
    case LiveContext => ContextError
    case FileID => InvalidRequest(InvalidMapping)
    case SchemaID => InvalidRequest(InvalidMapping)
    case SchemaKnown => SchemaUnknown
    case Processor => ProcessorUnavailable
    case File => FileUnavailable
    case Sheet => InvalidRequest(InvalidMapping)
    case Columns => ColumnsUnavailable
    case Rows => RowsUnavailable
  }

  /** The first n needs are met. */
  ghost predicate MeetsFirst(n: nat, request: Request, env: Environment) {
    forall k :: 0 <= k < n && k < |NEEDS| ==> Met(NEEDS[k], request, env)
  }

  /** The error tells the first need that is not met, or, with all met, the first defect of the mapping. */
  ghost predicate IsFirstComplaint(request: Request, env: Environment, error: ImportError) {
    || (exists n :: 0 <= n < |NEEDS| && MeetsFirst(n, request, env) && !Met(NEEDS[n], request, env)
                    && error == Complaint(NEEDS[n]))
    || (&& MeetsFirst(|NEEDS|, request, env) && error.MappingRejected?
        && request.schemaID in env.schemas && env.columns.Some?
        && IsFirstDefect(SpecOf(request), env.schemas[request.schemaID], Width(env.columns.value), error.defect))
  }

  lemma Complains(request: Request, env: Environment, n: nat)
    requires n < |NEEDS| && !Met(NEEDS[n], request, env)
    requires forall k :: 0 <= k < n ==> Met(NEEDS[k], request, env)
    ensures IsFirstComplaint(request, env, Complaint(NEEDS[n])) && !Prepared(request, env)
  {
    hide WellFormed;
    assert MeetsFirst(n, request, env);
  }

  lemma MappingComplains(request: Request, env: Environment, defect: Defect)
    requires forall k :: 0 <= k < |NEEDS| ==> Met(NEEDS[k], request, env)
    requires request.schemaID in env.schemas && env.columns.Some?
    requires IsFirstDefect(SpecOf(request), env.schemas[request.schemaID], Width(env.columns.value), defect)
    ensures IsFirstComplaint(request, env, MappingRejected(defect))
  {
    hide IsFirstDefect;
  }

  /** An import is prepared exactly if every need is met and the mapping is well formed. */
  lemma PreparedMeetsAll(request: Request, env: Environment)
    ensures Prepared(request, env) <==>
            && MeetsFirst(|NEEDS|, request, env) && request.schemaID in env.schemas && env.columns.Some?
            && WellFormed(SpecOf(request), env.schemas[request.schemaID], Width(env.columns.value))
  {
    hide WellFormed;
    if MeetsFirst(|NEEDS|, request, env) {
      assert forall k :: 0 <= k < 9 ==> Met(NEEDS[k], request, env);
      assert Met(NEEDS[0], request, env) && Met(NEEDS[1], request, env) && Met(NEEDS[2], request, env)
          && Met(NEEDS[3], request, env) && Met(NEEDS[4], request, env) && Met(NEEDS[5], request, env)
          && Met(NEEDS[6], request, env) && Met(NEEDS[7], request, env) && Met(NEEDS[8], request, env);
    }
  }

  /** A report of an import of the request, by the plan its mapping compiles to. */
  ghost predicate ReportsRequest(parsers: Parsers, atoi: string -> Option<int>, request: Request, env: Environment,
                                 stream: Stream, plan: ExecutionPlan, result: ImportResult,
                                 error: Option<ImportError>, calls: seq<Call>)
    requires Prepared(request, env)
  {
    && plan.Valid() && IsCompiled(plan, SpecOf(request), env.schemas[request.schemaID])
    && exists outcomes, sources ::
         Reports(Job(parsers, atoi, plan, env.columns.value, request.failFast), stream, result, error, calls, outcomes,
                 sources)
  }

  method Import(parsers: Parsers, atoi: string -> Option<int>, request: Request, env: Environment, stream: Stream)
    returns (result: ImportResult, error: Option<ImportError>, calls: seq<Call>)
    ensures !Prepared(request, env) ==>
              && error.Some? && IsFirstComplaint(request, env, error.value)
              && result == ImportResult(0, 0, 0, []) && calls == []
    ensures Prepared(request, env) ==>
              exists plan :: ReportsRequest(parsers, atoi, request, env, stream, plan, result, error, calls)
  {
    hide WellFormed, IsCompiled, Reports, Prepared, IsFirstComplaint;
    result, error, calls := ImportResult(0, 0, 0, []), None, [];
    if env.cancelled { Complains(request, env, 0); error := Some(ContextError); return; }
    if request.fileID == "" { Complains(request, env, 1); error := Some(InvalidRequest(InvalidMapping)); return; }
    if request.schemaID == 0 { Complains(request, env, 2); error := Some(InvalidRequest(InvalidMapping)); return; }
    if request.schemaID !in env.schemas { Complains(request, env, 3); error := Some(SchemaUnknown); return; }
    var schema := env.schemas[request.schemaID];
    if !env.hasProcessor { Complains(request, env, 4); error := Some(ProcessorUnavailable); return; }
    if !env.fileOpens { Complains(request, env, 5); error := Some(FileUnavailable); return; }
    if request.sheet < 0 { Complains(request, env, 6); error := Some(InvalidRequest(InvalidMapping)); return; }
    if env.columns.None? { Complains(request, env, 7); error := Some(ColumnsUnavailable); return; }
    var columns := env.columns.value;
    if !env.rowsOpen { Complains(request, env, 8); error := Some(RowsUnavailable); return; }
    PreparedMeetsAll(request, env);
    var compiled := CompilePlan(SpecOf(request), schema, Width(columns));
    if compiled.Err? {
      error := Some(MappingRejected(compiled.error));
      MappingComplains(request, env, compiled.error);
      return;
    }
    var j := Job(parsers, atoi, compiled.value, columns, request.failFast);
    result, error, calls := ImportRows(j, stream);
    assert ReportsRequest(parsers, atoi, request, env, stream, compiled.value, result, error, calls);
  }
}
