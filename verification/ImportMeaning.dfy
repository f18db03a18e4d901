/** What a report says of each row and of the whole stream, spelled out in the stream alone. */
module ImportMeaning {
  import opened Prelude
  import opened Schemas
  import opened Validation
  import opened Plan
  import opened SourceRows
  import opened Import

  /** What running the plan on the row gives. */
  function Converted(job: Job, source: seq<string>): Executed
    requires job.plan.Valid()
  {
    RunOps(job.parsers, job.plan.ops, |job.plan.targetFields|, source)
  }

  /** Row j converts, its Process call fails, and the context is cancelled then. */
  ghost predicate IsCutShort(job: Job, turn: Turn, source: seq<string>)
    requires job.plan.Valid()
  {
    Converted(job, source).error.None? && turn.processorFails && turn.cancelledInProcess
  }

  /** Row j does not convert, or its Process call fails without the context being cancelled. */
  ghost predicate IsFailure(job: Job, turn: Turn, source: seq<string>)
    requires job.plan.Valid()
  {
    Converted(job, source).error.Some? || (turn.processorFails && !turn.cancelledInProcess)
  }

  /** Row j converts, and its Process call succeeds. */
  ghost predicate IsSuccess(job: Job, turn: Turn, source: seq<string>)
    requires job.plan.Valid()
  {
    Converted(job, source).error.None? && !turn.processorFails
  }

  /** The number a row goes by: its own, or its place in the stream. */
  function NumberOf(turn: Turn, j: nat): int
    requires turn.read.Row?
  {
    if turn.read.row.number > 0 then turn.read.row.number else j + 1
  }

  /** The error a failing row is logged with: that of its conversion, or a processor error, under its own number. */
  function ErrorOf(job: Job, turn: Turn, j: nat, source: seq<string>): RowError
    requires job.plan.Valid() && turn.read.Row?
  {
    if Converted(job, source).error.Some? then Converted(job, source).error.value.(row := NumberOf(turn, j))
    else RowError(NumberOf(turn, j), None, None, ProcessorError)
  }

  /** What becomes of row j. */
  lemma OutcomeIs(job: Job, turn: Turn, j: nat, source: seq<string>)
    requires job.plan.Valid() && turn.read.Row?
    ensures var o := OutcomeOf(job, turn, j, source);
      && (o.Interrupted? <==> IsCutShort(job, turn, source))
      && (o.Fails() <==> IsFailure(job, turn, source))
      && (o.Accepted? <==> IsSuccess(job, turn, source))
      && (o.Fails() ==> o.Error() == ErrorOf(job, turn, j, source))
      && o.Calls() == (if Converted(job, source).error.None?
                       then [Process(NumberOf(turn, j), Converted(job, source).record)] else [])
      && (forall failFast :: o.Stops(failFast) <==>
            IsCutShort(job, turn, source) || (failFast && IsFailure(job, turn, source)))
  {
  }

  /** The places of the failures, in order. */
  function FailingPlaces(outcomes: seq<Outcome>): (at: seq<nat>)
    ensures |at| == |Failures(outcomes)|
    ensures forall m :: 0 <= m < |at| ==> at[m] < |outcomes|
  {
    if outcomes == [] then []
    else FailingPlaces(Front(outcomes)) + if Last(outcomes).Fails() then [|outcomes| - 1] else []
  }

  lemma {:induction false} FailingPlacesAre(outcomes: seq<Outcome>)
    ensures var at := FailingPlaces(outcomes);
      && (forall m, n :: 0 <= m < n < |at| ==> at[m] < at[n])
      && (forall j: nat :: j in at <==> j < |outcomes| && outcomes[j].Fails())
  {
    if outcomes != [] {
      FailingPlacesAre(Front(outcomes));
      var before := FailingPlaces(Front(outcomes));
      assert forall m :: 0 <= m < |before| ==> before[m] in before;
    }
  }

  lemma {:induction false} FailuresAtPlaces(outcomes: seq<Outcome>, m: nat)
    requires m < |Failures(outcomes)|
    ensures outcomes[FailingPlaces(outcomes)[m]].Fails()
    ensures Failures(outcomes)[m] == outcomes[FailingPlaces(outcomes)[m]].Error()
  {
    if m < |Failures(Front(outcomes))| {
      FailuresAtPlaces(Front(outcomes), m);
    }
  }

  /** The places of the successes, in order. */
  function SucceedingPlaces(outcomes: seq<Outcome>): (at: seq<nat>)
    ensures |at| == Successes(outcomes)
    ensures forall m :: 0 <= m < |at| ==> at[m] < |outcomes|
  {
    if outcomes == [] then []
    else SucceedingPlaces(Front(outcomes)) + if Last(outcomes).Accepted? then [|outcomes| - 1] else []
  }

  lemma {:induction false} SucceedingPlacesAre(outcomes: seq<Outcome>)
    ensures var at := SucceedingPlaces(outcomes);
      && (forall m, n :: 0 <= m < n < |at| ==> at[m] < at[n])
      && (forall j: nat :: j in at <==> j < |outcomes| && outcomes[j].Accepted?)
  {
    if outcomes != [] {
      SucceedingPlacesAre(Front(outcomes));
      var before := SucceedingPlaces(Front(outcomes));
      assert forall m :: 0 <= m < |before| ==> before[m] in before;
    }
  }

  /** The rows at these places, and no others, are as they should be; the places ascend. */
  ghost predicate Picks(at: seq<nat>, n: nat, chosen: nat -> bool) {
    && (forall k, l :: 0 <= k < l < |at| ==> at[k] < at[l])
    && (forall j: nat :: j in at <==> j < n && chosen(j))
  }

  /**
   * The counters and the log, row by row of the stream: succeeded counts the rows that convert and are processed,
   * failed those that do not convert or are refused without cancellation; the log is the first thousand of these.
   */
  lemma {:induction false} CountersAre(job: Job, stream: Stream, result: ImportResult, error: Option<ImportError>,
                                       calls: seq<Call>, outcomes: seq<Outcome>, sources: seq<seq<string>>)
    returns (succeeded: seq<nat>, failed: seq<nat>)
    requires job.plan.Valid() && Reports(job, stream, result, error, calls, outcomes, sources)
    ensures result.processed == |sources| <= |stream.turns|
    ensures forall j :: 0 <= j < |sources| ==> stream.turns[j].read.Row?
    ensures |succeeded| == result.succeeded && |failed| == result.failed
    ensures Picks(succeeded, |sources|, j =>
              0 <= j < |sources| <= |stream.turns| && IsSuccess(job, stream.turns[j], sources[j]))
    ensures Picks(failed, |sources|, j =>
              0 <= j < |sources| <= |stream.turns| && IsFailure(job, stream.turns[j], sources[j]))
    ensures |result.errors| == if |failed| <= 1000 then |failed| else 1000
    ensures forall m :: 0 <= m < |result.errors| ==>
              && failed[m] < |sources|
              && result.errors[m] == ErrorOf(job, stream.turns[failed[m]], failed[m], sources[failed[m]])
  {
    hide OutcomeOf, Reports, IsCutShort, IsSuccess, IsFailure, ErrorOf, ExecutionPlan.Valid;
    succeeded, failed := SucceedingPlaces(outcomes), FailingPlaces(outcomes);
    SucceedingPlacesAre(outcomes);
    FailingPlacesAre(outcomes);
    OutcomesAre(job, stream, result, error, calls, outcomes, sources);
    forall m | 0 <= m < |result.errors|
      ensures failed[m] < |sources|
      ensures result.errors[m] == ErrorOf(job, stream.turns[failed[m]], failed[m], sources[failed[m]])
    {
      FailuresAtPlaces(outcomes, m);
    }
  }

  lemma OutcomesAre(job: Job, stream: Stream, result: ImportResult, error: Option<ImportError>,
                    calls: seq<Call>, outcomes: seq<Outcome>, sources: seq<seq<string>>)
    requires job.plan.Valid() && Reports(job, stream, result, error, calls, outcomes, sources)
    ensures |outcomes| == |sources| <= |stream.turns| && result == Account(outcomes)
    ensures forall j :: 0 <= j < |outcomes| ==>
              var turn := stream.turns[j];
              && turn.read.Row?
              && (outcomes[j].Interrupted? <==> IsCutShort(job, turn, sources[j]))
              && (outcomes[j].Fails() <==> IsFailure(job, turn, sources[j]))
              && (outcomes[j].Accepted? <==> IsSuccess(job, turn, sources[j]))
              && (outcomes[j].Fails() ==> outcomes[j].Error() == ErrorOf(job, turn, j, sources[j]))
  {
    hide OutcomeOf, MayReadAs, Stopped, IsSuccess, IsFailure, ErrorOf, IsCutShort;
    forall j | 0 <= j < |outcomes|
      ensures outcomes[j] == OutcomeOf(job, stream.turns[j], j, sources[j]) && stream.turns[j].read.Row?
    {
    }
    forall j | 0 <= j < |outcomes|
      ensures var turn := stream.turns[j];
        && (outcomes[j].Interrupted? <==> IsCutShort(job, turn, sources[j]))
        && (outcomes[j].Fails() <==> IsFailure(job, turn, sources[j]))
        && (outcomes[j].Accepted? <==> IsSuccess(job, turn, sources[j]))
        && (outcomes[j].Fails() ==> outcomes[j].Error() == ErrorOf(job, turn, j, sources[j]))
    {
      OutcomeIs(job, stream.turns[j], j, sources[j]);
    }
  }

  /**
   * The import ends in a row with a context error, and that row is neither a success nor a failure, exactly if the
   * row converts, its Process call fails and the context is cancelled then; no row before it was cut short.
   */
  lemma {:induction false} CancellationIs(job: Job, stream: Stream, result: ImportResult, error: Option<ImportError>,
                                          calls: seq<Call>, outcomes: seq<Outcome>, sources: seq<seq<string>>)
    requires job.plan.Valid() && Reports(job, stream, result, error, calls, outcomes, sources)
    ensures |sources| <= |stream.turns| && forall j :: 0 <= j < |sources| ==> stream.turns[j].read.Row?
    ensures forall j :: 0 <= j < |sources| && IsCutShort(job, stream.turns[j], sources[j]) ==> j == |sources| - 1
    ensures var cut := sources != [] && IsCutShort(job, stream.turns[|sources| - 1], sources[|sources| - 1]);
      && result.processed == result.succeeded + result.failed + (if cut then 1 else 0)
      && (cut ==> error == Some(ContextError))
  {
    hide OutcomeOf, MayReadAs, IsSuccess, IsFailure, ErrorOf, IsCutShort;
    OutcomesAre(job, stream, result, error, calls, outcomes, sources);
    EveryRowIsCounted(job, stream, result, error, calls, outcomes, sources);
    forall j | 0 <= j < |outcomes| - 1 ensures !outcomes[j].Interrupted? {
      assert !outcomes[j].Stops(job.failFast);
    }
  }

  /** No further row is read after this one. */
  ghost predicate IsLast(job: Job, stream: Stream, sources: seq<seq<string>>)
    requires job.plan.Valid()
  {
    && 0 < |sources| <= |stream.turns|
    && (IsCutShort(job, stream.turns[|sources| - 1], sources[|sources| - 1])
        || (job.failFast && IsFailure(job, stream.turns[|sources| - 1], sources[|sources| - 1])))
  }

  /** The loop was left without an error: by a failure with fail-fast, or at the end of the rows. */
  ghost predicate IsLeft(job: Job, stream: Stream, sources: seq<seq<string>>)
    requires job.plan.Valid()
  {
    if IsLast(job, stream, sources) then !IsCutShort(job, stream.turns[|sources| - 1], sources[|sources| - 1])
    else |sources| == |stream.turns| && !stream.cancelledAtEnd
  }

  /** The error of an import, and whether it calls the end hook, from the stream alone. */
  lemma {:induction false} ErrorsAre(job: Job, stream: Stream, result: ImportResult, error: Option<ImportError>,
                                     calls: seq<Call>, outcomes: seq<Outcome>, sources: seq<seq<string>>)
    requires job.plan.Valid() && Reports(job, stream, result, error, calls, outcomes, sources)
    ensures var n := |sources|;
      if stream.begin.Hook? && stream.begin.fails then error == Some(BeginFailed) && n == 0 && calls == [Begin]
      else if IsLeft(job, stream, sources) && !stream.cancelledAfter then
        && error == (if stream.end.Hook? && stream.end.fails then Some(EndFailed) else None)
        && (stream.end.Hook? ==> calls != [] && Last(calls) == End(result))
      else if !IsLast(job, stream, sources) && n < |stream.turns| && !stream.turns[n].cancelled then
        error == Some(ReadFailed) && stream.turns[n].read.Broken?
      else error == Some(ContextError)
    ensures (exists k :: 0 <= k < |calls| && calls[k].End?) ==> error == None || error == Some(EndFailed)
  {
    hide OutcomeOf, MayReadAs, IsSuccess, IsFailure, ErrorOf, IsCutShort, Account;
    OutcomesAre(job, stream, result, error, calls, outcomes, sources);
    if outcomes != [] {
      assert Last(outcomes) == outcomes[|outcomes| - 1];
    }
    NoEndInside(outcomes);
    if !(stream.begin.Hook? && stream.begin.fails) {
      var before :| SoFar(job, stream, outcomes, sources, result, before)
                 && calls == before + if CallsEnd(stream, error) then [End(result)] else [];
    }
  }

  lemma {:induction false} NoEndInside(outcomes: seq<Outcome>)
    ensures forall k :: 0 <= k < |AllCalls(outcomes)| ==> AllCalls(outcomes)[k].Process?
  {
    if outcomes != [] {
      NoEndInside(Front(outcomes));
    }
  }

  /** The counters and the log for some outcomes: all counted, and the first thousand failures in order. */
  lemma {:induction false} AccountIs(outcomes: seq<Outcome>) returns (failed: seq<nat>)
    ensures var result := Account(outcomes);
      && result.processed == |outcomes| && result.succeeded == |SucceedingPlaces(outcomes)| && result.failed == |failed|
      && Picks(failed, |outcomes|, j => 0 <= j < |outcomes| && outcomes[j].Fails())
      && |result.errors| == (if |failed| <= 1000 then |failed| else 1000)
      && forall m :: 0 <= m < |result.errors| ==> failed[m] < |outcomes| && outcomes[failed[m]].Fails()
                                                  && result.errors[m] == outcomes[failed[m]].Error()
  {
    failed := FailingPlaces(outcomes);
    FailingPlacesAre(outcomes);
    forall m | 0 <= m < |Account(outcomes).errors|
      ensures failed[m] < |outcomes| && outcomes[failed[m]].Fails()
      ensures Account(outcomes).errors[m] == outcomes[failed[m]].Error()
    {
      FailuresAtPlaces(outcomes, m);
    }
  }

  // Before the rows ------------------------------------------------------------------

  /** Which error an import is refused with: the first that applies. */
  lemma {:induction false} ComplaintIs(request: Request, env: Environment, error: ImportError)
    requires IsFirstComplaint(request, env, error)
    ensures if env.cancelled then error == ContextError
            else if request.fileID == "" then error == InvalidRequest(InvalidMapping)
            else if request.schemaID == 0 then error == InvalidRequest(InvalidMapping)
            else if request.schemaID !in env.schemas then error == SchemaUnknown
            else if !env.hasProcessor then error == ProcessorUnavailable
            else if !env.fileOpens then error == FileUnavailable
            else if request.sheet < 0 then error == InvalidRequest(InvalidMapping)
            else if env.columns.None? then error == ColumnsUnavailable
            else if !env.rowsOpen then error == RowsUnavailable
            else
              var columns := env.columns.value;
              error.MappingRejected?
              && IsFirstDefect(MappingSpec(request.schemaID, request.mappings), env.schemas[request.schemaID],
                               if columns == [] then [] else [|columns|], error.defect)
  {
    hide IsFirstDefect;
    if n :| 0 <= n < |NEEDS| && MeetsFirst(n, request, env) && !Met(NEEDS[n], request, env)
            && error == Complaint(NEEDS[n]) {
      FirstNeeds(n, request, env);
    } else {
      FirstNeeds(9, request, env);
    }
  }

  lemma FirstNeeds(n: nat, request: Request, env: Environment)
    requires n <= 9 && MeetsFirst(n, request, env)
    ensures NEEDS == [LiveContext, FileID, SchemaID, SchemaKnown, Processor, File, Sheet, Columns, Rows]
    ensures (n > 0 ==> !env.cancelled) && (n > 1 ==> request.fileID != "") && (n > 2 ==> request.schemaID != 0)
    ensures (n > 3 ==> request.schemaID in env.schemas) && (n > 4 ==> env.hasProcessor) && (n > 5 ==> env.fileOpens)
    ensures (n > 6 ==> request.sheet >= 0) && (n > 7 ==> env.columns.Some?) && (n > 8 ==> env.rowsOpen)
  {
    assert n > 0 ==> Met(NEEDS[0], request, env);
    assert n > 1 ==> Met(NEEDS[1], request, env);
    assert n > 2 ==> Met(NEEDS[2], request, env);
    assert n > 3 ==> Met(NEEDS[3], request, env);
    assert n > 4 ==> Met(NEEDS[4], request, env);
    assert n > 5 ==> Met(NEEDS[5], request, env);
    assert n > 6 ==> Met(NEEDS[6], request, env);
    assert n > 7 ==> Met(NEEDS[7], request, env);
    assert n > 8 ==> Met(NEEDS[8], request, env);
  }

  /** When rows are imported at all. */
  lemma PreparedIs(request: Request, env: Environment)
    ensures Prepared(request, env) <==>
            && !env.cancelled && request.fileID != "" && request.schemaID != 0 && request.schemaID in env.schemas
            && env.hasProcessor && env.fileOpens && request.sheet >= 0 && env.columns.Some? && env.rowsOpen
            && WellFormed(MappingSpec(request.schemaID, request.mappings), env.schemas[request.schemaID],
                          if env.columns.value == [] then [] else [|env.columns.value|])
  {
  }
}
