/** How uploads begin and end: what creation admits, what termination and closing take away, what HEAD tells. */
module TusEndings {
  import opened Prelude
  import opened TusProtocol
  import opened TusSafety
  import opened TusLedger

  // Creation ------------------------------------------------------------------

  /** A creation is refused exactly for a length that is negative, above 2^63-1, or above the maximum, if any. */
  lemma CreationIs(s: State, id: Id, length: int, name: string, contentType: string, hasBody: bool, octetStream: bool)
    requires id !in s.sessions
    ensures var t := Next(s, BeginCreate(id, length, name, contentType, hasBody, octetStream));
      var refused := length < 0 || length > 9223372036854775807 || (s.maxSize > 0 && length > s.maxSize);
      && (refused ==> t == s)
      && (!refused ==>
            && id in t.uploads && id in t.sessions && t.sessions[id] == Session(length, 0, [], name, contentType)
            && (forall i :: i != id ==> (i in t.uploads <==> i in s.uploads))
            && (forall i :: i in s.sessions ==> i in t.sessions && t.sessions[i] == s.sessions[i])
            && t.completed == s.completed && t.saves == s.saves && |t.requests| == |s.requests| + 1)
  {
  }

  /** The session of an upload is the one some creation asked for; only its content and offset have changed. */
  ghost predicate IsCreated(maxSize: int, steps: seq<Step>, id: Id, session: Session) {
    exists k :: CreatesAs(maxSize, steps, id, session, k)
  }

  ghost predicate CreatesAs(maxSize: int, steps: seq<Step>, id: Id, session: Session, k: int) {
    && 0 <= k < |steps| && steps[k].BeginCreate? && steps[k].id == id
    && steps[k].length == session.length && steps[k].name == session.name && steps[k].contentType == session.contentType
    && 0 <= session.length <= 9223372036854775807 && (maxSize > 0 ==> session.length <= maxSize)
  }

  ghost predicate AllCreated(maxSize: int, steps: seq<Step>) {
    var s := Run(maxSize, steps);
    && s.maxSize == maxSize
    && (forall id :: id in s.sessions ==> IsCreated(maxSize, steps, id, s.sessions[id]))
    && (forall k :: 0 <= k < |s.saves| ==>
          && s.saves[k].id in s.sessions
          && s.saves[k].name == s.sessions[s.saves[k].id].name
          && s.saves[k].contentType == s.sessions[s.saves[k].id].contentType)
  }

  lemma CreatedStays(maxSize: int, steps: seq<Step>, id: Id, before: Session, after: Session)
    requires steps != [] && IsCreated(maxSize, Front(steps), id, before)
    requires after.length == before.length && after.name == before.name && after.contentType == before.contentType
    ensures IsCreated(maxSize, steps, id, after)
  {
    var k :| CreatesAs(maxSize, Front(steps), id, before, k);
    assert Front(steps)[k] == steps[k];
    assert CreatesAs(maxSize, steps, id, after, k);
  }

  lemma EventKeepsNames(op: Op, pc: Pc, u: Upload, event: Event)
    requires Fits(pc, event)
    ensures var session := Act(op, pc, u, event).upload.session;
      session.length == u.session.length && session.name == u.session.name
      && session.contentType == u.session.contentType
  {
  }

  lemma AdvanceKeepsCreated(maxSize: int, steps: seq<Step>)
    requires steps != [] && AllCreated(maxSize, Front(steps)) && Last(steps).Advance?
    ensures AllCreated(maxSize, steps)
  {
    hide Act, IsCreated;
    var s, t, step := Run(maxSize, Front(steps)), Run(maxSize, steps), Last(steps);
    if Enabled(s, step.r, step.event) {
      var request := s.requests[step.r];
      EventKeepsNames(request.op, request.pc, UploadOf(s, request.id), step.event);
    }
    forall id | id in t.sessions ensures IsCreated(maxSize, steps, id, t.sessions[id]) {
      CreatedStays(maxSize, steps, id, s.sessions[id], t.sessions[id]);
    }
  }

  lemma BeginKeepsCreated(maxSize: int, steps: seq<Step>)
    requires steps != [] && AllCreated(maxSize, Front(steps)) && !Last(steps).Advance?
    ensures AllCreated(maxSize, steps)
  {
    hide IsCreated;
    var s, t, step := Run(maxSize, Front(steps)), Run(maxSize, steps), Last(steps);
    forall id | id in t.sessions ensures IsCreated(maxSize, steps, id, t.sessions[id]) {
      if id in s.sessions {
        CreatedStays(maxSize, steps, id, s.sessions[id], t.sessions[id]);
      } else {
        CreatedNow(maxSize, steps, id);
      }
    }
  }

  lemma CreatedNow(maxSize: int, steps: seq<Step>, id: Id)
    requires steps != [] && Run(maxSize, Front(steps)).maxSize == maxSize && !Last(steps).Advance?
    requires id in Run(maxSize, steps).sessions && id !in Run(maxSize, Front(steps)).sessions
    ensures IsCreated(maxSize, steps, id, Run(maxSize, steps).sessions[id])
  {
    assert CreatesAs(maxSize, steps, id, Run(maxSize, steps).sessions[id], |steps| - 1);
  }

  /** In every run: each upload has the length, name and type of its creation, and is saved under that name and type. */
  lemma {:induction false} UploadsAreAsCreated(maxSize: int, steps: seq<Step>)
    ensures AllCreated(maxSize, steps)
  {
    hide AllCreated;
    if steps == [] {
      NothingCreated(maxSize);
    } else {
      UploadsAreAsCreated(maxSize, Front(steps));
      if Last(steps).Advance? {
        AdvanceKeepsCreated(maxSize, steps);
      } else {
        BeginKeepsCreated(maxSize, steps);
      }
    }
  }

  lemma NothingCreated(maxSize: int)
    ensures AllCreated(maxSize, [])
  {
  }

  // Termination and closing -----------------------------------------------------

  /** A termination takes its upload out of the map, and touches nothing else. */
  lemma TerminationIs(s: State, id: Id)
    ensures var t := Next(s, Terminate(id));
      && id !in t.uploads && (forall i :: i != id ==> (i in t.uploads <==> i in s.uploads))
      && t.maxSize == s.maxSize && t.sessions == s.sessions && t.completed == s.completed
      && t.requests == s.requests && t.saves == s.saves
  {
  }

  /** Closing takes every upload out of the map, and touches nothing else. */
  lemma ClosingIs(s: State)
    ensures var t := Next(s, Close);
      && (forall i :: i !in t.uploads)
      && t.maxSize == s.maxSize && t.sessions == s.sessions && t.completed == s.completed
      && t.requests == s.requests && t.saves == s.saves
  {
  }

  /** The step takes the upload away: a termination of it, or the closing of the handler. */
  predicate TakesAway(step: Step, id: Id) {
    step == Terminate(id) || step == Close
  }

  /** An upload that is neither live nor handed over at some moment never is again. */
  lemma {:induction false} GoneIsGone(maxSize: int, steps: seq<Step>, k: nat, id: Id)
    requires k <= |steps|
    requires var s := Run(maxSize, steps[..k]); id in s.sessions && id !in s.uploads && !HandedOver(s, id)
    ensures var t := Run(maxSize, steps);
      id in t.sessions && id !in t.uploads && !HandedOver(t, id) && id !in t.completed
  {
    hide Next, HandedOver, Safe;
    SavedOnceAndFull(maxSize, steps);
    if k == |steps| {
      assert steps[..k] == steps;
    } else {
      assert Front(steps)[..k] == steps[..k];
      GoneIsGone(maxSize, Front(steps), k, id);
      var s := Run(maxSize, Front(steps));
      StepOnlyAppends(s, Last(steps), id);
      RunIsSafe(maxSize, Front(steps));
      if HandedOver(Run(maxSize, steps), id) {
        NewlyHandedOver(s, Last(steps), id);
      }
    }
  }

  lemma TakenAwayNow(maxSize: int, steps: seq<Step>, k: nat, id: Id)
    requires k < |steps| && TakesAway(steps[k], id) && id in Run(maxSize, steps[..k]).uploads
    ensures var t := Run(maxSize, steps[..k + 1]); id in t.sessions && id !in t.uploads && !HandedOver(t, id)
  {
    var s := Run(maxSize, steps[..k]);
    assert Front(steps[..k + 1]) == steps[..k];
    RunIsSafe(maxSize, steps[..k]);
    var t := Next(s, steps[k]);
    assert forall r :: Claims(t, r, id) <==> Claims(s, r, id);
    assert IsSaved(t, id) <==> IsSaved(s, id);
  }

  /**
   * A live upload that is terminated, or whose handler is closed, is not live again in any continuation, and never
   * reaches the writer.
   */
  lemma {:induction false} TakenAwayForEver(maxSize: int, steps: seq<Step>, k: nat, id: Id)
    requires k < |steps| && TakesAway(steps[k], id) && id in Run(maxSize, steps[..k]).uploads
    ensures var t := Run(maxSize, steps);
      id in t.sessions && id !in t.uploads && !HandedOver(t, id) && !IsSaved(t, id) && id !in t.completed
  {
    hide Next, Run;
    TakenAwayNow(maxSize, steps, k, id);
    GoneIsGone(maxSize, steps, k + 1, id);
  }

  /** Once an upload is not live, it stays so, and every PATCH for it begins by finding nothing. */
  lemma {:induction false} NotLiveIsMissing(maxSize: int, steps: seq<Step>, k: nat, id: Id, want: int)
    requires k <= |steps| && id in Run(maxSize, steps[..k]).sessions && id !in Run(maxSize, steps[..k]).uploads
    ensures id !in Run(maxSize, steps).uploads
    ensures var t := Run(maxSize, steps + [BeginPatch(id, want)]);
      t.requests == Run(maxSize, steps).requests + [Request(Patch, id, Missing)]
  {
    OffsetsNeverDecrease(maxSize, steps, k, id);
    assert Front(steps + [BeginPatch(id, want)]) == steps;
  }

  // HEAD ------------------------------------------------------------------------

  /** HEAD tells a live upload from a completed one from any other. */
  lemma {:induction false} HeadIs(maxSize: int, steps: seq<Step>, id: Id)
    ensures var s := Run(maxSize, steps); var reply := Head(s, id);
      && (reply.Live? <==> id in s.uploads)
      && (reply.Complete? <==> id in s.completed)
      && (reply.Unknown? <==> id !in s.uploads && id !in s.completed)
      && (id in s.uploads ==> id in s.sessions && reply == Live(s.sessions[id].offset, s.sessions[id].length))
      && (id in s.completed ==> reply == Complete(s.completed[id], 0))
  {
    hide Run;
    RunIsSafe(maxSize, steps);
  }

  /** Once a request was answered with a file, every later HEAD answers with that file and offset zero. */
  lemma {:induction false} HeadTellsFile(maxSize: int, steps: seq<Step>, k: nat, r: nat, offset: int, file: FileID)
    requires k <= |steps|
    requires var s := Run(maxSize, steps[..k]);
      r < |s.requests| && s.requests[r].pc.Done? && s.requests[r].pc.reply == Accepted(offset, Some(file))
    ensures Head(Run(maxSize, steps), Run(maxSize, steps[..k]).requests[r].id) == Complete(file, 0)
  {
    hide Run, Next, Safe;
    FilesAreRecorded(maxSize, steps[..k], r);
    NothingIsLost(maxSize, steps, k);
    HeadIs(maxSize, steps, Run(maxSize, steps[..k]).requests[r].id);
  }

  // Requests whose upload goes away -----------------------------------------------

  /** What a request is told when its upload is not live any more, at each of the places it may notice. */
  lemma GoneAnswers(op: Op, pc: Pc, u: Upload, event: Event)
    requires Fits(pc, event) && !u.live
    ensures var e := Act(op, pc, u, event);
      && e.upload.session.content == u.session.content && !e.upload.live
      && (event.FindSession? || event.Write? ==>
            e.pc == if op.Create? then Aborting(if pc.Lookup? then [] else pc.chunk, InvalidChunk)
                    else Done(InvalidChunk, if pc.Lookup? then [] else pc.chunk))
      && (event.Check? ==> e.pc == Done(NotFound, []))
      && (event.Take? ==>
            e.pc == Done(match u.file case Some(f) => Accepted(pc.offset, Some(f)) case None => InternalError, []))
  {
  }

  /** finish takes a live upload exactly if it is full. */
  lemma FinishIs(op: Op, pc: Pc, u: Upload)
    requires pc.Finishing? && u.live
    ensures var e := Act(op, pc, u, Take);
      && e.upload.session == u.session && e.upload.file == u.file && !e.saves
      && (!e.upload.live <==> u.session.offset == u.session.length)
      && (e.upload.live ==> e.pc == Done(InternalError, []))
      && (!e.upload.live ==> e.pc == Saving(pc.offset))
  {
  }
}
