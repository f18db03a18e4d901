/** What every run of the upload handler keeps, however its requests interleave. */
module TusSafety {
  import opened Prelude
  import opened TusProtocol

  /** The request has taken a full upload out of the map, and has yet to save or record it. */
  predicate Claims(s: State, r: int, id: Id) {
    0 <= r < |s.requests| && s.requests[r].id == id && (s.requests[r].pc.Saving? || s.requests[r].pc.Recording?)
  }

  ghost predicate IsSaved(s: State, id: Id) {
    exists k :: 0 <= k < |s.saves| && s.saves[k].id == id
  }

  /** An id is live, or claimed by one request, or given up: never two of these. */
  ghost predicate Safe(s: State) {
    && (forall id :: id in s.uploads || id in s.completed ==> id in s.sessions)
    && (forall id :: id in s.completed ==> id !in s.uploads && IsSaved(s, id))
    && (forall r, id :: Claims(s, r, id) ==> id in s.sessions && id !in s.uploads && id !in s.completed)
    && (forall q, r, id :: Claims(s, q, id) && Claims(s, r, id) ==> q == r)
    && (forall r, id :: Claims(s, r, id) ==> (IsSaved(s, id) <==> s.requests[r].pc.Recording?))
    && (forall k :: 0 <= k < |s.saves| ==> s.saves[k].id in s.sessions && s.saves[k].id !in s.uploads)
    && (forall j, k :: 0 <= j < k < |s.saves| ==> s.saves[j].id != s.saves[k].id)
    && (forall r :: 0 <= r < |s.requests| && Pending(s.requests[r].pc) ==> s.requests[r].id in s.sessions)
  }

  /** What every event does to the request and its upload. */
  lemma Effects(op: Op, pc: Pc, u: Upload, event: Event)
    requires Fits(pc, event)
    ensures var e := Act(op, pc, u, event);
      && e.upload.session.length == u.session.length
      && (e.upload.live ==> u.live)
      && (e.upload.file == u.file || (pc.Recording? && e.upload.file == Some(pc.file)))
      && (e.pc.Saving? ==> u.live && !e.upload.live && u.session.offset == u.session.length)
      && (e.pc.Recording? ==> e.saves)
      && (e.saves ==> pc.Saving? && !e.pc.Saving?)
      && (pc.Recording? ==> e.pc.Done? && e.pc.reply == Accepted(pc.offset, e.upload.file))
      && (e.pc.Done? && e.pc.reply.Accepted? && e.pc.reply.file.Some? && !pc.Aborting?
          ==> e.pc.reply.file == e.upload.file)
      && (e.pc.Aborting? ==> !e.pc.reply.Accepted?)
      && (e.pc.Done? && pc.Aborting? ==> e.pc.reply == pc.reply)
  {
  }

  lemma AdvanceIsSafe(s: State, r: nat, e: Effect)
    requires Safe(s) && r < |s.requests| && s.requests[r].id in s.sessions && Pending(s.requests[r].pc)
    requires var pc, u := s.requests[r].pc, UploadOf(s, s.requests[r].id);
      && (e.upload.live ==> u.live)
      && (e.upload.file == u.file || pc.Recording?)
      && (e.pc.Saving? ==> u.live && !e.upload.live)
      && (e.pc.Recording? ==> e.saves)
      && (e.saves ==> pc.Saving? && !e.pc.Saving?)
      && (pc.Recording? ==> e.pc.Done?)
    ensures Safe(Apply(s, r, e))
  {
    var t, id := Apply(s, r, e), s.requests[r].id;
    forall q, i | Claims(t, q, i) && q != r ensures Claims(s, q, i) {
    }
    forall i ensures IsSaved(t, i) <==> IsSaved(s, i) || (e.saves && i == id) {
      assert e.saves ==> t.saves[|s.saves|].id == id;
      if IsSaved(s, i) {
        var k :| 0 <= k < |s.saves| && s.saves[k].id == i;
        assert t.saves[k].id == i;
      }
    }
    assert s.requests[r].pc.Saving? || s.requests[r].pc.Recording? ==> Claims(s, r, id);
  }

  lemma BeginIsSafe(s: State, step: Step)
    requires Safe(s) && !step.Advance?
    ensures Safe(Next(s, step))
  {
    if step.BeginCreate? {
      CreateIsSafe(s, step);
    } else if step.BeginPatch? {
      PatchIsSafe(s, step);
    } else if step.AskCompleted? {
      AskIsSafe(s, step.r);
    } else {
      assert forall r, i :: Claims(Next(s, step), r, i) <==> Claims(s, r, i);
      assert forall i :: IsSaved(Next(s, step), i) <==> IsSaved(s, i);
    }
  }

  lemma CreateIsSafe(s: State, step: Step)
    requires Safe(s) && step.BeginCreate?
    ensures Safe(Next(s, step))
  {
    var t := Next(s, step);
    assert forall r, i :: Claims(t, r, i) <==> Claims(s, r, i);
    assert forall i :: IsSaved(t, i) <==> IsSaved(s, i);
  }

  lemma PatchIsSafe(s: State, step: Step)
    requires Safe(s) && step.BeginPatch?
    ensures Safe(Next(s, step))
  {
    var t := Next(s, step);
    assert forall r, i :: Claims(t, r, i) <==> Claims(s, r, i);
    assert forall i :: IsSaved(t, i) <==> IsSaved(s, i);
  }

  lemma AskIsSafe(s: State, r: nat)
    requires Safe(s)
    ensures Safe(Next(s, AskCompleted(r)))
  {
    var t := Next(s, AskCompleted(r));
    assert forall q, i :: Claims(t, q, i) <==> Claims(s, q, i);
    assert forall i :: IsSaved(t, i) <==> IsSaved(s, i);
  }

  lemma StepIsSafe(s: State, step: Step)
    requires Safe(s)
    ensures Safe(Next(s, step))
  {
    hide Safe, Act, IsSaved;
    if !step.Advance? {
      BeginIsSafe(s, step);
    } else if Enabled(s, step.r, step.event) {
      var request := s.requests[step.r];
      Effects(request.op, request.pc, UploadOf(s, request.id), step.event);
      AdvanceIsSafe(s, step.r, EffectOf(s, step.r, step.event));
    }
  }

  lemma {:induction false} RunIsSafe(maxSize: int, steps: seq<Step>)
    ensures Safe(Run(maxSize, steps))
  {
    hide Next;
    if steps != [] {
      RunIsSafe(maxSize, Front(steps));
      StepIsSafe(Run(maxSize, Front(steps)), Last(steps));
    }
  }

  // Nothing recorded is ever lost ---------------------------------------------

  ghost predicate Keeps(s: State, t: State) {
    && (forall id :: id in s.completed ==> id in t.completed && t.completed[id] == s.completed[id])
    && (forall id :: id in s.sessions ==> id in t.sessions && t.sessions[id].length == s.sessions[id].length)
    && s.saves <= t.saves
  }

  lemma StepKeeps(s: State, step: Step)
    requires Safe(s)
    ensures Keeps(s, Next(s, step))
  {
    hide Act;
    if step.Advance? && Enabled(s, step.r, step.event) {
      var request := s.requests[step.r];
      Effects(request.op, request.pc, UploadOf(s, request.id), step.event);
      assert request.pc.Recording? ==> Claims(s, step.r, request.id);
    }
  }

  /** A completed entry never changes, a session never disappears, a call to the writer is never undone. */
  lemma {:induction false} NothingIsLost(maxSize: int, steps: seq<Step>, k: nat)
    requires k <= |steps|
    ensures Keeps(Run(maxSize, steps[..k]), Run(maxSize, steps))
  {
    hide Next, Safe;
    if k == |steps| {
      assert steps[..k] == steps;
    } else {
      NothingIsLost(maxSize, Front(steps), k);
      assert Front(steps)[..k] == steps[..k];
      RunIsSafe(maxSize, Front(steps));
      StepKeeps(Run(maxSize, Front(steps)), Last(steps));
    }
  }

  // Saved once, and only full ---------------------------------------------------

  /** The step from s to t takes the upload out of the map while its offset equals its length. */
  predicate LeavesFull(s: State, t: State, id: Id) {
    && id in s.uploads && id !in t.uploads
    && id in s.sessions && s.sessions[id].offset == s.sessions[id].length
  }

  ghost predicate LeftFull(maxSize: int, steps: seq<Step>, id: Id) {
    exists k :: 0 <= k < |steps| && LeavesFull(Run(maxSize, steps[..k]), Run(maxSize, steps[..k + 1]), id)
  }

  ghost predicate HandedOver(s: State, id: Id) {
    (exists r :: Claims(s, r, id)) || IsSaved(s, id)
  }

  lemma NewlyHandedOver(s: State, step: Step, id: Id)
    requires Safe(s) && HandedOver(Next(s, step), id) && !HandedOver(s, id)
    ensures LeavesFull(s, Next(s, step), id)
  {
    hide Act, Safe;
    var t := Next(s, step);
    if step.Advance? && Enabled(s, step.r, step.event) {
      var r, request, e := step.r, s.requests[step.r], EffectOf(s, step.r, step.event);
      Effects(request.op, request.pc, UploadOf(s, request.id), step.event);
      assert request.pc.Saving? || request.pc.Recording? ==> Claims(s, r, request.id);
      assert forall q :: Claims(t, q, id) && q != r ==> Claims(s, q, id);
      assert forall k :: 0 <= k < |s.saves| ==> s.saves[k] == t.saves[k];
    } else {
      assert forall q :: Claims(t, q, id) ==> Claims(s, q, id);
    }
  }

  lemma HandedOverLeftFull(maxSize: int, steps: seq<Step>, id: Id)
    requires steps != [] && HandedOver(Run(maxSize, steps), id)
    requires HandedOver(Run(maxSize, Front(steps)), id) ==> LeftFull(maxSize, Front(steps), id)
    ensures LeftFull(maxSize, steps, id)
  {
    hide Next, Safe, HandedOver, LeavesFull;
    if HandedOver(Run(maxSize, Front(steps)), id) {
      var k :| 0 <= k < |steps| - 1
            && LeavesFull(Run(maxSize, Front(steps)[..k]), Run(maxSize, Front(steps)[..k + 1]), id);
      assert Front(steps)[..k] == steps[..k] && Front(steps)[..k + 1] == steps[..k + 1];
    } else {
      RunIsSafe(maxSize, Front(steps));
      NewlyHandedOver(Run(maxSize, Front(steps)), Last(steps), id);
      assert steps[..|steps| - 1] == Front(steps) && steps[..|steps| - 1 + 1] == steps;
    }
  }

  /**
   * Whatever the interleaving: an upload reaches the writer at most once, and only after it left
   * the map with its offset equal to its length; a completed upload is not live and was saved.
   */
  lemma {:induction false} SavedOnceAndFull(maxSize: int, steps: seq<Step>)
    ensures var s := Run(maxSize, steps);
      && (forall j, k :: 0 <= j < k < |s.saves| ==> s.saves[j].id != s.saves[k].id)
      && (forall id :: HandedOver(s, id) ==> LeftFull(maxSize, steps, id) && id !in s.uploads)
      && (forall id :: id in s.completed ==> id !in s.uploads && HandedOver(s, id))
  {
    hide Next;
    RunIsSafe(maxSize, steps);
    if steps != [] {
      SavedOnceAndFull(maxSize, Front(steps));
      forall id | HandedOver(Run(maxSize, steps), id) ensures LeftFull(maxSize, steps, id) {
        HandedOverLeftFull(maxSize, steps, id);
      }
    }
  }

  // Answers ---------------------------------------------------------------------

  predicate AnswerIsRecorded(s: State, request: Request) {
    && (request.pc.Done? && request.pc.reply.Accepted? && request.pc.reply.file.Some? ==>
          request.id in s.completed && s.completed[request.id] == request.pc.reply.file.value)
    && (request.pc.Aborting? ==> !request.pc.reply.Accepted?)
  }

  lemma StepRecordsAnswer(s: State, step: Step, r: nat)
    requires Safe(s) && r < |Next(s, step).requests|
    requires r < |s.requests| ==> AnswerIsRecorded(s, s.requests[r])
    ensures AnswerIsRecorded(Next(s, step), Next(s, step).requests[r])
  {
    hide Act, Safe;
    StepKeeps(s, step);
    if step.Advance? && Enabled(s, step.r, step.event) {
      var request := s.requests[step.r];
      Effects(request.op, request.pc, UploadOf(s, request.id), step.event);
    }
  }

  /** An answer that names a file names the one recorded for its upload. */
  lemma {:induction false} FilesAreRecorded(maxSize: int, steps: seq<Step>, r: nat)
    requires r < |Run(maxSize, steps).requests|
    ensures AnswerIsRecorded(Run(maxSize, steps), Run(maxSize, steps).requests[r])
  {
    hide Next, Safe, AnswerIsRecorded;
    if steps != [] {
      RunIsSafe(maxSize, Front(steps));
      if r < |Run(maxSize, Front(steps)).requests| {
        FilesAreRecorded(maxSize, Front(steps), r);
      }
      StepRecordsAnswer(Run(maxSize, Front(steps)), Last(steps), r);
    }
  }
}
