/** The handler itself: its maps, and the regions of code it runs under its mutex. */
module TusHandler {
  import opened Prelude
  import opened TusProtocol
  import opened TusSafety
  import opened TusLedger
  import opened TusEndings

  /** What a body delivers: its bytes, whether copying then fails, and whether the file can be synced. */
  datatype Body = Body(bytes: seq<byte>, fails: bool, synced: bool)

  /** The content of a creation request. */
  datatype Content = NoContent | Content(octetStream: bool, body: Body)

  class Handler {
    const maxSize: int
    var sessions: map<Id, Session>     // every session made; requests keep pointing to theirs
    var uploads: set<Id>               // the ids in the uploads map
    var completed: map<Id, FileID>
    var requests: seq<Request>         // the requests being served, and where each of them stands
    var saves: seq<SaveCall>
    ghost var steps: seq<Step>         // what happened so far

    ghost function Value(): State
      reads this
    {
      State(maxSize, sessions, uploads, completed, requests, saves)
    }

    /** The handler is where its steps lead. */
    ghost predicate Valid()
      reads this
    {
      Value() == Run(maxSize, steps)
    }

    /** The step, and no other, was taken. */
    twostate predicate Took(step: Step)
      reads this
    {
      Valid() && steps == old(steps) + [step] && Value() == Next(old(Value()), step)
    }

    constructor (maxSize: int)
      ensures Valid() && Value() == Init(maxSize) && steps == []
    {
      this.maxSize := maxSize;
      sessions, uploads, completed, requests, saves, steps := map[], {}, map[], [], [], [];
    }

    /** The upload ids are those of sessions. */
    lemma HasSessions()
      requires Valid()
      ensures uploads <= sessions.Keys
    {
      RunIsSafe(maxSize, steps);
    }

    /** Records the step that is about to be taken. */
    ghost method Log(step: Step)
      requires Valid()
      modifies this`steps
      ensures steps == old(steps) + [step] && Run(maxSize, steps) == Next(old(Value()), step)
    {
      RunTakes(maxSize, steps, step);
      steps := steps + [step];
    }

    method Continue(r: nat, pc: Pc)
      requires r < |requests|
      modifies this`requests
      ensures requests == old(requests)[r := old(requests)[r].(pc := pc)]
    {
      requests := requests[r := requests[r].(pc := pc)];
    }

    // create ------------------------------------------------------------------

    method BeginCreate(id: Id, length: int, name: string, contentType: string, hasBody: bool, octetStream: bool)
      requires Valid()
      modifies this
      ensures Took(Step.BeginCreate(id, length, name, contentType, hasBody, octetStream))
    {
      hide Run;
      Log(Step.BeginCreate(id, length, name, contentType, hasBody, octetStream));
      if length < 0 || length > MAX_INT64 { return; }
      if maxSize > 0 && length > maxSize { return; }
      if id in sessions { return; } // ids are fresh
      sessions := sessions[id := Session(length, 0, [], name, contentType)];
      uploads := uploads + {id};
      var pc;
      if hasBody {
        pc := if !octetStream then Aborting([], UnsupportedMedia) else Lookup(length);
      } else {
        pc := if length == 0 then Finishing(0) else Done(Accepted(0, None), []);
      }
      requests := requests + [Request(Create, id, pc)];
    }

    method Abort(r: nat)
      requires Valid() && Enabled(Value(), r, Event.Abort)
      modifies this
      ensures Took(Advance(r, Event.Abort))
    {
      hide Run;
      Log(Advance(r, Event.Abort));
      var request := requests[r];
      if request.id in uploads {
        uploads := uploads - {request.id};
      }
      Continue(r, Done(request.pc.reply, request.pc.lost));
    }

    // patch -------------------------------------------------------------------

    method BeginPatch(id: Id, want: int)
      requires Valid()
      modifies this
      ensures Took(Step.BeginPatch(id, want))
    {
      hide Run;
      HasSessions();
      Log(Step.BeginPatch(id, want));
      var pc;
      if id !in uploads {
        pc := Missing;
      } else if want != sessions[id].offset {
        pc := Done(OffsetMismatch(sessions[id].offset), []);
      } else {
        pc := Lookup(sessions[id].length - sessions[id].offset);
      }
      requests := requests + [Request(Patch, id, pc)];
    }

    /** The lookup of an unknown upload, which happens after the mutex is released. */
    method AskCompleted(r: nat)
      requires Valid() && r < |requests| && requests[r].pc.Missing?
      modifies this
      ensures Took(Step.AskCompleted(r))
    {
      hide Run;
      Log(Step.AskCompleted(r));
      Continue(r, Done(if requests[r].id in completed then AlreadyComplete else NotFound, []));
    }

    method CheckComplete(r: nat)
      requires Valid() && Enabled(Value(), r, Check)
      modifies this
      ensures Took(Advance(r, Check))
    {
      hide Run;
      Log(Advance(r, Check));
      var id := requests[r].id;
      if id !in uploads {
        Continue(r, Done(NotFound, []));
        return;
      }
      var offset := sessions[id].offset;
      if offset >= sessions[id].length {
        Continue(r, Finishing(offset));
      } else {
        Continue(r, Done(Accepted(offset, None), []));
      }
    }

    // append ------------------------------------------------------------------

    method Fail(r: nat, lost: seq<byte>, tooLarge: bool)
      requires r < |requests|
      modifies this`requests
      ensures requests == old(requests)[r := old(requests)[r].(pc := Failed(old(requests)[r].op, lost, tooLarge))]
    {
      if requests[r].op.Create? {
        Continue(r, Aborting(lost, InvalidChunk));
      } else if tooLarge {
        Continue(r, Done(TooLarge, lost));
      } else {
        Continue(r, Done(InvalidChunk, lost));
      }
    }

    method FindSession(r: nat)
      requires Valid() && Enabled(Value(), r, Event.FindSession)
      modifies this
      ensures Took(Advance(r, Event.FindSession))
    {
      hide Run;
      Log(Advance(r, Event.FindSession));
      if requests[r].id !in uploads {
        Fail(r, [], false);
      } else {
        Continue(r, Writing(requests[r].pc.remaining, []));
      }
    }

    /** One write of io.Copy to the staged file. */
    method Write(r: nat, bytes: seq<byte>)
      requires Valid() && Enabled(Value(), r, Event.Write(bytes))
      modifies this
      ensures Took(Advance(r, Event.Write(bytes)))
    {
      hide Run;
      Log(Advance(r, Event.Write(bytes)));
      var id, pc := requests[r].id, requests[r].pc;
      if id !in uploads { // closed
        Fail(r, pc.chunk, false);
        return;
      }
      sessions := sessions[id := sessions[id].(content := sessions[id].content + bytes)];
      Continue(r, Writing(pc.remaining, pc.chunk + bytes));
    }

    /** io.Copy fails, after the writes it has made. */
    method FailCopy(r: nat)
      requires Valid() && Enabled(Value(), r, CopyFails)
      modifies this
      ensures Took(Advance(r, CopyFails))
    {
      hide Run;
      Log(Advance(r, CopyFails));
      Fail(r, requests[r].pc.chunk, false);
    }

    method EndCopy(r: nat, synced: bool)
      requires Valid() && Enabled(Value(), r, CopyEnds(synced))
      modifies this
      ensures Took(Advance(r, CopyEnds(synced)))
    {
      hide Run;
      Log(Advance(r, CopyEnds(synced)));
      var pc := requests[r].pc;
      if |pc.chunk| > pc.remaining {
        Fail(r, pc.chunk, true);
      } else if !synced || requests[r].id !in uploads {
        Fail(r, pc.chunk, false);
      } else {
        Continue(r, Crediting(pc.chunk));
      }
    }

    method Credit(r: nat)
      requires Valid() && Enabled(Value(), r, Event.Credit)
      modifies this
      ensures Took(Advance(r, Event.Credit))
    {
      hide Run;
      Log(Advance(r, Event.Credit));
      var id, n := requests[r].id, |requests[r].pc.chunk|;
      sessions := sessions[id := sessions[id].(offset := sessions[id].offset + n)];
      if requests[r].op.Patch? {
        Continue(r, Recheck);
      } else if sessions[id].length == 0 || n >= sessions[id].length {
        Continue(r, Finishing(n));
      } else {
        Continue(r, Done(Accepted(n, None), []));
      }
    }

    // finish ------------------------------------------------------------------

    method Take(r: nat)
      requires Valid() && Enabled(Value(), r, Event.Take)
      modifies this
      ensures Took(Advance(r, Event.Take))
    {
      hide Run;
      Log(Advance(r, Event.Take));
      var id, offset := requests[r].id, requests[r].pc.offset;
      if id !in uploads {
        if id in completed {
          Continue(r, Done(Accepted(offset, Some(completed[id])), []));
        } else {
          Continue(r, Done(InternalError, []));
        }
        return;
      }
      if sessions[id].offset != sessions[id].length {
        Continue(r, Done(InternalError, []));
        return;
      }
      uploads := uploads - {id};
      Continue(r, Saving(offset));
    }

    /** The staged file cannot be opened again. */
    method FailOpen(r: nat)
      requires Valid() && Enabled(Value(), r, OpenFails)
      modifies this
      ensures Took(Advance(r, OpenFails))
    {
      hide Run;
      Log(Advance(r, OpenFails));
      Continue(r, Done(InternalError, []));
    }

    method Save(r: nat, outcome: Option<FileID>)
      requires Valid() && Enabled(Value(), r, Event.Save(outcome))
      modifies this
      ensures Took(Advance(r, Event.Save(outcome)))
    {
      hide Run;
      Log(Advance(r, Event.Save(outcome)));
      var id := requests[r].id;
      saves := saves + [SaveCall(id, sessions[id].name, sessions[id].contentType, sessions[id].content)];
      match outcome {
        case None => Continue(r, Done(InternalError, []));
        case Some(file) => Continue(r, Recording(requests[r].pc.offset, file));
      }
    }

    method Record(r: nat)
      requires Valid() && Enabled(Value(), r, Event.Record)
      modifies this
      ensures Took(Advance(r, Event.Record))
    {
      hide Run;
      Log(Advance(r, Event.Record));
      var pc := requests[r].pc;
      completed := completed[requests[r].id := pc.file];
      Continue(r, Done(Accepted(pc.offset, Some(pc.file)), []));
    }

    // terminate, Close --------------------------------------------------------

    method Terminate(id: Id)
      requires Valid()
      modifies this
      ensures Took(Step.Terminate(id))
      ensures uploads == old(uploads) - {id} && sessions == old(sessions) && completed == old(completed)
      ensures requests == old(requests) && saves == old(saves)
    {
      hide Run;
      Log(Step.Terminate(id));
      if id in uploads {
        uploads := uploads - {id};
      }
    }

    method Close()
      requires Valid()
      modifies this
      ensures Took(Step.Close)
      ensures uploads == {} && sessions == old(sessions) && completed == old(completed)
      ensures requests == old(requests) && saves == old(saves)
    {
      hide Run;
      Log(Step.Close);
      while uploads != {}
        decreases uploads
        invariant Value() == old(Value()).(uploads := uploads)
        invariant steps == old(steps) + [Step.Close] && Run(maxSize, steps) == Next(old(Value()), Step.Close)
      {
        var id :| id in uploads;
        uploads := uploads - {id};
      }
    }

    // head --------------------------------------------------------------------

    /** A live upload reports exactly the bytes credited to it since it was created. */
    method ServeHead(id: Id) returns (reply: HeadReply)
      requires Valid()
      ensures reply == Head(Value(), id)
      ensures reply.Live? <==> id in uploads
      ensures reply.Complete? <==> id in completed
      ensures id in uploads ==> id in sessions && reply == Live(sessions[id].offset, sessions[id].length)
      ensures id in completed ==> reply == Complete(completed[id], 0)
      ensures reply.Live? ==> reply.offset == |Concat(Credits(maxSize, steps, id))|
    {
      HeadIs(maxSize, steps, id);
      HasSessions();
      if id in uploads {
        OffsetCountsCredits(maxSize, steps, id);
      }
      if id !in uploads {
        return if id in completed then Complete(completed[id], 0) else Unknown;
      }
      reply := Live(sessions[id].offset, sessions[id].length);
    }

    // Whole requests, with no other in between ----------------------------------

    /** append: what the limited reader delivers reaches the file, and is credited if all of it fits. */
    method Append(r: nat, body: Body)
      requires Valid() && Enabled(Value(), r, Event.FindSession)
      modifies this
      ensures Valid() && old(steps) <= steps
      ensures Value() == Apply(old(Value()), r,
                               Appended(old(requests)[r].op, UploadOf(old(Value()), old(requests)[r].id),
                                        old(requests)[r].pc.remaining, body))
    {
      hide Next, Apply, Run;
      ghost var s, request := Value(), requests[r];
      ghost var u := UploadOf(s, request.id);
      var remaining := requests[r].pc.remaining;
      var sent := Sent(remaining, body.bytes);
      var live := requests[r].id in uploads;
      ghost var e := Stand(s, r, Event.FindSession);
      FindSession(r);
      if !live { return; }
      if |sent| > 0 {
        e := Chain(s, r, e, Event.Write(sent));
        Write(r, sent);
        assert [] + sent == sent;
      } else {
        assert u.session.content + sent == u.session.content;
      }
      assert e.pc == Writing(remaining, sent)
          && e.upload == u.(session := u.session.(content := u.session.content + sent));
      if body.fails {
        e := Chain(s, r, e, CopyFails);
        FailCopy(r);
        return;
      }
      e := Chain(s, r, e, CopyEnds(body.synced));
      EndCopy(r, body.synced);
      if |sent| > remaining || !body.synced { return; }
      e := Chain(s, r, e, Event.Credit);
      Credit(r);
    }

    /** finish: a full upload leaves the map, its bytes go to the writer, the file is recorded. */
    method Finish(r: nat, opens: bool, outcome: Option<FileID>)
      requires Valid() && Enabled(Value(), r, Event.Take)
      modifies this
      ensures Valid() && old(steps) <= steps
      ensures Value() == Apply(old(Value()), r,
                               Finished(UploadOf(old(Value()), old(requests)[r].id), old(requests)[r].pc.offset, opens,
                                        outcome))
    {
      hide Next, Apply, Run;
      ghost var s := Value();
      var id := requests[r].id;
      var full := id in uploads && sessions[id].offset == sessions[id].length;
      ghost var e := Stand(s, r, Event.Take);
      Take(r);
      if !full { return; }
      if !opens {
        e := Chain(s, r, e, OpenFails);
        FailOpen(r);
        return;
      }
      e := Chain(s, r, e, Event.Save(outcome));
      Save(r, outcome);
      if outcome.None? { return; }
      e := Chain(s, r, e, Event.Record);
      Record(r);
    }

    /** PATCH as one piece. */
    method ServePatch(id: Id, want: int, body: Body, opens: bool, outcome: Option<FileID>) returns (reply: Reply)
      requires Valid()
      modifies this
      ensures Valid() && old(steps) <= steps
      ensures PatchServed(old(Value()), Value(), id, want, body, opens, outcome, reply)
    {
      hide Next, Run, Apply;
      ghost var before := Value();
      var r := |requests|;
      PatchBegins(before, id, want);
      BeginPatch(id, want);
      ghost var s := Value();
      if requests[r].pc.Missing? {
        Asked(s, r);
        AskCompleted(r);
        return requests[r].pc.reply;
      }
      if requests[r].pc.Done? { return requests[r].pc.reply; }
      reply := AppendAndFinish(r, body, opens, outcome);
    }

    /** An admitted PATCH. */
    method AppendAndFinish(r: nat, body: Body, opens: bool, outcome: Option<FileID>) returns (reply: Reply)
      requires Valid() && Enabled(Value(), r, Event.FindSession) && requests[r].op.Patch? && requests[r].id in uploads
      requires requests[r].pc.remaining == sessions[requests[r].id].length - sessions[requests[r].id].offset
      modifies this
      ensures Valid() && old(steps) <= steps
      ensures var e := Patched(UploadOf(old(Value()), old(requests)[r].id), body, opens, outcome);
        e.pc.Done? && reply == e.pc.reply && Value() == Apply(old(Value()), r, e)
    {
      hide Next, Run, Apply, Appended, Finished;
      ghost var s, id := Value(), requests[r].id;
      ghost var e := Appended(Patch, UploadOf(s, id), requests[r].pc.remaining, body);
      AppendedAffects(s, r, body);
      AppendedPatch(UploadOf(s, id), requests[r].pc.remaining, body);
      Append(r, body);
      AfterEffect(s, r, e);
      if requests[r].pc.Done? { return requests[r].pc.reply; }
      e := Chain(s, r, e, Check);
      CheckComplete(r);
      AfterEffect(s, r, e);
      if requests[r].pc.Done? { return requests[r].pc.reply; }
      ghost var f := Finished(e.upload, e.pc.offset, opens, outcome);
      AfterIsKnown(s, r, e);
      FinishedIsDone(e.upload, e.pc.offset, opens, outcome);
      ApplyTwice(s, r, e, f);
      Finish(r, opens, outcome);
      AfterEffect(s, r, f);
      reply := requests[r].pc.reply;
    }

    /** Creation as one piece; None if it is refused before there is an upload. */
    method ServeCreate(id: Id, length: int, name: string, contentType: string, content: Content, opens: bool,
                       outcome: Option<FileID>)
      returns (reply: Option<Reply>)
      requires Valid()
      modifies this
      ensures Valid() && old(steps) <= steps
      ensures CreateServed(old(Value()), Value(), id, length, name, contentType, content, opens, outcome, reply)
    {
      hide Next, Run, Apply, Appended, Finished, CreationBegun;
      ghost var before := Value();
      ghost var session := Session(length, 0, [], name, contentType);
      var r := |requests|;
      var creatable := id !in sessions && 0 <= length <= MAX_INT64 && (maxSize > 0 ==> length <= maxSize);
      FreshIsIncomplete(id);
      CreationBegins(before, id, length, name, contentType, content);
      BeginCreate(id, length, name, contentType, content.Content?, content.Content? && content.octetStream);
      if !creatable { return None; }
      CreationStands(before, id, session, content);
      var answer := ServeContent(r, content, opens, outcome);
      reply := Some(answer);
    }

    /** A creation, once the upload is registered. */
    method ServeContent(r: nat, content: Content, opens: bool, outcome: Option<FileID>) returns (reply: Reply)
      requires Valid() && r < |requests| && requests[r].op.Create? && requests[r].id in uploads
              && requests[r].id in sessions
      requires requests[r].pc == FirstPc(sessions[requests[r].id].length, content.Content?,
                                         content.Content? && content.octetStream)
      modifies this
      ensures Valid() && old(steps) <= steps
      ensures var e := Created(UploadOf(old(Value()), old(requests)[r].id), content, opens, outcome);
        e.pc.Done? && reply == e.pc.reply && Value() == Apply(old(Value()), r, e)
    {
      hide Next, Run, Apply, Appended, Finished;
      ghost var s := Value();
      ghost var u := UploadOf(s, requests[r].id);
      ghost var e := Effect(requests[r].pc, u, false);
      Still(s, r);
      if content.Content? && content.octetStream {
        e := Appended(Create, u, u.session.length, content.body);
        AppendedAffects(s, r, content.body);
        AppendedCreate(u, u.session.length, content.body);
        Append(r, content.body);
        AfterEffect(s, r, e);
      }
      if requests[r].pc.Aborting? {
        e := Chain(s, r, e, Event.Abort);
        Abort(r);
        AfterEffect(s, r, e);
      } else if requests[r].pc.Finishing? {
        ghost var f := Finished(e.upload, e.pc.offset, opens, outcome);
        AfterIsKnown(s, r, e);
        FinishedIsDone(e.upload, e.pc.offset, opens, outcome);
        ApplyTwice(s, r, e, f);
        Finish(r, opens, outcome);
        AfterEffect(s, r, f);
      }
      reply := requests[r].pc.reply;
    }

    lemma FreshIsIncomplete(id: Id)
      requires Valid()
      ensures id !in sessions ==> id !in completed
    {
      RunIsSafe(maxSize, steps);
    }

    // In every state of a handler --------------------------------------------------

    /** Each upload is saved at most once, only full, and is not live once completed. */
    lemma SavesOnce()
      requires Valid()
      ensures SavedOnce(maxSize, steps, Value())
    {
      RunSavesOnce(maxSize, steps);
    }

    /** An upload terminated, or closed, while it was live is gone for good, and was not handed to the writer. */
    lemma EndsForGood(k: nat, id: Id)
      requires Valid() && k < |steps| && TakesAway(steps[k], id) && id in Run(maxSize, steps[..k]).uploads
      ensures id in sessions && id !in uploads && id !in completed && !IsSaved(Value(), id)
    {
      TakenAwayForEver(maxSize, steps, k, id);
    }

    /** Every upload has the length, name and type it was created with; the writer got it under that name and type. */
    lemma KeepsNames()
      requires Valid()
      ensures AllCreated(maxSize, steps)
      ensures forall k :: 0 <= k < |saves| ==>
                && saves[k].id in sessions
                && saves[k].name == sessions[saves[k].id].name
                && saves[k].contentType == sessions[saves[k].id].contentType
    {
      UploadsAreAsCreated(maxSize, steps);
    }

    /** What was recorded after the first k steps still is. */
    lemma Remembers(k: nat)
      requires Valid() && k <= |steps|
      ensures Keeps(Run(maxSize, steps[..k]), Value())
    {
      NothingIsLost(maxSize, steps, k);
    }
  }

  ghost predicate SavedOnce(maxSize: int, steps: seq<Step>, s: State) {
    && (forall j, k :: 0 <= j < k < |s.saves| ==> s.saves[j].id != s.saves[k].id)
    && (forall k :: 0 <= k < |s.saves| ==> LeftFull(maxSize, steps, s.saves[k].id) && s.saves[k].id !in s.uploads)
    && (forall id :: id in s.completed ==> id !in s.uploads && HandedOver(s, id))
  }

  lemma {:induction false} RunSavesOnce(maxSize: int, steps: seq<Step>)
    ensures SavedOnce(maxSize, steps, Run(maxSize, steps))
  {
    hide LeftFull, Next;
    SavedOnceAndFull(maxSize, steps);
    var s := Run(maxSize, steps);
    forall k | 0 <= k < |s.saves| ensures HandedOver(s, s.saves[k].id) {
      assert IsSaved(s, s.saves[k].id);
    }
  }

  lemma RunTakes(maxSize: int, steps: seq<Step>, step: Step)
    ensures Run(maxSize, steps + [step]) == Next(Run(maxSize, steps), step)
  {
    assert Front(steps + [step]) == steps;
  }

  /** What the limited reader delivers of a body: one byte too many at most, and nothing when the limit has wrapped. */
  function Sent(remaining: int, body: seq<byte>): (sent: seq<byte>)
    ensures 0 <= remaining < MAX_INT64 ==> sent == if |body| <= remaining then body else body[..remaining + 1]
    ensures remaining < 0 || remaining == MAX_INT64 ==> sent == []
    ensures sent == [] || |sent| <= Limit(remaining)
  {
    var limit := Limit(remaining);
    if limit <= 0 then [] else if |body| > limit then body[..limit] else body
  }

  /** An append from the lookup of its session on. */
  function Appended(op: Op, u: Upload, remaining: int, body: Body): Effect {
    if !u.live then Effect(Failed(op, [], false), u, false)
    else
      var sent := Sent(remaining, body.bytes);
      var written := u.session.(content := u.session.content + sent);
      if body.fails || |sent| > remaining || !body.synced then
        Effect(Failed(op, sent, !body.fails && |sent| > remaining), u.(session := written), false)
      else
        var n := |sent|;
        var pc := if op.Patch? then Recheck
                  else if u.session.length == 0 || n >= u.session.length then Finishing(n)
                  else Done(Accepted(n, None), []);
        Effect(pc, u.(session := written.(offset := u.session.offset + n)), false)
  }

  /** A finish from its first region on. */
  function Finished(u: Upload, offset: int, opens: bool, outcome: Option<FileID>): Effect {
    if !u.live then Effect(Done(if u.file.Some? then Accepted(offset, u.file) else InternalError, []), u, false)
    else if u.session.offset != u.session.length then Effect(Done(InternalError, []), u, false)
    else if !opens then Effect(Done(InternalError, []), u.(live := false), false)
    else if outcome.None? then Effect(Done(InternalError, []), u.(live := false), true)
    else Effect(Done(Accepted(offset, outcome), []), u.(live := false, file := outcome), true)
  }

  /** PATCH, for an upload that is live and stands at the offset it names. */
  function Patched(u: Upload, body: Body, opens: bool, outcome: Option<FileID>): Effect
    requires u.live
  {
    var e := Appended(Patch, u, u.session.length - u.session.offset, body);
    var session := e.upload.session;
    if e.pc.Done? then e
    else if session.offset < session.length then e.(pc := Done(Accepted(session.offset, None), []))
    else Finished(e.upload, session.offset, opens, outcome)
  }

  /** What a PATCH with no other request in between does to the handler, and answers. */
  ghost predicate PatchServed(s: State, t: State, id: Id, want: int, body: Body, opens: bool, outcome: Option<FileID>,
                              reply: Reply) {
    var r := |s.requests|;
    if !(id in s.uploads && id in s.sessions) then
      && reply == (if id in s.completed then AlreadyComplete else NotFound)
      && t == s.(requests := s.requests + [Request(Patch, id, Done(reply, []))])
    else if want != s.sessions[id].offset then
      && reply == OffsetMismatch(s.sessions[id].offset)
      && t == s.(requests := s.requests + [Request(Patch, id, Done(reply, []))])
    else
      var e := Patched(UploadOf(s, id), body, opens, outcome);
      && e.pc.Done? && reply == e.pc.reply
      && t == Apply(s.(requests := s.requests + [Request(Patch, id, Lookup(s.sessions[id].length - want))]), r, e)
  }

  /** Creation, once the upload is registered. */
  function Created(u: Upload, content: Content, opens: bool, outcome: Option<FileID>): Effect
    requires u.live
  {
    match content
    case NoContent =>
      if u.session.length == 0 then Finished(u, 0, opens, outcome) else Effect(Done(Accepted(0, None), []), u, false)
    case Content(octetStream, body) =>
      if !octetStream then Effect(Done(UnsupportedMedia, []), u.(live := false), false)
      else
        var e := Appended(Create, u, u.session.length, body);
        if e.pc.Aborting? then Effect(Done(e.pc.reply, e.pc.lost), e.upload.(live := false), false)
        else if e.pc.Finishing? then Finished(e.upload, e.pc.offset, opens, outcome)
        else e
  }

  /** What a creation with no other request in between does to the handler, and answers. */
  ghost predicate CreateServed(s: State, t: State, id: Id, length: int, name: string, contentType: string,
                               content: Content,
                               opens: bool, outcome: Option<FileID>, reply: Option<Reply>) {
    if !Creatable(s, id, length) then t == s && reply == None
    else
      var session := Session(length, 0, [], name, contentType);
      var e := Created(Upload(session, true, None), content, opens, outcome);
      && e.pc.Done? && reply == Some(e.pc.reply)
      && t == Apply(CreationBegun(s, id, session, content), |s.requests|, e)
  }

  function CreationBegun(s: State, id: Id, session: Session, content: Content): State {
    var pc := FirstPc(session.length, content.Content?, content.Content? && content.octetStream);
    s.(sessions := s.sessions[id := session], uploads := s.uploads + {id},
       requests := s.requests + [Request(Create, id, pc)])
  }

  lemma CreationBegins(s: State, id: Id, length: int, name: string, contentType: string, content: Content)
    ensures var t := Next(s, Step.BeginCreate(id, length, name, contentType, content.Content?,
                                              content.Content? && content.octetStream));
      var session := Session(length, 0, [], name, contentType);
      && (!Creatable(s, id, length) ==> t == s)
      && (Creatable(s, id, length) ==>
            && t == CreationBegun(s, id, session, content)
            && (id !in s.completed ==> UploadOf(t, id) == Upload(session, true, None)))
  {
  }

  lemma CreationStands(s: State, id: Id, session: Session, content: Content)
    ensures var t, r := CreationBegun(s, id, session, content), |s.requests|;
      && r < |t.requests| && t.requests[r].id == id && id in t.uploads && id in t.sessions && t.sessions[id] == session
      && t.requests[r] == Request(Create, id, FirstPc(session.length, content.Content?,
                                                      content.Content? && content.octetStream))
  {
  }

  lemma AppendedCreate(u: Upload, remaining: int, body: Body)
    ensures var e := Appended(Create, u, remaining, body);
      (e.pc.Done? || ((e.pc.Finishing? || e.pc.Aborting?))) && e.upload.live == u.live && e.upload.file == u.file
          && !e.saves
  {
  }

  lemma AppendedPatch(u: Upload, remaining: int, body: Body)
    ensures var e := Appended(Patch, u, remaining, body);
      (e.pc.Done? || (e.pc == Recheck && u.live)) && e.upload.live == u.live && e.upload.file == u.file && !e.saves
  {
  }

  lemma FinishedIsDone(u: Upload, offset: int, opens: bool, outcome: Option<FileID>)
    ensures var e := Finished(u, offset, opens, outcome);
      e.pc.Done? && (e.upload.live ==> u.live) && (e.upload.file.None? ==> u.file.None?)
          && e.upload.session == u.session
  {
  }

  lemma PatchBegins(s: State, id: Id, want: int)
    ensures var t := Next(s, Step.BeginPatch(id, want));
      t == s.(requests := s.requests + [Request(Patch, id, PatchPc(s, id, want))]) && t.requests[|s.requests|].id == id
  {
  }

  lemma Asked(s: State, r: nat)
    requires r < |s.requests| && s.requests[r].pc.Missing?
    ensures var reply := if s.requests[r].id in s.completed then AlreadyComplete else NotFound;
      Next(s, Step.AskCompleted(r)) == s.(requests := s.requests[r := s.requests[r].(pc := Done(reply, []))])
  {
  }

  lemma AppendedAffects(s: State, r: nat, body: Body)
    requires r < |s.requests| && s.requests[r].pc.Lookup? && s.requests[r].id in s.sessions
    ensures var u := UploadOf(s, s.requests[r].id);
      Affects(s, r, Appended(s.requests[r].op, u, s.requests[r].pc.remaining, body))
  {
  }

  /**
   * What the client learns from a PATCH: it is accepted up to an offset exactly if its whole body fits and is
   * staged, and the offset then counts it; it names a file exactly if that fills the upload and the writer saved
   * it; a chunk that is refused leaves the offset where it was.
   */
  lemma PatchAnswers(u: Upload, body: Body, opens: bool, outcome: Option<FileID>)
    requires u.live && 0 <= u.session.offset <= u.session.length && u.session.length - u.session.offset < MAX_INT64
    ensures var e, reached := Patched(u, body, opens, outcome), u.session.offset + |body.bytes|;
      var staged := !body.fails && body.synced && reached <= u.session.length;
      && e.pc.Done?
      && (staged ==> e.upload.session == u.session.(content := u.session.content + body.bytes, offset := reached))
      && (staged && reached < u.session.length ==> e.pc.reply == Accepted(reached, None) && e.upload.live && !e.saves)
      && (staged && reached == u.session.length ==>
            && !e.upload.live && (e.saves <==> opens)
            && e.pc.reply == (if opens && outcome.Some? then Accepted(reached, outcome) else InternalError)
            && e.upload.file == (if opens && outcome.Some? then outcome else u.file))
      && (!staged ==>
            && e.pc.reply == (if !body.fails && reached > u.session.length then TooLarge else InvalidChunk)
            && e.upload.session.offset == u.session.offset && e.upload.live && !e.saves
            && e.upload.session.content == u.session.content + e.pc.lost)
  {
    assert u.session.content + [] == u.session.content;
  }

  /**
   * What the client learns from a creation: an upload that lost its first chunk is gone, any other stands at
   * its offset.
   */
  lemma CreationAnswers(session: Session, content: Content, opens: bool, outcome: Option<FileID>)
    requires session.content == [] && session.offset == 0 <= session.length < MAX_INT64
    ensures var e := Created(Upload(session, true, None), content, opens, outcome);
      var bytes := if content.Content? then content.body.bytes else [];
      var staged := content.Content? ==>
                      content.octetStream && !content.body.fails && content.body.synced && |bytes| <= session.length;
      && e.pc.Done?
      && (staged && |bytes| < session.length ==> e.pc.reply == Accepted(|bytes|, None) && e.upload.live && !e.saves)
      && (staged && |bytes| == session.length ==>
            && !e.upload.live && (e.saves <==> opens)
            && e.pc.reply == (if opens && outcome.Some? then Accepted(|bytes|, outcome) else InternalError))
      && (staged ==> e.upload.session == session.(content := bytes, offset := |bytes|))
      && (!staged ==>
            && !e.upload.live && !e.saves && e.upload.session.offset == 0
            && e.pc.reply == (if content.octetStream then InvalidChunk else UnsupportedMedia))
  {
    assert content.Content? ==> [] + content.body.bytes == content.body.bytes;
  }

  // One request, step after step ---------------------------------------------------

  /** e is an effect of request r on the state s. */
  ghost predicate Affects(s: State, r: nat, e: Effect) {
    && r < |s.requests| && s.requests[r].id in s.sessions
    && (e.upload.live ==> s.requests[r].id in s.uploads)
    && (e.upload.file.None? ==> s.requests[r].id !in s.completed)
  }

  lemma Still(s: State, r: nat)
    requires r < |s.requests| && s.requests[r].id in s.sessions
    ensures var e := Effect(s.requests[r].pc, UploadOf(s, s.requests[r].id), false);
      Affects(s, r, e) && Apply(s, r, e) == s
  {
  }

  /** The first event of a request. */
  lemma Stand(s: State, r: nat, event: Event) returns (e: Effect)
    requires Enabled(s, r, event)
    ensures e == EffectOf(s, r, event) && Affects(s, r, e) && Next(s, Advance(r, event)) == Apply(s, r, e)
  {
    e := EffectOf(s, r, event);
    Effects(s.requests[r].op, s.requests[r].pc, UploadOf(s, s.requests[r].id), event);
  }

  lemma AfterEffect(s: State, r: nat, e: Effect)
    requires Affects(s, r, e)
    ensures UploadOf(Apply(s, r, e), s.requests[r].id) == e.upload
    ensures r < |Apply(s, r, e).requests|
    ensures Apply(s, r, e).requests[r] == s.requests[r].(pc := e.pc)
  {
  }

  lemma ApplyTwice(s: State, r: nat, e: Effect, f: Effect)
    requires Affects(s, r, e) && (f.upload.live ==> e.upload.live) && (f.upload.file.None? ==> e.upload.file.None?)
    requires e.saves ==> !f.saves && f.upload.session == e.upload.session
    ensures Apply(Apply(s, r, e), r, f) == Apply(s, r, f.(saves := e.saves || f.saves))
    ensures Affects(s, r, f.(saves := e.saves || f.saves))
  {
  }

  /** One more event of a request that has had the effect e so far. */
  lemma Chain(s: State, r: nat, e: Effect, event: Event) returns (f: Effect)
    requires Affects(s, r, e) && Fits(e.pc, event)
    requires e.saves ==> event.Record?
    ensures var next := Act(s.requests[r].op, e.pc, e.upload, event);
      f == next.(saves := e.saves || next.saves)
    ensures Affects(s, r, f) && Enabled(Apply(s, r, e), r, event)
    ensures Next(Apply(s, r, e), Advance(r, event)) == Apply(s, r, f)
  {
    hide Act, Apply;
    var next := Act(s.requests[r].op, e.pc, e.upload, event);
    f := next.(saves := e.saves || next.saves);
    AfterEffect(s, r, e);
    Effects(s.requests[r].op, e.pc, e.upload, event);
    RecordOnlyRecords(s.requests[r].op, e.pc, e.upload, event);
    ApplyTwice(s, r, e, next);
    assert Apply(s, r, e).requests[r].id in Apply(s, r, e).sessions by { AfterIsKnown(s, r, e); }
  }

  lemma AfterIsKnown(s: State, r: nat, e: Effect)
    requires Affects(s, r, e)
    ensures s.requests[r].id in Apply(s, r, e).sessions && r < |Apply(s, r, e).requests|
  {
  }

  lemma RecordOnlyRecords(op: Op, pc: Pc, u: Upload, event: Event)
    requires Fits(pc, event)
    ensures event.Record? ==> !Act(op, pc, u, event).saves && Act(op, pc, u, event).upload.session == u.session
    ensures Act(op, pc, u, event).upload.file.None? ==> u.file.None?
  {
  }
}
