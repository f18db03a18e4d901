/** The store itself: its directory, its metadata map, and the regions of code it runs under its mutex. */
module TempFileStore {
  import opened Prelude
  import opened TempFileProtocol
  import opened TempFileSafety

  class Store {
    const owned: bool
    ghost const others: map<Id, seq<byte>> // the files that were there before
    var closed: bool
    var files: map<Id, seq<byte>>      // every file ever made; an open file outlives its name
    var names: set<Id>                 // the directory
    var metadata: map<Id, Metadata>
    var saved: map<Id, Saved>          // what Save has answered
    var requests: seq<Request>         // the calls being served, and where each of them stands
    ghost var steps: seq<Step>         // what happened so far

    ghost function Value(): State
      reads this
    {
      State(owned, closed, files, names, metadata, saved, requests)
    }

    /** The store is where its steps lead. */
    ghost predicate Valid()
      reads this
    {
      Value() == Run(Init(owned, others), steps)
    }

    /** The step, and no other, was taken. */
    twostate predicate Took(step: Step)
      reads this
    {
      Valid() && steps == old(steps) + [step] && Value() == Next(old(Value()), step)
    }

    constructor (owned: bool, others: map<Id, seq<byte>>)
      ensures Valid() && Value() == Init(owned, others) && steps == [] && this.owned == owned
    {
      this.owned, this.others, closed := owned, others, false;
      files, names, metadata, saved, requests, steps := others, others.Keys, map[], map[], [], [];
    }

    /** Records the step that is about to be taken. */
    ghost method Log(step: Step)
      requires Valid()
      modifies this`steps
      ensures steps == old(steps) + [step] && Run(Init(owned, others), steps) == Next(old(Value()), step)
    {
      RunTakes(Init(owned, others), steps, step);
      steps := steps + [step];
    }

    method Continue(r: nat, pc: Pc)
      requires r < |requests|
      modifies this`requests
      ensures requests == old(requests)[r := old(requests)[r].(pc := pc)]
    {
      requests := requests[r := requests[r].(pc := pc)];
    }

    // Save --------------------------------------------------------------------

    method BeginSave(name: string, contentType: string)
      requires Valid()
      modifies this
      ensures Took(Step.BeginSave(name, contentType))
    {
      hide Run;
      Log(Step.BeginSave(name, contentType));
      requests := requests + [Request(Call.Save(name, contentType), "",
                                      if closed then SaveDone(None) else Allocating(0))];
    }

    /** O_CREATE | O_EXCL: the file is new, or there is another attempt. */
    method Allocate(r: nat, id: Id)
      requires Valid() && Enabled(Value(), r, Event.Allocate(id))
      modifies this
      ensures Took(Advance(r, Event.Allocate(id)))
    {
      AllocateStep(Value(), r, id);
      hide Run, Next, Enabled;
      Log(Advance(r, Event.Allocate(id)));
      var pc;
      if id in names {
        var attempt := requests[r].pc.attempt + 1;
        pc := if attempt < MAX_ATTEMPTS then Allocating(attempt) else SaveDone(None);
      } else {
        names := names + {id};
        files := files[id := []];
        pc := Copying([]);
      }
      requests := requests[r := Request(requests[r].call, id, pc)];
    }

    /** Neither a name nor, for another reason than that it is taken, a file can be had. */
    method FailAllocation(r: nat)
      requires Valid() && Enabled(Value(), r, AllocateFails)
      modifies this
      ensures Took(Advance(r, AllocateFails))
    {
      hide Run;
      Log(Advance(r, AllocateFails));
      Continue(r, SaveDone(None));
    }

    method Write(r: nat, bytes: seq<byte>)
      requires Valid() && Enabled(Value(), r, Event.Write(bytes))
      modifies this
      ensures Took(Advance(r, Event.Write(bytes)))
    {
      hide Run;
      Log(Advance(r, Event.Write(bytes)));
      var id := requests[r].id;
      files := files[id := files[id] + bytes];
      Continue(r, Copying(requests[r].pc.taken + bytes));
    }

    method FailCopy(r: nat, bytes: seq<byte>)
      requires Valid() && Enabled(Value(), r, CopyFails(bytes))
      modifies this
      ensures Took(Advance(r, CopyFails(bytes)))
    {
      FailCopyStep(Value(), r, bytes);
      hide Run, Next, Enabled;
      Log(Advance(r, CopyFails(bytes)));
      var id := requests[r].id;
      files := files[id := files[id] + bytes];
      Continue(r, Removing);
    }

    method EndCopy(r: nat)
      requires Valid() && Enabled(Value(), r, CopyEnds)
      modifies this
      ensures Took(Advance(r, CopyEnds))
    {
      hide Run;
      Log(Advance(r, CopyEnds));
      Continue(r, Committing(requests[r].pc.taken));
    }

    method Commit(r: nat)
      requires Valid() && Enabled(Value(), r, Event.Commit)
      modifies this
      ensures Took(Advance(r, Event.Commit))
    {
      CommitSteps(Value(), r);
      hide Run, Next, Enabled;
      Log(Advance(r, Event.Commit));
      if closed {
        Continue(r, Removing);
        return;
      }
      var request := requests[r];
      var answer := Metadata(request.id, request.call.name, request.call.contentType, |request.pc.taken|);
      metadata := metadata[request.id := answer];
      saved := saved[request.id := Saved(request.pc.taken, answer)];
      Continue(r, SaveDone(Some(answer)));
    }

    method Remove(r: nat, ok: bool)
      requires Valid() && Enabled(Value(), r, Event.Remove(ok))
      modifies this
      ensures Took(Advance(r, Event.Remove(ok)))
    {
      RemoveStep(Value(), r, ok);
      hide Run, Next, Enabled;
      Log(Advance(r, Event.Remove(ok)));
      if ok {
        names := names - {requests[r].id};
      }
      Continue(r, SaveDone(None));
    }

    // Open --------------------------------------------------------------------

    method BeginOpen(id: Id)
      requires Valid()
      modifies this
      ensures Took(Step.BeginOpen(id))
    {
      hide Run;
      Log(Step.BeginOpen(id));
      requests := requests + [Request(Call.Open(id in saved), id,
                                      if closed || !ValidPath(id) then OpenDone(None) else Opening)];
    }

    method OpenFile(r: nat, ok: bool)
      requires Valid() && Enabled(Value(), r, Event.OpenFile(ok))
      modifies this
      ensures Took(Advance(r, Event.OpenFile(ok)))
    {
      OpenFileSteps(Value(), r, ok);
      hide Run, Next, Enabled;
      Log(Advance(r, Event.OpenFile(ok)));
      if requests[r].id in names && ok {
        Continue(r, LookingUp);
      } else {
        Continue(r, OpenDone(None));
      }
    }

    method Lookup(r: nat)
      requires Valid() && Enabled(Value(), r, Event.Lookup)
      modifies this
      ensures Took(Advance(r, Event.Lookup))
    {
      LookupSteps(Value(), r);
      hide Run, Next, Enabled;
      Log(Advance(r, Event.Lookup));
      if requests[r].id in metadata {
        Continue(r, OpenDone(Some(metadata[requests[r].id])));
      } else {
        Continue(r, Stating);
      }
    }

    method Stat(r: nat, ok: bool)
      requires Valid() && Enabled(Value(), r, Event.Stat(ok))
      modifies this
      ensures Took(Advance(r, Event.Stat(ok)))
    {
      hide Run;
      Log(Advance(r, Event.Stat(ok)));
      var id := requests[r].id;
      if !ok {
        Continue(r, OpenDone(None));
        return;
      }
      Continue(r, OpenDone(Some(Metadata(id, id, "", |files[id]|))));
    }

    // Delete, Close -------------------------------------------------------------

    method BeginDelete(id: Id)
      requires Valid()
      modifies this
      ensures Took(Step.BeginDelete(id))
    {
      hide Run;
      Log(Step.BeginDelete(id));
      requests := requests + [Request(Call.Delete, id,
                                      if closed || !ValidPath(id) then DeleteDone(false) else Unlinking)];
    }

    method Unlink(r: nat, ok: bool)
      requires Valid() && Enabled(Value(), r, Event.Unlink(ok))
      modifies this
      ensures Took(Advance(r, Event.Unlink(ok)))
    {
      UnlinkSteps(Value(), r, ok);
      hide Run, Next, Enabled;
      Log(Advance(r, Event.Unlink(ok)));
      var id := requests[r].id;
      if id in names && ok {
        names := names - {id};
        Continue(r, Forgetting);
      } else {
        Continue(r, DeleteDone(false));
      }
    }

    method Forget(r: nat)
      requires Valid() && Enabled(Value(), r, Event.Forget)
      modifies this
      ensures Took(Advance(r, Event.Forget))
    {
      ForgetSteps(Value(), r);
      hide Run, Next, Enabled;
      Log(Advance(r, Event.Forget));
      metadata := metadata - {requests[r].id};
      Continue(r, DeleteDone(true));
    }

    /** A second Close does nothing; the first removes from a directory of its own what can be removed. */
    method Close(gone: set<Id>)
      requires Valid()
      modifies this
      ensures Valid() && closed && old(steps) <= steps && (old(closed) ==> unchanged(this))
      ensures Value() == old(Value()).(closed := true,
                                       names := if owned && !old(closed) then old(names) - gone else old(names))
    {
      hide Run;
      if closed { return; }
      TakeClose();
      if !owned { return; }
      TakeRemoval(gone);
    }

    method TakeClose()
      requires Valid()
      modifies this
      ensures Took(Step.Close)
    {
      hide Run;
      Log(Step.Close);
      closed := true;
    }

    method TakeRemoval(gone: set<Id>)
      requires Valid() && closed && owned
      modifies this
      ensures Took(RemoveAll(gone))
    {
      hide Run;
      Log(RemoveAll(gone));
      names := names - gone;
    }

    // Whole calls, with no other in between ---------------------------------------

    /** The retry loop: up to eight names are tried. */
    method AllocateAny(r: nat, tries: seq<Try>)
      requires Valid() && r < |requests| && requests[r].call.Save? && requests[r].pc == Allocating(0)
      requires |tries| == 8 && AreFresh(tries, files, names)
      modifies this
      ensures Valid() && old(steps) <= steps && r < |requests|
      ensures var n := FirstSettled(old(names), tries);
        if n == |tries| || tries[n].Failure? then
          && Value() == old(Value()).(requests := requests)
          && requests == old(requests)[r := Request(old(requests)[r].call, requests[r].id, SaveDone(None))]
        else
          Value() == old(Value()).(files := old(files)[tries[n].id := []], names := old(names) + {tries[n].id},
                                   requests := old(requests)[r :=
                                     Request(old(requests)[r].call, tries[n].id, Copying([]))])
    {
      hide Next, Run;
      var attempt := 0;
      while attempt < MAX_ATTEMPTS
        invariant 0 <= attempt <= MAX_ATTEMPTS <= |tries| && attempt <= FirstSettled(old(names), tries)
        invariant Valid() && old(steps) <= steps
        invariant Value() == old(Value()).(requests := requests) && r < |requests| == |old(requests)|
        invariant var pc := if attempt < MAX_ATTEMPTS then Allocating(attempt) else SaveDone(None);
          requests == old(requests)[r := Request(old(requests)[r].call, requests[r].id, pc)]
      {
        if tries[attempt].Failure? {
          FailureStep(Value(), r);
          FailAllocation(r);
          return;
        }
        AllocateStep(Value(), r, tries[attempt].id);
        Allocate(r, tries[attempt].id);
        if requests[r].pc.Copying? { return; }
        attempt := attempt + 1;
      }
    }

    /** io.Copy into the new file, piece by piece. */
    method Copy(r: nat, chunks: seq<seq<byte>>)
      requires Valid() && r < |requests| && requests[r].pc == Copying([]) && Get(files, requests[r].id) == Some([])
      modifies this
      ensures Valid() && old(steps) <= steps
      ensures Value() == Copied(old(Value()), r, Concat(chunks))
    {
      hide Next, Run;
      CopiedNothing(Value(), r);
      for k := 0 to |chunks|
        invariant Valid() && old(steps) <= steps
        invariant Value() == Copied(old(Value()), r, Concat(chunks[..k]))
      {
        CopyStep(old(Value()), r, Concat(chunks[..k]), chunks[k]);
        assert Front(chunks[..k + 1]) == chunks[..k];
        Write(r, chunks[k]);
      }
      assert chunks[..|chunks|] == chunks;
    }

    /**
     * The first free name gets the bytes and the metadata. A Save that fails promises nothing, and leaves no
     * name behind unless even the removal fails.
     */
    method Save(name: string, contentType: string, cancelled: bool, tries: seq<Try>, chunks: seq<seq<byte>>,
                ending: Ending)
      returns (answer: Option<Metadata>)
      requires Valid() && |tries| == 8 && AreFresh(tries, files, names)
      modifies this
      ensures Valid() && old(steps) <= steps && old(requests) <= requests
      ensures var n := FirstSettled(old(names), tries);
        if cancelled || old(closed) || n == |tries| || tries[n].Failure? then
          answer == None && Value() == old(Value()).(requests := requests)
        else if ending.Fails? then
          && answer == None
          && Value() == old(Value()).(requests := requests,
                                      files := old(files)[tries[n].id := Concat(chunks) + ending.written],
                                      names := if ending.removed then old(names) else old(names) + {tries[n].id})
        else
          && answer == Some(Metadata(tries[n].id, name, contentType, |Concat(chunks)|))
          && Value() == old(Value()).(requests := requests, files := old(files)[tries[n].id := Concat(chunks)],
                                      names := old(names) + {tries[n].id},
                                      metadata := old(metadata)[tries[n].id := answer.value],
                                      saved := old(saved)[tries[n].id := Saved(Concat(chunks), answer.value)])
    {
      hide Concat, FirstSettled, Next, Enabled, Run;
      if cancelled { return None; }
      var r := |requests|;
      SaveBegins(Value(), name, contentType);
      BeginSave(name, contentType);
      if closed { return None; }
      AllocateAny(r, tries);
      if requests[r].pc.SaveDone? { return None; }
      answer := Fill(r, chunks, ending);
    }

    /** Save, once it has its file. */
    method Fill(r: nat, chunks: seq<seq<byte>>, ending: Ending) returns (answer: Option<Metadata>)
      requires Valid() && r < |requests| && requests[r].call.Save? && requests[r].pc == Copying([]) && !closed
      requires Get(files, requests[r].id) == Some([])
      modifies this
      ensures Valid() && old(steps) <= steps
      ensures |requests| == |old(requests)| && requests[..r] == old(requests[..r])
      ensures var request := old(requests)[r];
        var written := old(files)[request.id := Concat(chunks)];
        if ending.Fails? then
          && answer == None
          && Value() == old(Value()).(requests := requests,
                                      files := written[request.id := Concat(chunks) + ending.written],
                                      names := if ending.removed then old(names) - {request.id} else old(names))
        else
          && answer == Some(Metadata(request.id, request.call.name, request.call.contentType, |Concat(chunks)|))
          && Value() == old(Value()).(requests := requests, files := written,
                                      metadata := old(metadata)[request.id := answer.value],
                                      saved := old(saved)[request.id := Saved(Concat(chunks), answer.value)])
    {
      hide Concat, Next, Enabled, Run;
      Copy(r, chunks);
      match ending {
        case Fails(written, removed) => answer := Drop(r, written, removed);
        case Succeeds => answer := Keep(r);
      }
    }

    /** The end of a Save whose copy failed. */
    method Drop(r: nat, written: seq<byte>, removed: bool) returns (answer: Option<Metadata>)
      requires Valid() && r < |requests| && requests[r].pc.Copying? && requests[r].id in files
      modifies this
      ensures Valid() && old(steps) <= steps
      ensures |requests| == |old(requests)| && requests[..r] == old(requests[..r])
      ensures var id := old(requests)[r].id;
        Value() == old(Value()).(requests := requests, files := old(files)[id := old(files)[id] + written],
                                 names := if removed then old(names) - {id} else old(names))
      ensures answer == None
    {
      DropSteps(Value(), r, written, removed);
      hide Next, Enabled, Run;
      FailCopy(r, written);
      Remove(r, removed);
      answer := None;
    }

    /** The end of a Save whose copy succeeded. */
    method Keep(r: nat) returns (answer: Option<Metadata>)
      requires Valid() && r < |requests| && requests[r].pc.Copying? && requests[r].id in files
      requires requests[r].call.Save? && !closed
      modifies this
      ensures Valid() && old(steps) <= steps
      ensures |requests| == |old(requests)| && requests[..r] == old(requests[..r])
      ensures var request := old(requests)[r];
        && answer == Some(Metadata(request.id, request.call.name, request.call.contentType, |request.pc.taken|))
        && Value() == old(Value()).(requests := requests,
                                    metadata := old(metadata)[request.id := answer.value],
                                    saved := old(saved)[request.id := Saved(request.pc.taken, answer.value)])
    {
      KeepSteps(Value(), r);
      hide Next, Enabled, Run;
      EndCopy(r);
      Commit(r);
      answer := requests[r].pc.saved;
    }

    /**
     * Open as one piece: the file under the name, with the metadata the store has or what the directory says.
     * For an id Save has returned these are the bytes saved, and their number; unless someone gave the file up,
     * only the operating system can refuse it.
     */
    method ServeOpen(id: Id, opens: bool, stats: bool) returns (answer: Option<Opened>)
      requires Valid()
      modifies this
      ensures Valid() && old(steps) <= steps && Value() == old(Value()).(requests := requests)
      ensures answer.Some? <==> !closed && ValidPath(id) && id in names && opens && (id in metadata || stats)
      ensures answer.Some? && id in saved ==>
                && answer.value.content == saved[id].content
                && answer.value.metadata.id == id && answer.value.metadata.size == |saved[id].content|
      ensures answer.Some? ==>
                && id in files && answer.value.content == files[id]
                && answer.value.metadata == if id in metadata then metadata[id] else Metadata(id, id, "", |files[id]|)
      ensures id in saved && !GivenUp(old(Value()), id) && !closed && opens ==>
                answer == Some(Opened(saved[id].metadata, saved[id].content))
    {
      hide Next, Run, Enabled, GivenUp;
      var r := |requests|;
      SavedInStore(id);
      OpenBegins(Value(), id);
      BeginOpen(id);
      if closed || !ValidPath(id) { return None; }
      OpenFileSteps(Value(), r, opens);
      OpenFile(r, opens);
      if !(id in names && opens) { return None; }
      LookupSteps(Value(), r);
      Lookup(r);
      if id !in metadata {
        StatSteps(Value(), r, stats);
        Stat(r, stats);
      }
      if requests[r].pc.found.None? { return None; }
      answer := Some(Opened(requests[r].pc.found.value, files[id]));
    }

    /** Delete as one piece: the name goes, and what the store knows of it. */
    method ServeDelete(id: Id, unlinks: bool) returns (ok: bool)
      requires Valid()
      modifies this
      ensures Valid() && old(steps) <= steps
      ensures ok <==> !old(closed) && ValidPath(id) && id in old(names) && unlinks
      ensures Value() == if ok then old(Value()).(requests := requests, names := old(names) - {id},
                                                  metadata := old(metadata) - {id})
                         else old(Value()).(requests := requests)
    {
      hide Next, Run, Enabled;
      var r := |requests|;
      DeleteBegins(Value(), id);
      BeginDelete(id);
      if closed || !ValidPath(id) { return false; }
      UnlinkSteps(Value(), r, unlinks);
      Unlink(r, unlinks);
      if requests[r].pc.DeleteDone? { return false; }
      ForgetSteps(Value(), r);
      Forget(r);
      ok := true;
    }

    // In every state of a store ----------------------------------------------------

    /** What is known of an id that Save has returned. */
    lemma SavedInStore(id: Id)
      requires Valid()
      ensures id in names ==> id in files
      ensures id in metadata ==> id in saved && metadata[id] == saved[id].metadata
      ensures id in saved ==>
                && id in files && files[id] == saved[id].content
                && saved[id].metadata.id == id && saved[id].metadata.size == |saved[id].content|
                && (!GivenUp(Value(), id) ==> id in names && id in metadata)
                && ValidPath(id)
    {
      if id in saved {
        SavedIsValidPath(owned, others, steps, id);
      }
      hide Run, Next, GivenUp;
      RunIsSound(owned, others, steps);
      SavedIsDurable(owned, others, steps);
      var s := Run(Init(owned, others), steps);
      assert id in saved ==> IsKept(s, id);
    }

    /** What Save promised in the first k steps is still promised; a closed store promises nothing new. */
    lemma Remembers(k: nat)
      requires Valid() && k <= |steps|
      ensures Keeps(Run(Init(owned, others), steps[..k]), Value())
    {
      SavedIsFinal(owned, others, steps, k);
    }
  }

  /** One attempt of Save to get a file: a random name, or an error. */
  datatype Try = Failure | Name(id: Id)

  /** How a copy ends: it fails, after some more bytes, and the file can be removed or not; or it succeeds. */
  datatype Ending = Fails(written: seq<byte>, removed: bool) | Succeeds

  datatype Opened = Opened(metadata: Metadata, content: seq<byte>)

  /** A name is hexadecimal. It may be that of a file that is there, never of one that is gone. */
  predicate AreFresh(tries: seq<Try>, files: map<Id, seq<byte>>, names: set<Id>) {
    forall k :: 0 <= k < |tries| && tries[k].Name? ==>
      IsFileID(tries[k].id) && (tries[k].id in files ==> tries[k].id in names)
  }

  /** The first attempt that does not meet a name that is taken; the number of attempts if all do. */
  function FirstSettled(names: set<Id>, tries: seq<Try>): (n: nat)
    ensures n <= |tries|
    ensures forall k :: 0 <= k < n ==> tries[k].Name? && tries[k].id in names
    ensures n < |tries| ==> tries[n].Failure? || tries[n].id !in names
  {
    if tries == [] then 0
    else
      var n := FirstSettled(names, Front(tries));
      if n < |tries| - 1 then n
      else if Last(tries).Name? && Last(tries).id in names then |tries|
      else |tries| - 1
  }

  lemma RunTakes(start: State, steps: seq<Step>, step: Step)
    ensures Run(start, steps + [step]) == Next(Run(start, steps), step)
  {
    assert Front(steps + [step]) == steps;
  }

  /** s when request r has copied so many bytes to its new file. */
  function Copied(s: State, r: nat, bytes: seq<byte>): State
    requires r < |s.requests|
  {
    s.(files := s.files[s.requests[r].id := bytes], requests := s.requests[r := s.requests[r].(pc := Copying(bytes))])
  }

  lemma CopiedNothing(s: State, r: nat)
    requires r < |s.requests| && s.requests[r].pc == Copying([]) && Get(s.files, s.requests[r].id) == Some([])
    ensures s == Copied(s, r, [])
  {
  }

  lemma CopyStep(s: State, r: nat, bytes: seq<byte>, more: seq<byte>)
    requires r < |s.requests|
    ensures Enabled(Copied(s, r, bytes), r, Event.Write(more))
    ensures Next(Copied(s, r, bytes), Advance(r, Event.Write(more))) == Copied(s, r, bytes + more)
  {
    SameEntry(Copied(s, r, bytes), s.requests[r].id);
  }

  lemma SaveBegins(s: State, name: string, contentType: string)
    ensures Next(s, Step.BeginSave(name, contentType)) ==
      s.(requests := s.requests + [Request(Call.Save(name, contentType), "",
                                           if s.closed then SaveDone(None) else Allocating(0))])
  {
  }

  lemma EndCopyStep(s: State, r: nat)
    requires r < |s.requests| && s.requests[r].pc.Copying?
    ensures Enabled(s, r, CopyEnds)
    ensures Next(s, Advance(r, CopyEnds))
            == s.(requests := s.requests[r := s.requests[r].(pc := Committing(s.requests[r].pc.taken))])
  {
    SameEntry(s, s.requests[r].id);
  }

  lemma SameEntry(s: State, id: Id)
    ensures Put(s.files, id, Get(s.files, id)) == s.files && Put(s.metadata, id, Get(s.metadata, id)) == s.metadata
    ensures Put(s.saved, id, Get(s.saved, id)) == s.saved
    ensures (if id in s.names then s.names + {id} else s.names - {id}) == s.names
  {
  }

  lemma CommitStep(s: State, r: nat)
    requires r < |s.requests| && s.requests[r].pc.Committing? && s.requests[r].call.Save? && !s.closed
    ensures Enabled(s, r, Event.Commit)
    ensures var request := s.requests[r];
      var answer := Metadata(request.id, request.call.name, request.call.contentType, |request.pc.taken|);
      Next(s, Advance(r, Event.Commit)) ==
        s.(metadata := s.metadata[request.id := answer],
           saved := s.saved[request.id := Saved(request.pc.taken, answer)],
           requests := s.requests[r := request.(pc := SaveDone(Some(answer)))])
  {
    SameEntry(s, s.requests[r].id);
  }

  lemma CommitSteps(s: State, r: nat)
    requires Enabled(s, r, Event.Commit)
    ensures var request := s.requests[r];
      && request.pc.Committing? && request.call.Save?
      && (s.closed ==> Next(s, Advance(r, Event.Commit)) == s.(requests := s.requests[r := request.(pc := Removing)]))
      && (!s.closed ==>
            var answer := Metadata(request.id, request.call.name, request.call.contentType, |request.pc.taken|);
            Next(s, Advance(r, Event.Commit)) ==
              s.(metadata := s.metadata[request.id := answer],
                 saved := s.saved[request.id := Saved(request.pc.taken, answer)],
                 requests := s.requests[r := request.(pc := SaveDone(Some(answer)))]))
  {
    SameEntry(s, s.requests[r].id);
    if !s.closed {
      CommitStep(s, r);
    }
  }

  lemma KeepSteps(s: State, r: nat)
    requires r < |s.requests| && s.requests[r].pc.Copying? && s.requests[r].call.Save? && !s.closed
    ensures var request := s.requests[r];
      var answer := Metadata(request.id, request.call.name, request.call.contentType, |request.pc.taken|);
      var t := Next(s, Advance(r, CopyEnds));
      && Enabled(s, r, CopyEnds) && Enabled(t, r, Event.Commit)
      && Next(t, Advance(r, Event.Commit)) ==
        s.(metadata := s.metadata[request.id := answer],
           saved := s.saved[request.id := Saved(request.pc.taken, answer)],
           requests := s.requests[r := request.(pc := SaveDone(Some(answer)))])
  {
    hide Next, Enabled;
    EndCopyStep(s, r);
    CommitStep(Next(s, Advance(r, CopyEnds)), r);
  }

  lemma FailCopyStep(s: State, r: nat, written: seq<byte>)
    requires r < |s.requests| && s.requests[r].pc.Copying? && s.requests[r].id in s.files
    ensures Enabled(s, r, CopyFails(written))
    ensures var id := s.requests[r].id;
      Next(s, Advance(r, CopyFails(written)))
      == s.(files := s.files[id := s.files[id] + written], requests := s.requests[r := s.requests[r].(pc := Removing)])
  {
    SameEntry(s, s.requests[r].id);
  }

  lemma RemoveStep(s: State, r: nat, removed: bool)
    requires r < |s.requests| && s.requests[r].pc.Removing?
    ensures Enabled(s, r, Event.Remove(removed))
    ensures Next(s, Advance(r, Event.Remove(removed))) ==
      s.(names := if removed then s.names - {s.requests[r].id} else s.names,
         requests := s.requests[r := s.requests[r].(pc := SaveDone(None))])
  {
    SameEntry(s, s.requests[r].id);
  }

  lemma DropSteps(s: State, r: nat, written: seq<byte>, removed: bool)
    requires r < |s.requests| && s.requests[r].pc.Copying? && s.requests[r].id in s.files
    ensures var id, t := s.requests[r].id, Next(s, Advance(r, CopyFails(written)));
      && Enabled(s, r, CopyFails(written)) && Enabled(t, r, Event.Remove(removed))
      && Next(t, Advance(r, Event.Remove(removed))) ==
        s.(files := s.files[id := s.files[id] + written], names := if removed then s.names - {id} else s.names,
           requests := s.requests[r := s.requests[r].(pc := SaveDone(None))])
  {
    hide Next, Enabled;
    FailCopyStep(s, r, written);
    RemoveStep(Next(s, Advance(r, CopyFails(written))), r, removed);
  }

  lemma FailureStep(s: State, r: nat)
    requires r < |s.requests| && s.requests[r].pc.Allocating?
    ensures Enabled(s, r, AllocateFails)
    ensures Next(s, Advance(r, AllocateFails)) == s.(requests := s.requests[r := s.requests[r].(pc := SaveDone(None))])
  {
    SameEntry(s, s.requests[r].id);
  }

  lemma OpenBegins(s: State, id: Id)
    ensures var pc := if s.closed || !ValidPath(id) then OpenDone(None) else Opening;
      Next(s, Step.BeginOpen(id)) == s.(requests := s.requests + [Request(Call.Open(id in s.saved), id, pc)])
  {
  }

  lemma OpenFileSteps(s: State, r: nat, opens: bool)
    requires r < |s.requests| && s.requests[r].pc.Opening?
    ensures Enabled(s, r, Event.OpenFile(opens))
    ensures var pc := if s.requests[r].id in s.names && opens then LookingUp else OpenDone(None);
      Next(s, Advance(r, Event.OpenFile(opens))) == s.(requests := s.requests[r := s.requests[r].(pc := pc)])
  {
    SameEntry(s, s.requests[r].id);
  }

  lemma LookupSteps(s: State, r: nat)
    requires r < |s.requests| && s.requests[r].pc.LookingUp?
    ensures Enabled(s, r, Event.Lookup)
    ensures var id := s.requests[r].id;
      var pc := if id in s.metadata then OpenDone(Some(s.metadata[id])) else Stating;
      Next(s, Advance(r, Event.Lookup)) == s.(requests := s.requests[r := s.requests[r].(pc := pc)])
  {
    SameEntry(s, s.requests[r].id);
  }

  lemma StatSteps(s: State, r: nat, stats: bool)
    requires r < |s.requests| && s.requests[r].pc.Stating? && s.requests[r].id in s.files
    ensures Enabled(s, r, Event.Stat(stats))
    ensures var id := s.requests[r].id;
      var pc := OpenDone(if stats then Some(StatMetadata(id, s.files[id])) else None);
      Next(s, Advance(r, Event.Stat(stats))) == s.(requests := s.requests[r := s.requests[r].(pc := pc)])
  {
    SameEntry(s, s.requests[r].id);
  }

  lemma DeleteBegins(s: State, id: Id)
    ensures var pc := if s.closed || !ValidPath(id) then DeleteDone(false) else Unlinking;
      Next(s, Step.BeginDelete(id)) == s.(requests := s.requests + [Request(Call.Delete, id, pc)])
  {
  }

  lemma UnlinkSteps(s: State, r: nat, unlinks: bool)
    requires r < |s.requests| && s.requests[r].pc.Unlinking?
    ensures Enabled(s, r, Event.Unlink(unlinks))
    ensures var id := s.requests[r].id;
      Next(s, Advance(r, Event.Unlink(unlinks))) ==
        if id in s.names && unlinks
        then s.(names := s.names - {id}, requests := s.requests[r := s.requests[r].(pc := Forgetting)])
        else s.(requests := s.requests[r := s.requests[r].(pc := DeleteDone(false))])
  {
    SameEntry(s, s.requests[r].id);
  }

  lemma ForgetSteps(s: State, r: nat)
    requires r < |s.requests| && s.requests[r].pc.Forgetting?
    ensures Enabled(s, r, Event.Forget)
    ensures var id := s.requests[r].id;
      Next(s, Advance(r, Event.Forget)) ==
        s.(metadata := s.metadata - {id}, requests := s.requests[r := s.requests[r].(pc := DeleteDone(true))])
  {
    SameEntry(s, s.requests[r].id);
  }

  lemma AllocateStep(s: State, r: nat, id: Id)
    requires r < |s.requests| && s.requests[r].call.Save? && s.requests[r].pc.Allocating?
            && (id in s.files ==> id in s.names) && IsFileID(id)
    ensures Enabled(s, r, Event.Allocate(id))
    ensures var call, attempt := s.requests[r].call, s.requests[r].pc.attempt + 1;
      Next(s, Advance(r, Event.Allocate(id))) ==
        if id in s.names
        then
          var pc := if attempt < MAX_ATTEMPTS then Allocating(attempt) else SaveDone(None);
          s.(requests := s.requests[r := Request(call, id, pc)])
        else s.(files := s.files[id := []], names := s.names + {id},
                requests := s.requests[r := Request(call, id, Copying([]))])
  {
  }
}
