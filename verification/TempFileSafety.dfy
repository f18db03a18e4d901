/** What every run of the file store keeps, however its calls interleave. */
module TempFileSafety {
  import opened Prelude
  import opened TempFileProtocol

  /** Request r is making the file id, or about to remove it again. */
  predicate Makes(s: State, r: int, id: Id) {
    && 0 <= r < |s.requests| && s.requests[r].id == id
    && (s.requests[r].pc.Copying? || s.requests[r].pc.Committing? || s.requests[r].pc.Removing?)
  }

  /** How a file being made stands. */
  predicate HasTaken(s: State, request: Request) {
    && request.id in s.files && request.id !in s.saved
    && (request.pc.Copying? || request.pc.Committing? ==> s.files[request.id] == request.pc.taken)
  }

  /** What an answer says of the id is true of what was saved. */
  predicate Answers(s: State, request: Request) {
    && (request.pc.SaveDone? && request.pc.saved.Some? ==>
          request.id in s.saved && s.saved[request.id].metadata == request.pc.saved.value)
    && (request.call.Open? && request.call.known ==> request.id in s.saved)
    && (request.call.Open? && request.call.known && request.pc.OpenDone? && request.pc.found.Some? ==>
          || request.pc.found.value == s.saved[request.id].metadata
          || request.pc.found.value == StatMetadata(request.id, s.saved[request.id].content))
  }

  predicate IsKept(s: State, id: Id)
    requires id in s.saved
  {
    && id in s.files && s.files[id] == s.saved[id].content
    && s.saved[id].metadata.id == id && s.saved[id].metadata.size == |s.saved[id].content|
  }

  /** The files and what the store knows of them. */
  ghost predicate SoundStore(s: State) {
    && (forall id :: id in s.names ==> id in s.files)
    && (forall id :: id in s.saved ==> IsKept(s, id))
    && (forall id :: id in s.metadata ==> id in s.saved && s.metadata[id] == s.saved[id].metadata)
  }

  /** No two requests make one file, and each knows what it wrote. */
  ghost predicate SoundMakers(s: State) {
    && (forall r, id :: Makes(s, r, id) ==> HasTaken(s, s.requests[r]))
    && (forall q, r, id :: Makes(s, q, id) && Makes(s, r, id) ==> q == r)
  }

  ghost predicate SoundAnswers(s: State) {
    forall r :: 0 <= r < |s.requests| ==> Answers(s, s.requests[r])
  }

  ghost predicate Sound(s: State) {
    SoundStore(s) && SoundMakers(s) && SoundAnswers(s)
  }

  lemma InitIsSound(owned: bool, others: map<Id, seq<byte>>)
    ensures Sound(Init(owned, others))
  {
  }

  lemma BeginIsSound(s: State, step: Step)
    requires Sound(s) && !step.Advance?
    ensures Sound(Next(s, step))
  {
    hide ValidPath;
    var t := Next(s, step);
    assert SoundStore(t);
    assert SoundMakers(t) by {
      hide Answers;
      assert forall r, id :: Makes(t, r, id) <==> Makes(s, r, id);
    }
    assert SoundAnswers(t) by {
      hide Makes, HasTaken;
    }
  }

  predicate Making(pc: Pc) {
    pc.Copying? || pc.Committing? || pc.Removing?
  }

  /** What every event does to its request and to the file of one name. */
  ghost predicate Lawful(call: Call, id: Id, pc: Pc, entry: Entry, e: Effect) {
    && (e.entry.file == entry.file || (pc.Copying? && entry.file.Some? && e.entry.file.Some?)
        || (pc.Allocating? && entry.file.None? && e.pc == Copying([])))
    && (e.entry.named ==> entry.named || e.entry.file.Some?)
    && (Making(e.pc) ==> Making(pc) || (pc.Allocating? && entry.file.None? && e.pc.Copying?))
    && ((e.pc.Copying? || e.pc.Committing?) && (pc.Copying? ==> entry.file == Some(pc.taken))
        ==> e.entry.file == Some(e.pc.taken))
    && (e.pc.OpenDone? && e.pc.found.Some? ==>
          e.pc.found == entry.metadata || (entry.file.Some? && e.pc.found == Some(StatMetadata(id, entry.file.value))))
    && (e.entry.saved != entry.saved ==> Commits(call, id, pc, e))
    && (e.entry.metadata != entry.metadata ==> e.entry.metadata.None? || Commits(call, id, pc, e))
    && (e.pc.SaveDone? && e.pc.saved.Some? ==> Commits(call, id, pc, e))
  }

  predicate Commits(call: Call, id: Id, pc: Pc, e: Effect) {
    && pc.Committing? && call.Save?
    && var metadata := Metadata(id, call.name, call.contentType, |pc.taken|);
    && e.pc == SaveDone(Some(metadata)) && e.entry.metadata == Some(metadata)
       && e.entry.saved == Some(Saved(pc.taken, metadata))
  }

  lemma ActIsLawful(call: Call, id: Id, closed: bool, pc: Pc, entry: Entry, event: Event)
    requires Fits(call, pc, entry, event)
    ensures Lawful(call, id, pc, entry, Act(call, id, closed, pc, entry, event))
    ensures (pc.Allocating? && call.Save?) || About(Request(call, id, pc), event) == id
  {
  }

  /** The effect e of request r on the name id is in order. */
  ghost predicate Steps(s: State, r: nat, id: Id, e: Effect) {
    && r < |s.requests| && Lawful(s.requests[r].call, id, s.requests[r].pc, EntryOf(s, id), e)
    && ((s.requests[r].pc.Allocating? && s.requests[r].call.Save?) || id == s.requests[r].id)
  }

  lemma StoreStaysSound(s: State, r: nat, id: Id, e: Effect)
    requires Sound(s) && Steps(s, r, id, e)
    ensures SoundStore(Apply(s, r, id, e))
  {
    hide Lawful, Answers, SoundAnswers;
    var t := Apply(s, r, id, e);
    assert SoundEntry(EntryOf(s, id), id);
    assert Making(s.requests[r].pc) ==> Makes(s, r, id);
    EntryStaysSound(s.requests[r].call, id, s.requests[r].pc, EntryOf(s, id), e);
    assert EntryOf(t, id) == e.entry;
    assert forall i :: i != id ==> EntryOf(t, i) == EntryOf(s, i);
  }

  ghost predicate SoundEntry(entry: Entry, id: Id) {
    && (entry.named ==> entry.file.Some?)
    && (entry.saved.Some? ==>
          && entry.file == Some(entry.saved.value.content)
          && entry.saved.value.metadata.id == id && entry.saved.value.metadata.size == |entry.saved.value.content|)
    && (entry.metadata.Some? ==> entry.saved.Some? && entry.metadata.value == entry.saved.value.metadata)
  }

  lemma EntryStaysSound(call: Call, id: Id, pc: Pc, entry: Entry, e: Effect)
    requires SoundEntry(entry, id) && Lawful(call, id, pc, entry, e)
    requires Making(pc) ==> entry.saved.None? && entry.file.Some?
    requires pc.Committing? ==> entry.file == Some(pc.taken)
    ensures SoundEntry(e.entry, id)
  {
  }

  lemma MakersStaySound(s: State, r: nat, id: Id, e: Effect)
    requires Sound(s) && Steps(s, r, id, e)
    ensures SoundMakers(Apply(s, r, id, e))
  {
    var t := Apply(s, r, id, e);
    assert Making(s.requests[r].pc) ==> Makes(s, r, s.requests[r].id);
    assert forall q, i :: Makes(t, q, i) && q != r ==> Makes(s, q, i);
    forall q, i | Makes(t, q, i) ensures HasTaken(t, t.requests[q]) {
      if q != r {
        assert HasTaken(s, s.requests[q]);
      }
    }
  }

  lemma AnswersStaySound(s: State, r: nat, id: Id, e: Effect)
    requires Sound(s) && Steps(s, r, id, e)
    ensures SoundAnswers(Apply(s, r, id, e))
  {
    assert Making(s.requests[r].pc) ==> Makes(s, r, s.requests[r].id);
  }

  lemma StepIsSound(s: State, step: Step)
    requires Sound(s)
    ensures Sound(Next(s, step))
  {
    hide Act, Apply, SoundStore, SoundMakers, SoundAnswers, Lawful;
    if !step.Advance? {
      BeginIsSound(s, step);
    } else if Enabled(s, step.r, step.event) {
      var request := s.requests[step.r];
      var id := About(request, step.event);
      var e := EffectOf(s, step.r, step.event);
      ActIsLawful(request.call, id, s.closed, request.pc, EntryOf(s, id), step.event);
      assert Steps(s, step.r, id, e);
      StoreStaysSound(s, step.r, id, e);
      MakersStaySound(s, step.r, id, e);
      AnswersStaySound(s, step.r, id, e);
    }
  }

  lemma {:induction false} RunIsSound(owned: bool, others: map<Id, seq<byte>>, steps: seq<Step>)
    ensures Sound(Run(Init(owned, others), steps))
  {
    hide Next, Sound;
    if steps == [] {
      InitIsSound(owned, others);
    } else {
      RunIsSound(owned, others, Front(steps));
      StepIsSound(Run(Init(owned, others), Front(steps)), Last(steps));
    }
  }

  // What was saved stays, and is what is opened ----------------------------------

  ghost predicate Keeps(s: State, t: State) {
    && (forall id :: id in s.saved ==> id in t.saved && t.saved[id] == s.saved[id])
    && (s.closed ==> t.closed && t.saved == s.saved)
    && |s.requests| <= |t.requests|
  }

  lemma AdvanceKeeps(s: State, r: nat, id: Id, e: Effect)
    requires Sound(s) && Steps(s, r, id, e)
    ensures forall i :: i in s.saved ==> i in Apply(s, r, id, e).saved && Apply(s, r, id, e).saved[i] == s.saved[i]
  {
    assert Making(s.requests[r].pc) ==> Makes(s, r, s.requests[r].id);
  }

  lemma ClosedSavesNothing(s: State, r: nat, event: Event)
    requires Enabled(s, r, event) && s.closed
    ensures Next(s, Advance(r, event)).saved == s.saved
  {
    var id := About(s.requests[r], event);
    assert EffectOf(s, r, event).entry.saved == Get(s.saved, id);
  }

  lemma StepKeeps(s: State, step: Step)
    requires Sound(s)
    ensures Keeps(s, Next(s, step))
  {
    hide Sound, Act, Lawful;
    if step.Advance? && Enabled(s, step.r, step.event) {
      var request := s.requests[step.r];
      var id := About(request, step.event);
      ActIsLawful(request.call, id, s.closed, request.pc, EntryOf(s, id), step.event);
      AdvanceKeeps(s, step.r, id, EffectOf(s, step.r, step.event));
      if s.closed {
        ClosedSavesNothing(s, step.r, step.event);
      }
    }
  }

  /** What Save has promised is promised for ever, and nothing new is promised after Close. */
  lemma {:induction false} SavedIsFinal(owned: bool, others: map<Id, seq<byte>>, steps: seq<Step>, k: nat)
    requires k <= |steps|
    ensures Keeps(Run(Init(owned, others), steps[..k]), Run(Init(owned, others), steps))
  {
    hide Next, Sound;
    if k == |steps| {
      assert steps[..k] == steps;
    } else {
      SavedIsFinal(owned, others, Front(steps), k);
      assert Front(steps)[..k] == steps[..k];
      RunIsSound(owned, others, Front(steps));
      StepKeeps(Run(Init(owned, others), Front(steps)), Last(steps));
    }
  }

  /** Whoever opens an id that Save returned gets the bytes Save promised, and their number as the size. */
  lemma {:induction false} OpenYieldsWhatWasSaved(owned: bool, others: map<Id, seq<byte>>, steps: seq<Step>, r: nat)
    requires var s := Run(Init(owned, others), steps);
      r < |s.requests| && s.requests[r].call == Open(true) && s.requests[r].pc.OpenDone? && s.requests[r].pc.found.Some?
    ensures var s := Run(Init(owned, others), steps);
      var id, metadata := s.requests[r].id, s.requests[r].pc.found.value;
      && id in s.saved && id in s.files && s.files[id] == s.saved[id].content
      && metadata.id == id && metadata.size == |s.saved[id].content|
  {
    hide Next;
    RunIsSound(owned, others, steps);
  }

  // What Save promises is what it read ---------------------------------------------

  /** The bytes an event adds to those the reader has delivered. */
  function Adds(event: Event): seq<byte> {
    if event.Write? then event.bytes else []
  }

  predicate Advances(s: State, step: Step, r: nat) {
    step.Advance? && step.r == r && Enabled(s, r, step.event)
  }

  /** The bytes that the reader of request r has delivered so far. */
  function Delivered(start: State, steps: seq<Step>, r: nat): seq<byte> {
    if steps == [] then []
    else
      var before := Delivered(start, Front(steps), r);
      if Advances(Run(start, Front(steps)), Last(steps), r) then before + Adds(Last(steps).event) else before
  }

  predicate Promises(s: State, request: Request, bytes: seq<byte>) {
    && (request.pc.Allocating? ==> bytes == [])
    && (request.pc.Copying? || request.pc.Committing? ==> request.pc.taken == bytes)
    && (request.pc.SaveDone? && request.pc.saved.Some? ==>
          && request.id in s.saved && s.saved[request.id].content == bytes
             && request.pc.saved.value == s.saved[request.id].metadata
          && request.call.Save? && request.pc.saved.value
             == Metadata(request.id, request.call.name, request.call.contentType, |bytes|))
  }

  lemma ActPromises(call: Call, id: Id, closed: bool, pc: Pc, entry: Entry, event: Event, bytes: seq<byte>)
    requires Fits(call, pc, entry, event)
    requires (pc.Allocating? ==> bytes == []) && (pc.Copying? || pc.Committing? ==> pc.taken == bytes)
    ensures var e := Act(call, id, closed, pc, entry, event);
      && (e.pc.Allocating? ==> bytes + Adds(event) == [])
      && (e.pc.Copying? || e.pc.Committing? ==> e.pc.taken == bytes + Adds(event))
      && (e.pc.SaveDone? && e.pc.saved.Some? ==> Commits(call, id, pc, e) && pc.taken == bytes + Adds(event))
  {
  }

  lemma AdvancePromises(s: State, r: nat, event: Event, bytes: seq<byte>)
    requires Enabled(s, r, event) && Promises(s, s.requests[r], bytes)
    ensures var t := Next(s, Advance(r, event)); r < |t.requests| && Promises(t, t.requests[r], bytes + Adds(event))
  {
    hide Act;
    var request := s.requests[r];
    var id := About(request, event);
    ActPromises(request.call, id, s.closed, request.pc, EntryOf(s, id), event, bytes);
  }

  lemma OthersPromise(s: State, step: Step, r: nat, bytes: seq<byte>)
    requires Sound(s) && r < |Next(s, step).requests|
    requires !Advances(s, step, r)
    requires if r < |s.requests| then Promises(s, s.requests[r], bytes) else bytes == []
    ensures Promises(Next(s, step), Next(s, step).requests[r], bytes)
  {
    hide Sound, Act;
    StepKeeps(s, step);
  }

  /** A Save that succeeds has saved exactly the bytes its reader delivered, under a name of its own. */
  lemma {:induction false} SavesWhatItRead(owned: bool, others: map<Id, seq<byte>>, steps: seq<Step>, r: nat)
    requires r < |Run(Init(owned, others), steps).requests|
    ensures var start := Init(owned, others);
      Promises(Run(start, steps), Run(start, steps).requests[r], Delivered(start, steps, r))
  {
    hide Next, Sound, Promises, Fits;
    if steps != [] {
      var start := Init(owned, others);
      var before := Run(start, Front(steps));
      RunIsSound(owned, others, Front(steps));
      if r < |before.requests| {
        SavesWhatItRead(owned, others, Front(steps), r);
      } else {
        NothingDelivered(start, Front(steps), r);
      }
      if Advances(before, Last(steps), r) {
        AdvancePromises(before, r, Last(steps).event, Delivered(start, Front(steps), r));
      } else {
        OthersPromise(before, Last(steps), r, Delivered(start, Front(steps), r));
      }
    }
  }

  /** Round trip: whoever opens the id of a finished Save reads the bytes its reader delivered. */
  lemma {:induction false} OpenYieldsWhatSaveRead(owned: bool, others: map<Id, seq<byte>>, steps: seq<Step>, p: nat,
                                                  r: nat)
    requires var s := Run(Init(owned, others), steps);
      && p < |s.requests| && s.requests[p].pc.SaveDone? && s.requests[p].pc.saved.Some?
      && r < |s.requests| && s.requests[r].call == Open(true) && s.requests[r].pc.OpenDone?
         && s.requests[r].pc.found.Some?
      && s.requests[r].id == s.requests[p].id
    ensures var s := Run(Init(owned, others), steps);
      var bytes := Delivered(Init(owned, others), steps, p);
      && s.requests[r].id in s.files && s.files[s.requests[r].id] == bytes
      && s.requests[r].pc.found.value.size == |bytes|
      && s.requests[p].pc.saved.value.id == s.requests[p].id
  {
    hide Next, Delivered;
    SavesWhatItRead(owned, others, steps, p);
    OpenYieldsWhatWasSaved(owned, others, steps, r);
  }

  lemma RequestsStay(s: State, step: Step)
    ensures |s.requests| <= |Next(s, step).requests|
  {
    hide Act, Fits;
  }

  lemma {:induction false} NothingDelivered(start: State, steps: seq<Step>, r: nat)
    requires r >= |Run(start, steps).requests|
    ensures Delivered(start, steps, r) == []
  {
    hide Next, Adds;
    if steps != [] {
      RequestsStay(Run(start, Front(steps)), Last(steps));
      NothingDelivered(start, Front(steps), r);
    }
  }

  // Nothing but Delete and Close takes a file away -----------------------------------

  predicate Deleted(s: State, id: Id) {
    exists r :: 0 <= r < |s.requests| && s.requests[r].call.Delete? && s.requests[r].id == id
  }

  predicate ForDelete(request: Request) {
    request.pc.Unlinking? || request.pc.Forgetting? ==> request.call.Delete?
  }

  /** The id has been given up: someone asked to delete it, or the directory went with the store. */
  predicate GivenUp(s: State, id: Id) {
    Deleted(s, id) || (s.closed && s.owned)
  }

  predicate Writes(s: State, r: int, id: Id) {
    Makes(s, r, id) && !s.requests[r].pc.Removing?
  }

  ghost predicate Durable(s: State) {
    && (forall id :: id in s.saved && !GivenUp(s, id) ==> id in s.metadata && id in s.names)
    && (forall r, id :: Writes(s, r, id) && !GivenUp(s, id) ==> id in s.names)
    && (forall r :: 0 <= r < |s.requests| ==> ForDelete(s.requests[r]))
  }

  /** Only a Delete or a failed Save removes a name, and only a Delete forgets. */
  ghost predicate KeepsNames(pc: Pc, entry: Entry, e: Effect) {
    && (e.entry.named || !entry.named || pc.Unlinking? || pc.Removing?)
    && (e.entry.metadata.Some? || entry.metadata.None? || pc.Forgetting?)
    && (e.entry.saved == entry.saved || (pc.Committing? && e.entry.metadata.Some?))
    && (e.pc.Copying? && !pc.Copying? ==> e.entry.named)
    && (e.pc.Committing? ==> pc.Copying?)
    && (e.pc.Unlinking? || e.pc.Forgetting? ==> pc.Unlinking?)
  }

  lemma ActKeepsNames(call: Call, id: Id, closed: bool, pc: Pc, entry: Entry, event: Event)
    requires Fits(call, pc, entry, event)
    ensures KeepsNames(pc, entry, Act(call, id, closed, pc, entry, event))
  {
  }

  lemma WritersKeepNames(s: State, r: nat, id: Id, e: Effect, q: int, i: Id)
    requires Sound(s) && Durable(s) && Steps(s, r, id, e) && KeepsNames(s.requests[r].pc, EntryOf(s, id), e)
    requires Writes(Apply(s, r, id, e), q, i)
    ensures GivenUp(s, i) || i in Apply(s, r, id, e).names
  {
    hide GivenUp, IsKept, HasTaken, Answers;
    if q != r || s.requests[r].pc.Copying? {
      assert Writes(s, q, i);
    }
    assert s.requests[r].pc.Removing? ==> Makes(s, r, id);
    assert s.requests[r].pc.Unlinking? ==> GivenUp(s, id) by { DeletesGiveUp(s, r); }
  }

  lemma DeletesGiveUp(s: State, r: nat)
    requires r < |s.requests| && ForDelete(s.requests[r])
    ensures s.requests[r].pc.Unlinking? || s.requests[r].pc.Forgetting? ==> GivenUp(s, s.requests[r].id)
  {
  }

  lemma SavedKeepNames(s: State, r: nat, id: Id, e: Effect, i: Id)
    requires Sound(s) && Durable(s) && Steps(s, r, id, e) && KeepsNames(s.requests[r].pc, EntryOf(s, id), e)
    requires i in Apply(s, r, id, e).saved
    ensures GivenUp(s, i) || (i in Apply(s, r, id, e).names && i in Apply(s, r, id, e).metadata)
  {
    hide GivenUp, IsKept, Answers;
    DeletesGiveUp(s, r);
    assert Making(s.requests[r].pc) ==> Makes(s, r, id);
    assert s.requests[r].pc.Committing? ==> Writes(s, r, id);
  }

  lemma GivenUpStays(s: State, t: State)
    requires |s.requests| <= |t.requests| && (s.closed ==> t.closed) && s.owned == t.owned
    requires forall q :: 0 <= q < |s.requests| && s.requests[q].call.Delete? ==>
               t.requests[q].call.Delete? && t.requests[q].id == s.requests[q].id
    ensures forall id :: GivenUp(s, id) ==> GivenUp(t, id)
  {
    forall id | Deleted(s, id) ensures Deleted(t, id) {
      var q :| 0 <= q < |s.requests| && s.requests[q].call.Delete? && s.requests[q].id == id;
      assert t.requests[q].call.Delete? && t.requests[q].id == id;
    }
  }

  lemma AdvanceIsDurable(s: State, r: nat, id: Id, e: Effect)
    requires Sound(s) && Durable(s) && Steps(s, r, id, e) && KeepsNames(s.requests[r].pc, EntryOf(s, id), e)
    ensures Durable(Apply(s, r, id, e))
  {
    hide Sound, Writes, GivenUp, Lawful;
    var t := Apply(s, r, id, e);
    GivenUpStays(s, t);
    forall q, i | Writes(t, q, i) ensures GivenUp(t, i) || i in t.names {
      WritersKeepNames(s, r, id, e, q, i);
    }
    forall i | i in t.saved ensures GivenUp(t, i) || (i in t.names && i in t.metadata) {
      SavedKeepNames(s, r, id, e, i);
    }
  }

  lemma BeginIsDurable(s: State, step: Step)
    requires Sound(s) && Durable(s) && !step.Advance?
    ensures Durable(Next(s, step))
  {
    hide Sound, GivenUp, ValidPath;
    var t := Next(s, step);
    GivenUpStays(s, t);
    assert t.closed && t.owned ==> forall id :: GivenUp(t, id) by { ClosedGivesUp(t); }
    assert forall q, i :: Writes(t, q, i) ==> Writes(s, q, i);
  }

  lemma ClosedGivesUp(s: State)
    ensures s.closed && s.owned ==> forall id :: GivenUp(s, id)
  {
  }

  lemma StepIsDurable(s: State, step: Step)
    requires Sound(s) && Durable(s)
    ensures Durable(Next(s, step))
  {
    hide Sound, Durable, Act, Apply, Lawful, KeepsNames;
    if !step.Advance? {
      BeginIsDurable(s, step);
    } else if Enabled(s, step.r, step.event) {
      var request := s.requests[step.r];
      var id := About(request, step.event);
      ActIsLawful(request.call, id, s.closed, request.pc, EntryOf(s, id), step.event);
      ActKeepsNames(request.call, id, s.closed, request.pc, EntryOf(s, id), step.event);
      AdvanceIsDurable(s, step.r, id, EffectOf(s, step.r, step.event));
    }
  }

  /** A saved file is under its name, and known to the store, until someone gives it up. */
  lemma {:induction false} SavedIsDurable(owned: bool, others: map<Id, seq<byte>>, steps: seq<Step>)
    ensures Durable(Run(Init(owned, others), steps))
  {
    hide Next, Sound, Durable;
    if steps == [] {
      NothingToKeep(owned, others);
    } else {
      SavedIsDurable(owned, others, Front(steps));
      RunIsSound(owned, others, Front(steps));
      StepIsDurable(Run(Init(owned, others), Front(steps)), Last(steps));
    }
  }

  lemma NothingToKeep(owned: bool, others: map<Id, seq<byte>>)
    ensures Durable(Init(owned, others))
  {
  }

  lemma OpenFileStep(s: State, r: nat)
    requires r < |s.requests| && s.requests[r].pc.Opening? && s.requests[r].id in s.names
    ensures Next(s, Advance(r, OpenFile(true))) == s.(requests := s.requests[r := s.requests[r].(pc := LookingUp)])
  {
  }

  lemma LookupStep(s: State, r: nat)
    requires r < |s.requests| && s.requests[r].pc.LookingUp? && s.requests[r].id in s.metadata
    ensures var t := Next(s, Advance(r, Lookup));
      r < |t.requests| && t.requests[r].pc == OpenDone(Some(s.metadata[s.requests[r].id]))
  {
  }

  /** Opening a saved file that nobody gave up answers with the very metadata Save returned. */
  lemma {:induction false} SavedCanBeOpened(owned: bool, others: map<Id, seq<byte>>, steps: seq<Step>, r: nat)
    requires var s := Run(Init(owned, others), steps);
      && r < |s.requests| && s.requests[r].call == Open(true) && s.requests[r].pc.Opening?
      && !GivenUp(s, s.requests[r].id)
    ensures var s := Run(Init(owned, others), steps);
      var t := Next(Next(s, Advance(r, OpenFile(true))), Advance(r, Lookup));
      && s.requests[r].id in s.saved && r < |t.requests|
      && t.requests[r].pc == OpenDone(Some(s.saved[s.requests[r].id].metadata))
  {
    hide GivenUp, Next;
    RunIsSound(owned, others, steps);
    SavedIsDurable(owned, others, steps);
    var s := Run(Init(owned, others), steps);
    assert Answers(s, s.requests[r]);
    OpenFileStep(s, r);
    LookupStep(s.(requests := s.requests[r := s.requests[r].(pc := LookingUp)]), r);
  }

  // Ids ------------------------------------------------------------------------------

  /** Save only ever makes, and returns, the ids it has made up. */
  ghost predicate HasFileIDs(s: State) {
    && (forall id :: id in s.saved ==> IsFileID(id))
    && (forall r :: 0 <= r < |s.requests| && Making(s.requests[r].pc) ==> IsFileID(s.requests[r].id))
  }

  lemma ActMakesFileIDs(call: Call, id: Id, closed: bool, pc: Pc, entry: Entry, event: Event)
    requires Fits(call, pc, entry, event)
    ensures var e := Act(call, id, closed, pc, entry, event);
      && (Making(e.pc) ==> Making(pc) || (event.Allocate? && IsFileID(event.id)))
      && (e.entry.saved == entry.saved || Making(pc))
      && (Making(pc) ==> !event.Allocate?)
  {
  }

  lemma StepHasFileIDs(s: State, step: Step)
    requires HasFileIDs(s)
    ensures HasFileIDs(Next(s, step))
  {
    hide Act, IsFileID, Fits;
    if step.Advance? && Enabled(s, step.r, step.event) {
      var request := s.requests[step.r];
      ActMakesFileIDs(request.call, About(request, step.event), s.closed, request.pc,
                      EntryOf(s, About(request, step.event)), step.event);
    }
  }

  lemma {:induction false} RunHasFileIDs(owned: bool, others: map<Id, seq<byte>>, steps: seq<Step>)
    ensures HasFileIDs(Run(Init(owned, others), steps))
  {
    hide Next, HasFileIDs;
    if steps == [] {
      NoIDs(owned, others);
    } else {
      RunHasFileIDs(owned, others, Front(steps));
      StepHasFileIDs(Run(Init(owned, others), Front(steps)), Last(steps));
    }
  }

  lemma NoIDs(owned: bool, others: map<Id, seq<byte>>)
    ensures HasFileIDs(Init(owned, others))
  {
  }

  /** Every id that Save has returned is a path. */
  lemma {:induction false} SavedIsValidPath(owned: bool, others: map<Id, seq<byte>>, steps: seq<Step>, id: Id)
    requires id in Run(Init(owned, others), steps).saved
    ensures ValidPath(id)
  {
    hide Run, Next;
    RunHasFileIDs(owned, others, steps);
    FileIDIsValid(id);
  }
}
