/** Uploads served one request at a time, as the protocol intends: what the writer receives. */
module TusExclusive {
  import opened Prelude
  import opened TusProtocol
  import opened TusSafety
  import opened TusLedger
  import TusOvershoot

  /** Request r for the upload has not been answered yet. */
  predicate Active(s: State, r: int, id: Id) {
    0 <= r < |s.requests| && s.requests[r].id == id && Pending(s.requests[r].pc)
  }

  ghost predicate Idle(s: State, id: Id) {
    forall r :: !Active(s, r, id)
  }

  /** Every PATCH for the upload begins after all its earlier requests were answered. */
  ghost predicate OneAtATime(maxSize: int, steps: seq<Step>, id: Id) {
    forall k :: 0 <= k < |steps| && steps[k].BeginPatch? && steps[k].id == id ==> Idle(Run(maxSize, steps[..k]), id)
  }

  /** What a request in progress knows about the session. */
  predicate Knows(pc: Pc, session: Session) {
    match pc
    case Lookup(remaining) => remaining == session.length - session.offset
    case Writing(remaining, _) => remaining == session.length - session.offset
    case Crediting(chunk) => |chunk| <= session.length - session.offset
    case _ => true
  }

  ghost predicate Solo(s: State, id: Id) {
    && (id !in s.sessions ==> Idle(s, id) && !HandedOver(s, id))
    && (id in s.sessions ==>
          && s.sessions[id].offset <= s.sessions[id].length
          && (forall r :: Active(s, r, id) ==> Knows(s.requests[r].pc, s.sessions[id]))
          && (forall q, r :: Active(s, q, id) && Active(s, r, id) ==> q == r)
          && (HandedOver(s, id) ==>
                && s.sessions[id].offset == s.sessions[id].length
                && forall r :: Active(s, r, id) ==> s.requests[r].pc.Saving? || s.requests[r].pc.Recording?))
  }

  /** While nothing was lost, the file is the credited chunks, in order, and the chunk in flight. */
  ghost predicate InOrder(s: State, id: Id, credits: seq<seq<byte>>) {
    id in s.sessions && NothingLost(s, id) ==>
      && (forall r :: Active(s, r, id) ==> s.sessions[id].content == Concat(credits) + InFlight(s.requests[r].pc))
      && (Idle(s, id) ==> s.sessions[id].content == Concat(credits))
  }

  ghost predicate NothingLost(s: State, id: Id) {
    forall r :: 0 <= r < |s.requests| && s.requests[r].id == id ==> Lost(s.requests[r].pc) == []
  }

  /** What an event of the only active request does. */
  lemma EventKeepsOrder(op: Op, pc: Pc, u: Upload, event: Event, credited: seq<byte>)
    requires Fits(pc, event) && Knows(pc, u.session) && u.session.offset <= u.session.length
    ensures var e := Act(op, pc, u, event); var n := if event.Credit? then |pc.chunk| else 0;
      && e.upload.session.offset == u.session.offset + n <= u.session.length == e.upload.session.length
      && Knows(e.pc, e.upload.session)
      && (pc.Saving? || pc.Recording? ==> n == 0 && (e.pc.Recording? || e.pc.Done?))
      && (Lost(e.pc) == [] ==> Lost(pc) == [])
      && (Lost(e.pc) == [] && u.session.content == credited + InFlight(pc) ==>
            e.upload.session.content == (if event.Credit? then credited + pc.chunk else credited) + InFlight(e.pc))
  {
    if event.Write? {
      assert credited + (pc.chunk + event.bytes) == credited + pc.chunk + event.bytes;
    }
  }

  lemma OwnAdvanceSolo(s: State, r: nat, event: Event, id: Id)
    requires Safe(s) && Solo(s, id) && Enabled(s, r, event) && s.requests[r].id == id
    ensures Solo(Next(s, Advance(r, event)), id)
  {
    hide Act, Safe;
    var step := Advance(r, event);
    var request, e, t := s.requests[r], EffectOf(s, r, event), Next(s, step);
    assert Active(s, r, id);
    EventKeepsOrder(request.op, request.pc, UploadOf(s, id), event, []);
    Effects(request.op, request.pc, UploadOf(s, id), event);
    assert forall q :: Active(t, q, id) ==> q == r && Active(s, q, id);
    if HandedOver(t, id) && !HandedOver(s, id) {
      NewlyHandedOver(s, step, id);
      assert e.saves ==> Claims(s, r, id);
      assert forall k :: 0 <= k < |s.saves| ==> s.saves[k] == t.saves[k];
      assert forall q :: Claims(t, q, id) ==> Active(t, q, id);
    }
  }

  lemma OwnAdvanceInOrder(s: State, r: nat, event: Event, id: Id, credits: seq<seq<byte>>)
    requires Solo(s, id) && InOrder(s, id, credits) && Enabled(s, r, event) && s.requests[r].id == id
    ensures InOrder(Next(s, Advance(r, event)), id, credits + CreditedBy(s, Advance(r, event), id))
  {
    hide Act, HandedOver;
    var request, e, t := s.requests[r], EffectOf(s, r, event), Next(s, Advance(r, event));
    assert Active(s, r, id);
    EventKeepsOrder(request.op, request.pc, UploadOf(s, id), event, Concat(credits));
    assert forall q :: Active(t, q, id) ==> q == r;
    if event.Credit? {
      ConcatSnoc(credits, request.pc.chunk);
    } else {
      assert credits + [] == credits;
    }
    if NothingLost(t, id) {
      assert t.requests[r] == request.(pc := e.pc);
      OthersLostNothing(s, t, r, id);
      assert s.sessions[id].content == Concat(credits) + InFlight(request.pc);
      var all := Concat(credits + CreditedBy(s, Advance(r, event), id));
      assert t.sessions[id].content == all + InFlight(e.pc);
      assert !Active(t, r, id) ==> InFlight(e.pc) == [];
      assert all + [] == all;
    }
  }

  lemma OthersLostNothing(s: State, t: State, r: nat, id: Id)
    requires NothingLost(t, id) && r < |s.requests| == |t.requests| && t.requests == s.requests[r := t.requests[r]]
    requires t.requests[r].id == id && (Lost(t.requests[r].pc) == [] ==> Lost(s.requests[r].pc) == [])
    ensures NothingLost(s, id) && Lost(t.requests[r].pc) == []
  {
    assert forall q :: 0 <= q < |s.requests| && q != r ==> s.requests[q] == t.requests[q];
  }

  /** A step that leaves the upload's session, its requests in progress and the saves alone. */
  lemma OtherStep(s: State, t: State, id: Id, credits: seq<seq<byte>>)
    requires Solo(s, id) && InOrder(s, id, credits)
    requires id in s.sessions <==> id in t.sessions
    requires id in s.sessions ==> s.sessions[id] == t.sessions[id]
    requires forall r :: Active(s, r, id) <==> Active(t, r, id)
    requires forall r :: Active(s, r, id) && Active(t, r, id) ==> t.requests[r] == s.requests[r]
    requires forall r :: Claims(t, r, id) ==> Claims(s, r, id)
    requires IsSaved(t, id) ==> IsSaved(s, id)
    requires NothingLost(t, id) ==> NothingLost(s, id)
    ensures Solo(t, id) && InOrder(t, id, credits)
  {
  }

  lemma OtherAdvance(s: State, r: nat, event: Event, id: Id, credits: seq<seq<byte>>)
    requires Safe(s) && Solo(s, id) && InOrder(s, id, credits)
    requires Enabled(s, r, event) ==> s.requests[r].id != id
    ensures Solo(Next(s, Advance(r, event)), id) && InOrder(Next(s, Advance(r, event)), id, credits)
  {
    hide Act, Fits, Safe, Solo, InOrder;
    var t := Next(s, Advance(r, event));
    if Enabled(s, r, event) {
      forall q | 0 <= q < |s.requests| && s.requests[q].id == id ensures t.requests[q] == s.requests[q] {
      }
      if IsSaved(t, id) {
        var k :| 0 <= k < |t.saves| && t.saves[k].id == id;
        assert t.saves[k] == s.saves[k];
      }
      OtherStep(s, t, id, credits);
    }
  }

  /** A new request for an idle upload. */
  lemma BeginOwn(s: State, step: Step, id: Id, credits: seq<seq<byte>>)
    requires Safe(s) && Solo(s, id) && InOrder(s, id, credits) && Idle(s, id)
    requires (step.BeginCreate? && step.id == id) || (step.BeginPatch? && step.id == id)
    requires id !in s.sessions ==> credits == []
    ensures Solo(Next(s, step), id) && InOrder(Next(s, step), id, credits)
  {
    hide HandedOver;
    var t, last := Next(s, step), |s.requests|;
    BeginHandsNothingOver(s, step, id);
    assert forall r :: 0 <= r < last ==> t.requests[r] == s.requests[r] && !Active(s, r, id);
    assert forall r :: Active(t, r, id) ==> r == last;
    assert NothingLost(t, id) ==> NothingLost(s, id);
  }

  lemma BeginHandsNothingOver(s: State, step: Step, id: Id)
    requires Safe(s) && (step.BeginCreate? || step.BeginPatch?)
    ensures HandedOver(Next(s, step), id) <==> HandedOver(s, id)
    ensures HandedOver(s, id) ==> id !in s.uploads
  {
    var t := Next(s, step);
    assert forall r :: Claims(t, r, id) <==> Claims(s, r, id);
    assert IsSaved(t, id) <==> IsSaved(s, id);
  }

  lemma BeginOther(s: State, step: Step, id: Id, credits: seq<seq<byte>>)
    requires Safe(s) && Solo(s, id) && InOrder(s, id, credits) && !step.Advance?
    requires step.BeginCreate? || step.BeginPatch? ==> step.id != id
    ensures Solo(Next(s, step), id) && InOrder(Next(s, step), id, credits)
  {
    hide Safe, Solo, InOrder;
    var t := Next(s, step);
    forall r | 0 <= r < |s.requests| ensures t.requests[r] == s.requests[r] || s.requests[r].pc.Missing? {
    }
    OtherStep(s, t, id, credits);
  }

  lemma StepInOrder(s: State, step: Step, id: Id, credits: seq<seq<byte>>)
    requires Safe(s) && Solo(s, id) && InOrder(s, id, credits)
    requires step.BeginPatch? && step.id == id ==> Idle(s, id)
    requires id !in s.sessions ==> credits == []
    ensures var t := Next(s, step);
      Solo(t, id) && InOrder(t, id, credits + CreditedBy(s, step, id))
  {
    hide Safe, Solo, InOrder, Next;
    assert credits + [] == credits;
    if step.Advance? {
      if Enabled(s, step.r, step.event) && s.requests[step.r].id == id {
        OwnAdvanceSolo(s, step.r, step.event, id);
        OwnAdvanceInOrder(s, step.r, step.event, id, credits);
      } else {
        OtherAdvance(s, step.r, step.event, id, credits);
      }
    } else if (step.BeginCreate? || step.BeginPatch?) && step.id == id {
      if step.BeginCreate? {
        BeginsIdle(s, step, id);
      }
      if Idle(s, id) {
        BeginOwn(s, step, id, credits);
      }
    } else {
      BeginOther(s, step, id, credits);
    }
  }

  /** A creation that is refused changes nothing; one that is not finds the id unused. */
  lemma BeginsIdle(s: State, step: Step, id: Id)
    requires Solo(s, id) && step.BeginCreate? && step.id == id
    ensures Next(s, step) == s || Idle(s, id)
  {
  }

  lemma {:induction false} RunInOrder(maxSize: int, steps: seq<Step>, id: Id)
    requires OneAtATime(maxSize, steps, id)
    ensures var s := Run(maxSize, steps);
      Solo(s, id) && InOrder(s, id, Credits(maxSize, steps, id))
          && (id !in s.sessions ==> Credits(maxSize, steps, id) == [])
  {
    hide Next, Safe, Solo, InOrder, Balanced;
    if steps == [] {
      EmptyIsSolo(maxSize, id);
    } else {
      var before := Front(steps);
      assert forall k :: 0 <= k < |before| ==> before[..k] == steps[..k] && before[k] == steps[k];
      assert steps[..|steps| - 1] == before && steps[|steps| - 1] == Last(steps);
      RunInOrder(maxSize, before, id);
      RunIsSafe(maxSize, before);
      StepInOrder(Run(maxSize, before), Last(steps), id, Credits(maxSize, before, id));
      UnknownHasNoCredits(maxSize, steps, id);
    }
  }

  lemma EmptyIsSolo(maxSize: int, id: Id)
    ensures Solo(Init(maxSize), id) && InOrder(Init(maxSize), id, [])
  {
  }

  lemma UnknownHasNoCredits(maxSize: int, steps: seq<Step>, id: Id)
    ensures id !in Run(maxSize, steps).sessions ==> Credits(maxSize, steps, id) == []
  {
    Conservation(maxSize, steps, id);
  }

  lemma {:induction false} TotalIsEmpty(requests: seq<Request>, id: Id)
    ensures Total(requests, id, Lost) == multiset{} <==>
            forall r :: 0 <= r < |requests| && requests[r].id == id ==> Lost(requests[r].pc) == []
  {
    if requests != [] {
      TotalIsEmpty(Front(requests), id);
      assert requests[|requests| - 1] == Last(requests);
      assert |multiset(Lost(Last(requests).pc))| == |Lost(Last(requests).pc)|;
    }
  }

  /** With every request answered, no byte is in flight. */
  lemma {:induction false} NoneInFlight(requests: seq<Request>, id: Id)
    requires forall r :: 0 <= r < |requests| && requests[r].id == id ==> InFlight(requests[r].pc) == []
    ensures Total(requests, id, InFlight) == multiset{}
  {
    if requests != [] {
      NoneInFlight(Front(requests), id);
    }
  }

  /**
   * One request at a time: the offset never passes the length; as long as no failed append left bytes
   * behind, the staged file is the accepted chunks in order, and the chunk being written.
   */
  lemma {:induction false} StagedInOrder(maxSize: int, steps: seq<Step>, id: Id)
    requires OneAtATime(maxSize, steps, id) && id in Run(maxSize, steps).sessions
    ensures var s := Run(maxSize, steps); var session, credits := s.sessions[id], Credits(maxSize, steps, id);
      && session.offset == |Concat(credits)| <= session.length
      && (NothingLost(s, id) ==>
            && (forall r :: Active(s, r, id) ==> session.content == Concat(credits) + InFlight(s.requests[r].pc))
            && (Idle(s, id) ==> session.content == Concat(credits)))
  {
    hide Next;
    RunInOrder(maxSize, steps, id);
    Conservation(maxSize, steps, id);
    OneAtATimeIsDisciplined(maxSize, steps, id);
    TusOvershoot.DisciplineBoundsOffset(maxSize, steps, id);
  }

  /** Serving one request at a time is one way to admit a PATCH only when nothing is outstanding. */
  lemma OneAtATimeIsDisciplined(maxSize: int, steps: seq<Step>, id: Id)
    requires OneAtATime(maxSize, steps, id)
    ensures TusOvershoot.Disciplined(maxSize, steps, id)
  {
    hide Run, Next;
    forall k | 0 <= k < |steps| && TusOvershoot.Admits(Run(maxSize, steps[..k]), steps[k], id)
      ensures TusOvershoot.Outstanding(Run(maxSize, steps[..k]).requests, id) == 0
    {
      var s := Run(maxSize, steps[..k]);
      forall r | 0 <= r < |s.requests| && s.requests[r].id == id ensures !Pending(s.requests[r].pc) {
        assert !Active(s, r, id);
      }
      TusOvershoot.NoneOutstanding(s.requests, id);
    }
  }

  /**
   * One request at a time: the writer receives all the accepted bytes, `length` of them, and exactly
   * these in order if and only if no failed append left bytes in the staged file.
   */
  lemma {:induction false} WriterReceives(maxSize: int, steps: seq<Step>, k: nat)
    requires k < |Run(maxSize, steps).saves|
    requires OneAtATime(maxSize, steps, Run(maxSize, steps).saves[k].id)
    ensures var s := Run(maxSize, steps); var call := s.saves[k];
      var credits, lost := Credits(maxSize, steps, call.id), Total(s.requests, call.id, Lost);
      && call.id in s.sessions
      && |Concat(credits)| == s.sessions[call.id].length
      && |call.content| == s.sessions[call.id].length + |lost|
      && (call.content == Concat(credits) <==> lost == multiset{})
  {
    hide Next, Safe;
    var s := Run(maxSize, steps);
    var call := s.saves[k];
    var id, credits := call.id, Credits(maxSize, steps, call.id);
    SavedContentIsFinal(maxSize, steps);
    RunInOrder(maxSize, steps, id);
    Conservation(maxSize, steps, id);
    OffsetCountsCredits(maxSize, steps, id);
    assert HandedOver(s, id) by {
      assert IsSaved(s, id);
    }
    forall r | 0 <= r < |s.requests| && s.requests[r].id == id ensures InFlight(s.requests[r].pc) == [] {
      assert Active(s, r, id) || !Pending(s.requests[r].pc);
    }
    NoneInFlight(s.requests, id);
    TotalIsEmpty(s.requests, id);
    SavedInOrder(s, id, credits);
    assert call.content == Concat(credits) ==> |Total(s.requests, id, Lost)| == 0;
  }

  lemma SavedInOrder(s: State, id: Id, credits: seq<seq<byte>>)
    requires id in s.sessions && InOrder(s, id, credits)
    requires forall r :: 0 <= r < |s.requests| && s.requests[r].id == id ==> InFlight(s.requests[r].pc) == []
    ensures NothingLost(s, id) ==> s.sessions[id].content == Concat(credits)
  {
    if NothingLost(s, id) && !Idle(s, id) {
      var r :| Active(s, r, id);
      assert s.sessions[id].content == Concat(credits) + InFlight(s.requests[r].pc);
    }
  }

  /** A PATCH at any other offset only adds its answer: nothing else changes. */
  lemma MismatchChangesNothing(s: State, id: Id, want: int)
    requires id in s.uploads && id in s.sessions && want != s.sessions[id].offset
    ensures Next(s, BeginPatch(id, want))
         == s.(requests := s.requests + [Request(Patch, id, Done(OffsetMismatch(s.sessions[id].offset), []))])
  {
  }
}
