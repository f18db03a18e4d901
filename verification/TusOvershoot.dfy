/**
 * When the requests in progress can push an upload past its length: exactly when
 * the bytes they may still credit exceed the room that is left.
 */
module TusOvershoot {
  import opened Prelude
  import opened TusProtocol
  import opened TusSafety
  import opened TusLedger

  /** The most a request may still add to the offset of a live upload. */
  function Potential(pc: Pc): nat {
    match pc
    case Lookup(remaining) => if remaining <= 0 || remaining == MAX_INT64 then 0 else remaining
    case Writing(remaining, chunk) =>
      if |chunk| > remaining then 0 else if remaining == MAX_INT64 then |chunk| else remaining
    case Crediting(chunk) => |chunk|
    case _ => 0
  }

  /** The most the requests for an upload may still add together. */
  function Outstanding(requests: seq<Request>, id: Id): nat {
    if requests == [] then 0
    else Outstanding(Front(requests), id) + if Last(requests).id == id then Potential(Last(requests).pc) else 0
  }

  /** The farthest the requests in progress can push the offset. */
  function Reach(s: State, id: Id): int
    requires id in s.sessions
  {
    s.sessions[id].offset + Outstanding(s.requests, id)
  }

  predicate IsLive(s: State, id: Id) {
    id in s.uploads && id in s.sessions
  }

  predicate IsPast(s: State, id: Id) {
    id in s.sessions && s.sessions[id].offset > s.sessions[id].length
  }

  /** Only the requests in progress go on: none begins, none is terminated. */
  predicate OnlyAdvances(steps: seq<Step>) {
    forall step :: step in steps ==> step.Advance?
  }

  // No step raises the reach -----------------------------------------------------

  lemma EventNeverRaises(op: Op, pc: Pc, u: Upload, event: Event)
    requires Fits(pc, event)
    ensures var e := Act(op, pc, u, event);
      e.upload.session.offset + Potential(e.pc) <= u.session.offset + Potential(pc)
  {
  }

  lemma {:induction false} OutstandingUpdate(requests: seq<Request>, r: nat, request: Request, id: Id)
    requires r < |requests| && request.id == requests[r].id
    ensures Outstanding(requests[r := request], id)
         == Outstanding(requests, id) + if request.id == id then Potential(request.pc) - Potential(requests[r].pc)
             else 0
  {
    var updated := requests[r := request];
    if r == |requests| - 1 {
      assert Front(updated) == Front(requests);
    } else {
      assert Front(updated) == Front(requests)[r := request] && Last(updated) == Last(requests);
      OutstandingUpdate(Front(requests), r, request, id);
    }
  }

  lemma OutstandingAppend(requests: seq<Request>, request: Request, id: Id)
    ensures Outstanding(requests + [request], id)
         == Outstanding(requests, id) + if request.id == id then Potential(request.pc) else 0
  {
    assert Front(requests + [request]) == requests;
  }

  lemma {:induction false} AdvanceNeverRaises(s: State, step: Step, id: Id)
    requires step.Advance? && id in s.sessions
    ensures var t := Next(s, step);
      id in t.sessions && t.sessions[id].length == s.sessions[id].length && Reach(t, id) <= Reach(s, id)
  {
    hide Act, Potential;
    if Enabled(s, step.r, step.event) {
      var request, e := s.requests[step.r], EffectOf(s, step.r, step.event);
      EventNeverRaises(request.op, request.pc, UploadOf(s, request.id), step.event);
      Effects(request.op, request.pc, UploadOf(s, request.id), step.event);
      OutstandingUpdate(s.requests, step.r, request.(pc := e.pc), id);
    }
  }

  /** Whatever the requests in progress do, the offset stays within the reach. */
  lemma {:induction false} NeverBeyondReach(maxSize: int, steps: seq<Step>, more: seq<Step>, id: Id)
    requires id in Run(maxSize, steps).sessions && OnlyAdvances(more)
    ensures var s, t := Run(maxSize, steps), Run(maxSize, steps + more);
      && id in t.sessions && t.sessions[id].length == s.sessions[id].length
      && t.sessions[id].offset <= Reach(t, id) <= Reach(s, id)
  {
    hide Next;
    if more == [] {
      assert steps + more == steps;
    } else {
      assert Front(steps + more) == steps + Front(more) && Last(more) in more;
      assert forall step :: step in Front(more) ==> step in more;
      NeverBeyondReach(maxSize, steps, Front(more), id);
      AdvanceNeverRaises(Run(maxSize, steps + Front(more)), Last(more), id);
    }
  }

  // The reach is attained ---------------------------------------------------------

  /** An event that brings a request nearer to crediting all it may. */
  function NextEvent(pc: Pc): Event
    requires Potential(pc) > 0
  {
    match pc
    case Lookup(_) => FindSession
    case Writing(remaining, chunk) =>
      if |chunk| == remaining || remaining == MAX_INT64 then CopyEnds(true) else Write(seq(remaining - |chunk|, _ => 0))
    case _ => Credit
  }

  function Stage(pc: Pc): nat {
    match pc
    case Lookup(_) => 4
    case Writing(remaining, chunk) => if |chunk| == remaining || remaining == MAX_INT64 then 2 else 3
    case Crediting(_) => 1
    case _ => 0
  }

  lemma NextEventKeepsReach(op: Op, pc: Pc, u: Upload)
    requires Potential(pc) > 0 && u.live
    ensures Fits(pc, NextEvent(pc))
    ensures var e := Act(op, pc, u, NextEvent(pc));
      && e.upload.live && e.upload.session.length == u.session.length
      && e.upload.session.offset + Potential(e.pc) == u.session.offset + Potential(pc)
      && Stage(e.pc) < Stage(pc)
  {
  }

  /** t is s, but for request r, which has credited all it might, and its upload. */
  ghost predicate Delivered(s: State, t: State, r: nat, id: Id) {
    && r < |s.requests| == |t.requests|
    && (forall q :: 0 <= q < |s.requests| && q != r ==> t.requests[q] == s.requests[q])
    && t.requests[r].id == s.requests[r].id
    && IsLive(s, id) && IsLive(t, id)
    && t.sessions[id].length == s.sessions[id].length
    && t.sessions[id].offset + Potential(t.requests[r].pc) == s.sessions[id].offset + Potential(s.requests[r].pc)
  }

  lemma DeliverStep(maxSize: int, steps: seq<Step>, r: nat, id: Id) returns (step: Step)
    requires var s := Run(maxSize, steps);
      r < |s.requests| && s.requests[r].id == id && IsLive(s, id) && Potential(s.requests[r].pc) > 0
    ensures var s, t := Run(maxSize, steps), Run(maxSize, steps + [step]);
      step.Advance? && Delivered(s, t, r, id) && Stage(t.requests[r].pc) < Stage(s.requests[r].pc)
  {
    hide Act, Potential, NextEvent, Stage, Fits;
    var s := Run(maxSize, steps);
    var request := s.requests[r];
    step := Advance(r, NextEvent(request.pc));
    assert Front(steps + [step]) == steps;
    NextEventKeepsReach(request.op, request.pc, UploadOf(s, id));
  }

  lemma {:induction false} Deliver(maxSize: int, steps: seq<Step>, r: nat, id: Id) returns (more: seq<Step>)
    requires var s := Run(maxSize, steps); r < |s.requests| && s.requests[r].id == id && IsLive(s, id)
    ensures OnlyAdvances(more)
    ensures var s, t := Run(maxSize, steps), Run(maxSize, steps + more);
      Delivered(s, t, r, id) && Potential(t.requests[r].pc) == 0
    decreases Stage(Run(maxSize, steps).requests[r].pc)
  {
    hide Next, Run, Potential, Stage;
    if Potential(Run(maxSize, steps).requests[r].pc) == 0 {
      more := [];
      assert steps + more == steps;
    } else {
      var step := DeliverStep(maxSize, steps, r, id);
      more := Deliver(maxSize, steps + [step], r, id);
      assert steps + [step] + more == steps + ([step] + more);
      more := [step] + more;
    }
  }

  /** The first k requests, one after the other. */
  lemma {:induction false} DeliverAll(maxSize: int, steps: seq<Step>, id: Id, k: nat) returns (more: seq<Step>)
    requires var s := Run(maxSize, steps); IsLive(s, id) && k <= |s.requests|
    ensures OnlyAdvances(more)
    ensures var s, t := Run(maxSize, steps), Run(maxSize, steps + more);
      && IsLive(t, id) && |t.requests| == |s.requests| && t.requests[k..] == s.requests[k..]
      && t.sessions[id].length == s.sessions[id].length
      && t.sessions[id].offset == s.sessions[id].offset + Outstanding(s.requests[..k], id)
  {
    hide Next, Run, Potential;
    var s := Run(maxSize, steps);
    if k == 0 {
      more := [];
      assert steps + more == steps;
    } else {
      more := DeliverAll(maxSize, steps, id, k - 1);
      var t := Run(maxSize, steps + more);
      assert s.requests[k - 1] == s.requests[k - 1..][0] == t.requests[k - 1..][0] == t.requests[k - 1];
      assert Front(s.requests[..k]) == s.requests[..k - 1];
      assert t.requests[k..] == t.requests[k - 1..][1..] && s.requests[k..] == s.requests[k - 1..][1..];
      if s.requests[k - 1].id == id {
        var last := Deliver(maxSize, steps + more, k - 1, id);
        assert steps + more + last == steps + (more + last);
        more := more + last;
      }
    }
  }

  /** Some continuation pushes the offset exactly as far as the reach. */
  lemma ReachIsAttained(maxSize: int, steps: seq<Step>, id: Id) returns (more: seq<Step>)
    requires IsLive(Run(maxSize, steps), id)
    ensures OnlyAdvances(more)
    ensures var s, t := Run(maxSize, steps), Run(maxSize, steps + more);
      IsLive(t, id) && t.sessions[id].length == s.sessions[id].length && t.sessions[id].offset == Reach(s, id)
  {
    hide Run;
    var requests := Run(maxSize, steps).requests;
    more := DeliverAll(maxSize, steps, id, |requests|);
    assert requests[..|requests|] == requests;
  }

  // The exact condition ------------------------------------------------------------

  ghost predicate CanPass(maxSize: int, steps: seq<Step>, id: Id) {
    exists more :: OnlyAdvances(more) && IsPast(Run(maxSize, steps + more), id)
  }

  /** The requests in progress can push a live upload past its length if and only if its reach is past it. */
  lemma {:induction false} PassesIffReachDoes(maxSize: int, steps: seq<Step>, id: Id)
    requires IsLive(Run(maxSize, steps), id)
    ensures var s := Run(maxSize, steps);
      CanPass(maxSize, steps, id) <==> s.sessions[id].offset + Outstanding(s.requests, id) > s.sessions[id].length
  {
    hide Run, Outstanding;
    if CanPass(maxSize, steps, id) {
      var more :| OnlyAdvances(more) && IsPast(Run(maxSize, steps + more), id);
      NeverBeyondReach(maxSize, steps, more, id);
    }
    var more := ReachIsAttained(maxSize, steps, id);
  }

  /** A PATCH with the offset the upload stands at, and room the copy limit can express. */
  predicate Admits(s: State, step: Step, id: Id) {
    && step.BeginPatch? && step.id == id && IsLive(s, id) && step.want == s.sessions[id].offset
    && s.sessions[id].offset < s.sessions[id].length && s.sessions[id].length - s.sessions[id].offset != MAX_INT64
  }

  lemma AdmissionAddsTheRoom(s: State, step: Step, id: Id)
    requires Admits(s, step, id)
    ensures var t := Next(s, step);
      && IsLive(t, id) && t.sessions[id] == s.sessions[id]
      && Reach(t, id) == s.sessions[id].length + Outstanding(s.requests, id)
  {
    hide Outstanding;
    OutstandingAppend(s.requests, Last(Next(s, step).requests), id);
  }

  /** Admitting a PATCH is safe exactly if no request may still credit a byte. */
  lemma {:induction false} AdmissionIsSafe(maxSize: int, steps: seq<Step>, step: Step, id: Id)
    requires Admits(Run(maxSize, steps), step, id)
    ensures CanPass(maxSize, steps + [step], id) <==> Outstanding(Run(maxSize, steps).requests, id) > 0
  {
    hide Outstanding, Next;
    assert Front(steps + [step]) == steps;
    AdmissionAddsTheRoom(Run(maxSize, steps), step, id);
    PassesIffReachDoes(maxSize, steps + [step], id);
  }

  // Whole runs ---------------------------------------------------------------------

  /** Every PATCH with room is admitted when no earlier request may still credit a byte. */
  ghost predicate Disciplined(maxSize: int, steps: seq<Step>, id: Id) {
    forall k :: 0 <= k < |steps| && Admits(Run(maxSize, steps[..k]), steps[k], id) ==>
      Outstanding(Run(maxSize, steps[..k]).requests, id) == 0
  }

  ghost predicate IsWithin(s: State, id: Id) {
    id in s.sessions ==> Reach(s, id) <= s.sessions[id].length
  }

  lemma {:induction false} NoneOutstanding(requests: seq<Request>, id: Id)
    requires forall r :: 0 <= r < |requests| && requests[r].id == id ==> !Pending(requests[r].pc)
    ensures Outstanding(requests, id) == 0
  {
    if requests != [] {
      NoneOutstanding(Front(requests), id);
    }
  }

  lemma BeginStaysWithin(s: State, step: Step, id: Id)
    requires Safe(s) && IsWithin(s, id) && (step.BeginCreate? || step.BeginPatch?)
    requires Admits(s, step, id) ==> Outstanding(s.requests, id) == 0
    ensures IsWithin(Next(s, step), id)
  {
    hide Outstanding;
    var t := Next(s, step);
    if |t.requests| > |s.requests| {
      OutstandingAppend(s.requests, Last(t.requests), id);
    }
    if id !in s.sessions {
      NoneOutstanding(s.requests, id);
    }
  }

  lemma AskStaysWithin(s: State, r: nat, id: Id)
    requires IsWithin(s, id)
    ensures IsWithin(Next(s, AskCompleted(r)), id)
  {
    hide Outstanding;
    var t := Next(s, AskCompleted(r));
    if t != s {
      OutstandingUpdate(s.requests, r, t.requests[r], id);
    }
  }

  lemma StepStaysWithin(s: State, step: Step, id: Id)
    requires Safe(s) && IsWithin(s, id)
    requires Admits(s, step, id) ==> Outstanding(s.requests, id) == 0
    ensures IsWithin(Next(s, step), id)
  {
    hide Safe, Outstanding, Act;
    match step {
      case Advance(_, _) =>
        if id in s.sessions {
          AdvanceNeverRaises(s, step, id);
        }
      case BeginCreate(_, _, _, _, _, _) => BeginStaysWithin(s, step, id);
      case BeginPatch(_, _) => BeginStaysWithin(s, step, id);
      case AskCompleted(r) => AskStaysWithin(s, r, id);
      case _ =>
    }
  }

  lemma {:induction false} DisciplineKeepsWithin(maxSize: int, steps: seq<Step>, id: Id, k: nat)
    requires Disciplined(maxSize, steps, id) && k <= |steps|
    ensures IsWithin(Run(maxSize, steps[..k]), id)
  {
    hide Next, Safe, Admits, IsWithin;
    if k == 0 {
      NothingIsWithin(maxSize, id);
    } else {
      assert Front(steps[..k]) == steps[..k - 1];
      DisciplineKeepsWithin(maxSize, steps, id, k - 1);
      RunIsSafe(maxSize, steps[..k - 1]);
      StepStaysWithin(Run(maxSize, steps[..k - 1]), steps[k - 1], id);
    }
  }

  lemma NothingIsWithin(maxSize: int, id: Id)
    ensures IsWithin(Init(maxSize), id)
  {
  }

  /** At no moment of the run can the requests in progress push the live upload past its length. */
  ghost predicate NeverCanPass(maxSize: int, steps: seq<Step>, id: Id) {
    forall k :: 0 <= k <= |steps| && IsLive(Run(maxSize, steps[..k]), id) ==> !CanPass(maxSize, steps[..k], id)
  }

  /** The discipline is exactly what keeps an upload from being pushed past its length. */
  lemma {:induction false} DisciplineIsExact(maxSize: int, steps: seq<Step>, id: Id)
    ensures Disciplined(maxSize, steps, id) <==> NeverCanPass(maxSize, steps, id)
  {
    hide Run, Next, Admits, Outstanding;
    if Disciplined(maxSize, steps, id) {
      forall k | 0 <= k <= |steps| && IsLive(Run(maxSize, steps[..k]), id) ensures !CanPass(maxSize, steps[..k], id) {
        DisciplineKeepsWithin(maxSize, steps, id, k);
        PassesIffReachDoes(maxSize, steps[..k], id);
      }
    } else {
      var k :| 0 <= k < |steps| && Admits(Run(maxSize, steps[..k]), steps[k], id)
            && Outstanding(Run(maxSize, steps[..k]).requests, id) != 0;
      assert steps[..k] + [steps[k]] == steps[..k + 1];
      AdmissionIsSafe(maxSize, steps[..k], steps[k], id);
      AdmittedIsLive(maxSize, steps, k, id);
    }
  }

  lemma AdmittedIsLive(maxSize: int, steps: seq<Step>, k: nat, id: Id)
    requires k < |steps| && Admits(Run(maxSize, steps[..k]), steps[k], id)
    ensures IsLive(Run(maxSize, steps[..k + 1]), id)
  {
    assert Front(steps[..k + 1]) == steps[..k];
  }

  /** In particular the offset of the upload, live or not, is within its length. */
  lemma {:induction false} DisciplineBoundsOffset(maxSize: int, steps: seq<Step>, id: Id)
    requires Disciplined(maxSize, steps, id) && id in Run(maxSize, steps).sessions
    ensures Run(maxSize, steps).sessions[id].offset <= Run(maxSize, steps).sessions[id].length
  {
    hide Run, Disciplined, Outstanding;
    DisciplineKeepsWithin(maxSize, steps, id, |steps|);
    assert steps[..|steps|] == steps;
  }

  // Two at once --------------------------------------------------------------------

  /** A request that has found room finds at most that room for the rest of the run. */
  ghost predicate KnowsRoom(s: State, r: int) {
    0 <= r < |s.requests| && s.requests[r].pc.Lookup? && s.requests[r].id in s.sessions ==>
      s.sessions[s.requests[r].id].length - s.sessions[s.requests[r].id].offset <= s.requests[r].pc.remaining
  }

  lemma StepKnowsRoom(s: State, step: Step, r: int)
    requires Safe(s) && KnowsRoom(s, r)
    ensures KnowsRoom(Next(s, step), r)
  {
    hide Act;
    if step.Advance? && Enabled(s, step.r, step.event) {
      var request := s.requests[step.r];
      Effects(request.op, request.pc, UploadOf(s, request.id), step.event);
      EventConserves(request.op, request.pc, UploadOf(s, request.id), step.event);
      NeverBackToLookup(request.op, request.pc, UploadOf(s, request.id), step.event);
    }
  }

  lemma NeverBackToLookup(op: Op, pc: Pc, u: Upload, event: Event)
    requires Fits(pc, event)
    ensures !Act(op, pc, u, event).pc.Lookup?
  {
  }

  lemma {:induction false} RunKnowsRoom(maxSize: int, steps: seq<Step>, r: int)
    ensures KnowsRoom(Run(maxSize, steps), r)
  {
    hide Next, Safe, KnowsRoom;
    if steps == [] {
      NobodyKnowsRoom(maxSize, r);
    } else {
      RunKnowsRoom(maxSize, Front(steps), r);
      RunIsSafe(maxSize, Front(steps));
      StepKnowsRoom(Run(maxSize, Front(steps)), Last(steps), r);
    }
  }

  lemma NobodyKnowsRoom(maxSize: int, r: int)
    ensures KnowsRoom(Init(maxSize), r)
  {
  }

  /** Two of the requests count separately. */
  lemma {:induction false} TwoOutstanding(requests: seq<Request>, p: nat, q: nat, id: Id)
    requires p < q < |requests| && requests[p].id == id && requests[q].id == id
    ensures Outstanding(requests, id) >= Potential(requests[p].pc) + Potential(requests[q].pc)
  {
    hide Potential;
    if q == |requests| - 1 {
      OneOutstanding(Front(requests), p, id);
    } else {
      TwoOutstanding(Front(requests), p, q, id);
    }
  }

  lemma {:induction false} OneOutstanding(requests: seq<Request>, p: nat, id: Id)
    requires p < |requests| && requests[p].id == id
    ensures Outstanding(requests, id) >= Potential(requests[p].pc)
  {
    hide Potential;
    if p < |requests| - 1 {
      OneOutstanding(Front(requests), p, id);
    }
  }

  /** Two requests that both found room can always push the upload past its length. */
  lemma {:induction false} TwoAdmittedOvershoot(maxSize: int, steps: seq<Step>, p: nat, q: nat, id: Id)
    requires var s := Run(maxSize, steps);
      && p < q < |s.requests| && s.requests[p].id == id && s.requests[q].id == id && IsLive(s, id)
      && s.requests[p].pc.Lookup? && 0 < s.requests[p].pc.remaining < MAX_INT64
      && s.requests[q].pc.Lookup? && 0 < s.requests[q].pc.remaining < MAX_INT64
    ensures CanPass(maxSize, steps, id)
  {
    hide Run, Outstanding;
    RunKnowsRoom(maxSize, steps, p);
    TwoOutstanding(Run(maxSize, steps).requests, p, q, id);
    PassesIffReachDoes(maxSize, steps, id);
  }

  /** For every length but the largest there are such runs: two PATCH requests can stage twice the length. */
  lemma {:induction false} RaceOvershoots(id: Id, length: int) returns (steps: seq<Step>)
    requires 0 < length < MAX_INT64
    ensures var s := Run(0, steps);
      IsLive(s, id) && s.sessions[id].length == length && s.sessions[id].offset == 2 * length
  {
    var create, patch := BeginCreate(id, length, "", "", false, false), BeginPatch(id, 0);
    var race := [create, patch, patch];
    var created, patching := Request(Create, id, Done(Accepted(0, None), [])), Request(Patch, id, Lookup(length));
    assert Front([create]) == [] && Front([create, patch]) == [create] && Front(race) == [create, patch];
    assert Run(0, [create]) == Next(Init(0), create);
    assert Run(0, [create, patch]) == Next(Next(Init(0), create), patch);
    assert Run(0, race).requests == [] + [created] + [patching] + [patching];
    OutstandingAppend([], created, id);
    OutstandingAppend([created], patching, id);
    OutstandingAppend([created, patching], patching, id);
    assert [] + [created] == [created] && [created] + [patching] == [created, patching];
    var more := ReachIsAttained(0, race, id);
    steps := race + more;
  }

  /** A live upload whose offset has passed its length can never be finished. */
  lemma {:induction false} OvershootIsFinal(maxSize: int, steps: seq<Step>, k: nat, id: Id)
    requires k <= |steps|
    requires var s := Run(maxSize, steps[..k]);
      id in s.uploads && id in s.sessions && s.sessions[id].offset > s.sessions[id].length
    ensures !HandedOver(Run(maxSize, steps), id) && id !in Run(maxSize, steps).completed
  {
    hide Next, Safe, HandedOver, LeavesFull;
    SavedOnceAndFull(maxSize, steps);
    if HandedOver(Run(maxSize, steps), id) {
      assert LeftFull(maxSize, steps, id);
      var j :| 0 <= j < |steps| && LeavesFull(Run(maxSize, steps[..j]), Run(maxSize, steps[..j + 1]), id);
      CannotLeaveFull(maxSize, steps, j, k, id);
    }
  }

  lemma CannotLeaveFull(maxSize: int, steps: seq<Step>, j: nat, k: nat, id: Id)
    requires j < |steps| && k <= |steps|
    requires var s := Run(maxSize, steps[..k]);
      id in s.uploads && id in s.sessions && s.sessions[id].offset > s.sessions[id].length
    ensures !LeavesFull(Run(maxSize, steps[..j]), Run(maxSize, steps[..j + 1]), id)
  {
    hide Next, Run;
    if id !in Run(maxSize, steps[..j]).sessions {
    } else if k <= j {
      assert steps[..j][..k] == steps[..k];
      OffsetsNeverDecrease(maxSize, steps[..j], k, id);
      NothingIsLost(maxSize, steps[..j], k);
    } else {
      assert steps[..k][..j + 1] == steps[..j + 1] && steps[..j + 1][..j] == steps[..j];
      OffsetsNeverDecrease(maxSize, steps[..j + 1], j, id);
      if id in Run(maxSize, steps[..j + 1]).sessions {
        OffsetsNeverDecrease(maxSize, steps[..k], j + 1, id);
      }
    }
  }
}
