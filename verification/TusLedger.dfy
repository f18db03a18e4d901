/** Where every byte written to a staged file is accounted for, in every run. */
module TusLedger {
  import opened Prelude
  import opened TusProtocol
  import opened TusSafety

  /** Bytes an append has written and may still credit. */
  function InFlight(pc: Pc): seq<byte> {
    if pc.Writing? || pc.Crediting? then pc.chunk else []
  }

  /** Bytes an append had written when it failed. */
  function Lost(pc: Pc): seq<byte> {
    if pc.Aborting? || pc.Done? then pc.lost else []
  }

  /** The bytes of one kind over all requests for an upload. */
  function Total(requests: seq<Request>, id: Id, part: Pc -> seq<byte>): multiset<byte> {
    if requests == [] then multiset{}
    else Total(Front(requests), id, part) + if Last(requests).id == id then multiset(part(Last(requests).pc))
        else multiset{}
  }

  /** The chunk a step credits to the upload, if it does. */
  function CreditedBy(s: State, step: Step, id: Id): seq<seq<byte>> {
    if step.Advance? && step.event.Credit? && Enabled(s, step.r, step.event) && s.requests[step.r].id == id
    then [s.requests[step.r].pc.chunk] else []
  }

  /** The chunks credited to the upload over a run, in the order they were. */
  function Credits(maxSize: int, steps: seq<Step>, id: Id): seq<seq<byte>> {
    if steps == [] then []
    else Credits(maxSize, Front(steps), id) + CreditedBy(Run(maxSize, Front(steps)), Last(steps), id)
  }

  lemma {:induction false} TotalUpdate(requests: seq<Request>, r: nat, pc: Pc, id: Id, part: Pc -> seq<byte>)
    requires r < |requests|
    ensures var old_, new_ := requests[r], requests[r].(pc := pc);
      Total(requests[r := new_], id, part) + (if old_.id == id then multiset(part(old_.pc)) else multiset{})
      == Total(requests, id, part) + (if old_.id == id then multiset(part(pc)) else multiset{})
  {
    var updated := requests[r := requests[r].(pc := pc)];
    if r == |requests| - 1 {
      assert Front(updated) == Front(requests);
    } else {
      assert Front(updated) == Front(requests)[r := requests[r].(pc := pc)];
      assert Last(updated) == Last(requests);
      TotalUpdate(Front(requests), r, pc, id, part);
      var before, after := Total(Front(requests), id, part), Total(Front(updated), id, part);
      var last := if Last(requests).id == id then multiset(part(Last(requests).pc)) else multiset{};
      var out := if requests[r].id == id then multiset(part(requests[r].pc)) else multiset{};
      var in_ := if requests[r].id == id then multiset(part(pc)) else multiset{};
      assert after + last + out == after + out + last && before + last + in_ == before + in_ + last;
    }
  }

  /** What an event does to the bytes: nothing appears or disappears but what is written. */
  lemma EventConserves(op: Op, pc: Pc, u: Upload, event: Event)
    requires Fits(pc, event)
    ensures var e := Act(op, pc, u, event);
      var credited := if event.Credit? then pc.chunk else [];
      && multiset(e.upload.session.content) + multiset(InFlight(pc)) + multiset(Lost(pc))
         == multiset(u.session.content) + multiset(InFlight(e.pc)) + multiset(Lost(e.pc)) + multiset(credited)
      && e.upload.session.offset == u.session.offset + |credited|
      && u.session.content <= e.upload.session.content
      && (!u.live ==> e.upload.session.content == u.session.content)
  {
  }

  /** The bytes of the staged file are those credited, in flight, or lost; the offset counts the credited ones. */
  ghost predicate Balanced(s: State, id: Id, credits: seq<seq<byte>>) {
    Accounts(if id in s.sessions then Some(s.sessions[id]) else None,
             Total(s.requests, id, InFlight), Total(s.requests, id, Lost), credits)
  }

  ghost predicate Accounts(session: Option<Session>, flight: multiset<byte>, lost: multiset<byte>,
                           credits: seq<seq<byte>>) {
    match session
    case None => credits == [] && flight == multiset{} && lost == multiset{}
    case Some(session) =>
      && session.offset == |Concat(credits)|
      && multiset(session.content) == multiset(Concat(credits)) + flight + lost
  }

  lemma NewSessionAccounts(session: Session, flight: multiset<byte>, lost: multiset<byte>, credits: seq<seq<byte>>)
    requires Accounts(None, flight, lost, credits) && session.content == [] && session.offset == 0
    ensures Accounts(Some(session), flight, lost, credits)
  {
  }

  lemma ConcatSnoc(pieces: seq<seq<byte>>, piece: seq<byte>)
    ensures Concat(pieces + [piece]) == Concat(pieces) + piece
  {
    assert Front(pieces + [piece]) == pieces;
  }

  /** The sums behind AdvanceBalances, byte by byte. */
  lemma Balance(was: multiset<byte>, now: multiset<byte>, flight: multiset<byte>, flight': multiset<byte>,
                lost: multiset<byte>, lost': multiset<byte>, credited: multiset<byte>,
                flights: multiset<byte>, flights': multiset<byte>, losses: multiset<byte>, losses': multiset<byte>,
                credits: multiset<byte>)
    requires now + flight + lost == was + flight' + lost' + credited
    requires flights' + flight == flights + flight'
    requires losses' + lost == losses + lost'
    requires was == credits + flights + losses
    ensures now == credits + credited + flights' + losses'
  {
    forall b: byte ensures now[b] == (credits + credited + flights' + losses')[b] {
      assert (now + flight + lost)[b] == (was + flight' + lost' + credited)[b];
      assert (flights' + flight)[b] == (flights + flight')[b];
      assert (losses' + lost)[b] == (losses + lost')[b];
      assert was[b] == (credits + flights + losses)[b];
    }
  }

  lemma AdvanceBalances(s: State, r: nat, event: Event, id: Id, credits: seq<seq<byte>>)
    requires Enabled(s, r, event) && s.requests[r].id == id && Balanced(s, id, credits)
    ensures Balanced(Next(s, Advance(r, event)), id, credits + CreditedBy(s, Advance(r, event), id))
  {
    hide Act, Concat, InFlight, Lost;
    var request, e := s.requests[r], EffectOf(s, r, event);
    var t := Next(s, Advance(r, event));
    EventConserves(request.op, request.pc, UploadOf(s, id), event);
    TotalUpdate(s.requests, r, e.pc, id, InFlight);
    TotalUpdate(s.requests, r, e.pc, id, Lost);
    var credited := if event.Credit? then request.pc.chunk else [];
    Balance(multiset(s.sessions[id].content), multiset(t.sessions[id].content),
            multiset(InFlight(request.pc)), multiset(InFlight(e.pc)), multiset(Lost(request.pc)), multiset(Lost(e.pc)),
            multiset(credited), Total(s.requests, id, InFlight), Total(t.requests, id, InFlight),
            Total(s.requests, id, Lost), Total(t.requests, id, Lost), multiset(Concat(credits)));
    if event.Credit? {
      ConcatSnoc(credits, credited);
    } else {
      assert credits + [] == credits;
    }
  }

  lemma TotalAppend(requests: seq<Request>, request: Request, id: Id, part: Pc -> seq<byte>)
    requires part(request.pc) == []
    ensures Total(requests + [request], id, part) == Total(requests, id, part)
  {
    assert Front(requests + [request]) == requests;
  }

  lemma {:induction false} TotalStays(requests: seq<Request>, r: nat, pc: Pc, id: Id, part: Pc -> seq<byte>)
    requires r < |requests| && (requests[r].id == id ==> part(requests[r].pc) == part(pc))
    ensures Total(requests[r := requests[r].(pc := pc)], id, part) == Total(requests, id, part)
  {
    var updated := requests[r := requests[r].(pc := pc)];
    if r == |requests| - 1 {
      assert Front(updated) == Front(requests);
    } else {
      assert Front(updated) == Front(requests)[r := requests[r].(pc := pc)] && Last(updated) == Last(requests);
      TotalStays(Front(requests), r, pc, id, part);
    }
  }

  /** Events of other uploads. */
  lemma OtherAdvanceBalances(s: State, r: nat, e: Effect, id: Id, credits: seq<seq<byte>>)
    requires r < |s.requests| && s.requests[r].id != id && s.requests[r].id in s.sessions && Balanced(s, id, credits)
    ensures Balanced(Apply(s, r, e), id, credits)
  {
    hide Accounts;
    TotalStays(s.requests, r, e.pc, id, InFlight);
    TotalStays(s.requests, r, e.pc, id, Lost);
  }

  /** A request that begins has written nothing. */
  lemma RequestBalances(s: State, t: State, request: Request, id: Id, credits: seq<seq<byte>>)
    requires Balanced(s, id, credits) && t.requests == s.requests + [request]
    requires InFlight(request.pc) == [] && Lost(request.pc) == []
    requires id in s.sessions ==> id in t.sessions && t.sessions[id] == s.sessions[id]
    requires id !in s.sessions && id in t.sessions ==> t.sessions[id].content == [] && t.sessions[id].offset == 0
    ensures Balanced(t, id, credits)
  {
    hide Accounts;
    TotalAppend(s.requests, request, id, InFlight);
    TotalAppend(s.requests, request, id, Lost);
    if id in t.sessions && id !in s.sessions {
      NewSessionAccounts(t.sessions[id], Total(s.requests, id, InFlight), Total(s.requests, id, Lost), credits);
    }
  }

  lemma CreateBalances(s: State, step: Step, id: Id, credits: seq<seq<byte>>)
    requires Balanced(s, id, credits) && step.BeginCreate?
    ensures Balanced(Next(s, step), id, credits)
  {
    hide Balanced;
    if Creatable(s, step.id, step.length) {
      RequestBalances(s, Next(s, step), Request(Create, step.id, FirstPc(step.length, step.hasBody, step.octetStream)),
                      id, credits);
    }
  }

  lemma PatchBalances(s: State, step: Step, id: Id, credits: seq<seq<byte>>)
    requires Balanced(s, id, credits) && step.BeginPatch?
    ensures Balanced(Next(s, step), id, credits)
  {
    hide Balanced;
    RequestBalances(s, Next(s, step), Request(Patch, step.id, PatchPc(s, step.id, step.want)), id, credits);
  }

  lemma AskBalances(s: State, r: nat, id: Id, credits: seq<seq<byte>>)
    requires Balanced(s, id, credits)
    ensures Balanced(Next(s, AskCompleted(r)), id, credits)
  {
    hide Accounts;
    if r < |s.requests| && s.requests[r].pc.Missing? {
      var pc := Next(s, AskCompleted(r)).requests[r].pc;
      TotalStays(s.requests, r, pc, id, InFlight);
      TotalStays(s.requests, r, pc, id, Lost);
    }
  }

  lemma RemovalBalances(s: State, step: Step, id: Id, credits: seq<seq<byte>>)
    requires Balanced(s, id, credits) && (step.Terminate? || step.Close?)
    ensures Balanced(Next(s, step), id, credits)
  {
  }

  lemma StepOfOther(s: State, r: nat, event: Event, id: Id, credits: seq<seq<byte>>)
    requires Balanced(s, id, credits) && (Enabled(s, r, event) ==> s.requests[r].id != id)
    ensures Balanced(Next(s, Advance(r, event)), id, credits)
  {
    hide Balanced, Apply;
    if Enabled(s, r, event) {
      OtherAdvanceBalances(s, r, EffectOf(s, r, event), id, credits);
    }
  }

  lemma StepBalances(s: State, step: Step, id: Id, credits: seq<seq<byte>>)
    requires Balanced(s, id, credits)
    ensures Balanced(Next(s, step), id, credits + CreditedBy(s, step, id))
  {
    hide Balanced, Next;
    if step.Advance? && Enabled(s, step.r, step.event) && s.requests[step.r].id == id {
      AdvanceBalances(s, step.r, step.event, id, credits);
    } else {
      assert credits + [] == credits;
      if !step.Advance? {
        match step {
          case BeginCreate(_, _, _, _, _, _) => CreateBalances(s, step, id, credits);
          case BeginPatch(_, _) => PatchBalances(s, step, id, credits);
          case AskCompleted(r) => AskBalances(s, r, id, credits);
          case _ => RemovalBalances(s, step, id, credits);
        }
      } else {
        StepOfOther(s, step.r, step.event, id, credits);
      }
    }
  }

  /**
   * Byte conservation in every run: what the staged file holds is what was credited, what appends
   * in progress may still credit, and what failed appends left behind. No credit is lost.
   */
  lemma {:induction false} Conservation(maxSize: int, steps: seq<Step>, id: Id)
    ensures Balanced(Run(maxSize, steps), id, Credits(maxSize, steps, id))
  {
    hide Next, Balanced;
    if steps != [] {
      Conservation(maxSize, Front(steps), id);
      StepBalances(Run(maxSize, Front(steps)), Last(steps), id, Credits(maxSize, Front(steps), id));
    } else {
      EmptyIsBalanced(maxSize, id);
    }
  }

  lemma EmptyIsBalanced(maxSize: int, id: Id)
    ensures Balanced(Init(maxSize), id, [])
  {
  }

  /** In numbers: the offset never exceeds what was written, and HEAD reports the bytes credited. */
  lemma {:induction false} OffsetCountsCredits(maxSize: int, steps: seq<Step>, id: Id)
    requires id in Run(maxSize, steps).sessions
    ensures var s := Run(maxSize, steps); var session := s.sessions[id];
      && |session.content| == session.offset + |Total(s.requests, id, InFlight)| + |Total(s.requests, id, Lost)|
      && 0 <= session.offset <= |session.content|
      && (id in s.uploads ==> Head(s, id) == Live(|Concat(Credits(maxSize, steps, id))|, session.length))
  {
    hide Next;
    Conservation(maxSize, steps, id);
    var s := Run(maxSize, steps);
    assert |multiset(s.sessions[id].content)| == |s.sessions[id].content|;
    assert |multiset(Concat(Credits(maxSize, steps, id)))| == |Concat(Credits(maxSize, steps, id))|;
  }

  /** A step only appends to a staged file, only while the upload is live, and never lowers an offset. */
  lemma StepOnlyAppends(s: State, step: Step, id: Id)
    requires id in s.sessions
    ensures var t := Next(s, step);
      && id in t.sessions
      && s.sessions[id].offset <= t.sessions[id].offset
      && s.sessions[id].content <= t.sessions[id].content
      && (id !in s.uploads ==> id !in t.uploads && t.sessions[id].content == s.sessions[id].content)
  {
    hide Act;
    if step.Advance? && Enabled(s, step.r, step.event) {
      var request := s.requests[step.r];
      EventConserves(request.op, request.pc, UploadOf(s, request.id), step.event);
      Effects(request.op, request.pc, UploadOf(s, request.id), step.event);
    }
  }

  lemma {:induction false} OffsetsNeverDecrease(maxSize: int, steps: seq<Step>, k: nat, id: Id)
    requires k <= |steps| && id in Run(maxSize, steps[..k]).sessions
    ensures var s, t := Run(maxSize, steps[..k]), Run(maxSize, steps);
      && id in t.sessions
      && s.sessions[id].offset <= t.sessions[id].offset
      && s.sessions[id].content <= t.sessions[id].content
      && (id !in s.uploads ==> id !in t.uploads && t.sessions[id].content == s.sessions[id].content)
  {
    hide Next;
    if k == |steps| {
      assert steps[..k] == steps;
    } else {
      assert Front(steps)[..k] == steps[..k];
      OffsetsNeverDecrease(maxSize, Front(steps), k, id);
      StepOnlyAppends(Run(maxSize, Front(steps)), Last(steps), id);
    }
  }

  /** What the writer was given is what the staged file holds ever after. */
  ghost predicate SavesAreFinal(s: State) {
    forall k :: 0 <= k < |s.saves| ==>
      s.saves[k].id in s.sessions && s.saves[k].id !in s.uploads
          && s.saves[k].content == s.sessions[s.saves[k].id].content
  }

  lemma {:induction false} SavedContentIsFinal(maxSize: int, steps: seq<Step>)
    ensures SavesAreFinal(Run(maxSize, steps))
  {
    if steps != [] {
      hide Next, Safe;
      SavedContentIsFinal(maxSize, Front(steps));
      StepKeepsSaves(maxSize, steps);
    }
  }

  lemma StepKeepsSaves(maxSize: int, steps: seq<Step>)
    requires steps != [] && SavesAreFinal(Run(maxSize, Front(steps)))
    ensures SavesAreFinal(Run(maxSize, steps))
  {
    hide Act;
    RunIsSafe(maxSize, steps);
    var s, t, step := Run(maxSize, Front(steps)), Run(maxSize, steps), Last(steps);
    if step.Advance? && Enabled(s, step.r, step.event) {
      var request := s.requests[step.r];
      EventConserves(request.op, request.pc, UploadOf(s, request.id), step.event);
      Effects(request.op, request.pc, UploadOf(s, request.id), step.event);
    }
    forall k | 0 <= k < |t.saves| ensures t.saves[k].content == t.sessions[t.saves[k].id].content {
      if k < |s.saves| {
        assert t.saves[k] == s.saves[k];
        StepOnlyAppends(s, step, s.saves[k].id);
      }
    }
  }
}
