/** Which lengths can be served at all, and what a failed append does to a served upload: runs of one upload. */
module TusLimits {
  import opened Prelude
  import opened TusProtocol
  import opened TusSafety
  import opened TusLedger
  import opened TusExclusive
  import opened TusOvershoot

  // The largest length -----------------------------------------------------------

  /** Nothing has reached an upload of the largest length, and no request for it can write. */
  ghost predicate Barren(s: State, id: Id) {
    id in s.sessions && s.sessions[id].length == MAX_INT64 ==>
      && s.sessions[id].content == [] && s.sessions[id].offset == 0
      && forall r :: Active(s, r, id) ==> BarrenPc(s.requests[r].pc)
  }

  predicate BarrenPc(pc: Pc) {
    match pc
    case Lookup(remaining) => remaining == MAX_INT64
    case Writing(remaining, chunk) => remaining == MAX_INT64 && chunk == []
    case Crediting(chunk) => chunk == []
    case _ => true
  }

  lemma BarrenEvent(op: Op, pc: Pc, u: Upload, event: Event)
    requires Fits(pc, event) && BarrenPc(pc)
    ensures var e := Act(op, pc, u, event);
      BarrenPc(e.pc) && e.upload.session == u.session
  {
  }

  /**
   * The limit on a copy is the remaining length plus one, in 64 bits. For the largest length Go can
   * parse it wraps to a negative number, so no run ever stages a byte of such an upload.
   */
  lemma {:induction false} LargestLengthStaysEmpty(maxSize: int, steps: seq<Step>, id: Id)
    ensures Barren(Run(maxSize, steps), id)
  {
    if steps != [] {
      hide Act, Safe;
      LargestLengthStaysEmpty(maxSize, Front(steps), id);
      RunIsSafe(maxSize, Front(steps));
      BarrenStep(Run(maxSize, Front(steps)), Last(steps), id);
    }
  }

  lemma BarrenStep(s: State, step: Step, id: Id)
    requires Safe(s) && Barren(s, id)
    ensures Barren(Next(s, step), id)
  {
    hide Act;
    if step.Advance? && Enabled(s, step.r, step.event) {
      var request := s.requests[step.r];
      Effects(request.op, request.pc, UploadOf(s, request.id), step.event);
      assert Active(s, step.r, request.id);
      if request.id == id && s.sessions[id].length == MAX_INT64 {
        BarrenEvent(request.op, request.pc, UploadOf(s, request.id), step.event);
      }
    } else {
      assert forall r :: Active(s, r, id) ==> id in s.sessions;
    }
  }

  // Runs of a single upload ---------------------------------------------------------

  /** A handler that has only ever seen one upload, not yet completed; its last request stands at pc. */
  function Lone(maxSize: int, id: Id, session: Session, live: bool, earlier: seq<Request>, pc: Pc,
                saves: seq<SaveCall>): State {
    State(maxSize, map[id := session], if live then {id} else {}, map[], earlier + [Request(Patch, id, pc)], saves)
  }

  lemma LoneStep(maxSize: int, steps: seq<Step>, id: Id, session: Session, live: bool, earlier: seq<Request>, pc: Pc,
                 saves: seq<SaveCall>, event: Event)
    returns (longer: seq<Step>)
    requires Run(maxSize, steps) == Lone(maxSize, id, session, live, earlier, pc, saves)
    requires Fits(pc, event) && !event.Record?
    ensures longer == steps + [Advance(|earlier|, event)]
    ensures var e := Act(Patch, pc, Upload(session, live, None), event);
      var now := e.upload.session;
      Run(maxSize, longer) == Lone(maxSize, id, now, e.upload.live, earlier, e.pc,
                                   if e.saves then saves + [SaveCall(id, now.name, now.contentType, now.content)]
                                       else saves)
  {
    hide Act;
    var r := |earlier|;
    longer := steps + [Advance(r, event)];
    assert Front(longer) == steps;
    var s := Run(maxSize, steps);
    assert UploadOf(s, id) == Upload(session, live, None);
    var e := EffectOf(s, r, event);
    EventLeavesNoFile(Patch, pc, UploadOf(s, id), event);
    assert (earlier + [Request(Patch, id, pc)])[r := Request(Patch, id, e.pc)] == earlier + [Request(Patch, id, e.pc)];
    assert map[id := session][id := e.upload.session] == map[id := e.upload.session];
    assert saves + [] == saves;
  }

  lemma EventLeavesNoFile(op: Op, pc: Pc, u: Upload, event: Event)
    requires Fits(pc, event) && !event.Record? && u.file == None
    ensures var e := Act(op, pc, u, event); e.upload.file == None && (e.upload.live ==> u.live)
  {
  }

  function Created(id: Id): Request {
    Request(Create, id, Done(Accepted(0, None), []))
  }

  /** The handler after creating its only upload. */
  function Fresh(maxSize: int, id: Id, length: int): State {
    State(maxSize, map[id := Session(length, 0, [], "", "")], {id}, map[], [Created(id)], [])
  }

  lemma LoneCreate(maxSize: int, id: Id, length: int) returns (steps: seq<Step>)
    requires 0 < length <= MAX_INT64 && (maxSize > 0 ==> length <= maxSize)
    ensures steps == [BeginCreate(id, length, "", "", false, false)]
    ensures Run(maxSize, steps) == Fresh(maxSize, id, length)
  {
    steps := [BeginCreate(id, length, "", "", false, false)];
    assert Front(steps) == [];
    assert Run(maxSize, steps) == Next(Init(maxSize), steps[0]);
  }

  lemma LonePatch(maxSize: int, steps: seq<Step>, id: Id, session: Session, requests: seq<Request>)
    returns (longer: seq<Step>)
    requires Run(maxSize, steps) == State(maxSize, map[id := session], {id}, map[], requests, [])
    ensures longer == steps + [BeginPatch(id, session.offset)]
    ensures Run(maxSize, longer) == Lone(maxSize, id, session, true, requests, Lookup(session.length - session.offset),
                                         [])
  {
    longer := steps + [BeginPatch(id, session.offset)];
    assert Front(longer) == steps;
  }

  /** A PATCH stages and credits its bytes. */
  lemma LoneAppend(maxSize: int, steps: seq<Step>, id: Id, session: Session, earlier: seq<Request>, bytes: seq<byte>)
    returns (longer: seq<Step>)
    requires Run(maxSize, steps) == Lone(maxSize, id, session, true, earlier, Lookup(|bytes|), [])
    requires |bytes| < MAX_INT64
    ensures var r := |earlier|;
      longer == steps + [Advance(r, FindSession), Advance(r, Write(bytes)), Advance(r, CopyEnds(true)),
                         Advance(r, Credit)]
    ensures var more := session.(offset := session.offset + |bytes|, content := session.content + bytes);
      Run(maxSize, longer) == Lone(maxSize, id, more, true, earlier, Recheck, [])
  {
    hide Run, Next, Lone;
    var n := |bytes|;
    assert [] + bytes == bytes;
    var written := session.(content := session.content + bytes);
    longer := LoneStep(maxSize, steps, id, session, true, earlier, Lookup(n), [], FindSession);
    longer := LoneStep(maxSize, longer, id, session, true, earlier, Writing(n, []), [], Write(bytes));
    longer := LoneStep(maxSize, longer, id, written, true, earlier, Writing(n, bytes), [], CopyEnds(true));
    longer := LoneStep(maxSize, longer, id, written, true, earlier, Crediting(bytes), [], Credit);
  }

  /** A full upload is handed over. */
  lemma LoneFinish(maxSize: int, steps: seq<Step>, id: Id, full: Session, earlier: seq<Request>)
    returns (longer: seq<Step>)
    requires Run(maxSize, steps) == Lone(maxSize, id, full, true, earlier, Recheck, []) && full.offset == full.length
    ensures var r := |earlier|; longer == steps + [Advance(r, Check), Advance(r, Take), Advance(r, Save(None))]
    ensures Run(maxSize, longer) == Lone(maxSize, id, full, false, earlier, Done(InternalError, []),
                                         [SaveCall(id, full.name, full.contentType, full.content)])
  {
    hide Run, Next, Lone;
    longer := LoneStep(maxSize, steps, id, full, true, earlier, Recheck, [], Check);
    longer := LoneStep(maxSize, longer, id, full, true, earlier, Finishing(full.length), [], Take);
    longer := LoneStep(maxSize, longer, id, full, false, earlier, Saving(full.length), [], Save(None));
    assert [] + [SaveCall(id, full.name, full.contentType, full.content)]
        == [SaveCall(id, full.name, full.contentType, full.content)];
  }

  /** One PATCH with all the bytes an upload still misses hands it over. */
  lemma LoneDelivery(maxSize: int, steps: seq<Step>, id: Id, session: Session, earlier: seq<Request>, bytes: seq<byte>)
    returns (longer: seq<Step>, more: seq<Step>)
    requires Run(maxSize, steps) == Lone(maxSize, id, session, true, earlier, Lookup(|bytes|), [])
    requires session.offset + |bytes| == session.length && |bytes| < MAX_INT64
    ensures longer == steps + more && OnlyAdvances(more)
    ensures var full := session.(offset := session.length, content := session.content + bytes);
      Run(maxSize, longer) == Lone(maxSize, id, full, false, earlier, Done(InternalError, []),
                                   [SaveCall(id, session.name, session.contentType, full.content)])
  {
    hide Run, Next, Lone;
    var r := |earlier|;
    longer := LoneAppend(maxSize, steps, id, session, earlier, bytes);
    longer := LoneFinish(maxSize, longer, id, session.(offset := session.length, content := session.content + bytes),
                         earlier);
    var append := [Advance(r, FindSession), Advance(r, Write(bytes)), Advance(r, CopyEnds(true)), Advance(r, Credit)];
    more := append + [Advance(r, Check), Advance(r, Take), Advance(r, Save(None))];
    assert longer == steps + more;
  }

  // The exact lengths ------------------------------------------------------------------

  /** The run creates an upload of the length and hands it to the writer. */
  ghost predicate Serves(maxSize: int, steps: seq<Step>, id: Id, length: int) {
    var s := Run(maxSize, steps);
    id in s.sessions && s.sessions[id].length == length && IsSaved(s, id)
  }

  /** An upload of the largest length can be created like any other, and is not: no run hands it to the writer. */
  lemma {:induction false} LargestIsAcceptedAndStuck(maxSize: int, id: Id) returns (steps: seq<Step>)
    requires maxSize > 0 ==> MAX_INT64 <= maxSize
    ensures var s := Run(maxSize, steps); id in s.uploads && id in s.sessions && s.sessions[id].length == MAX_INT64
    ensures forall more :: !Serves(maxSize, more, id, MAX_INT64)
  {
    hide Run, Serves;
    steps := LoneCreate(maxSize, id, MAX_INT64);
    forall more ensures !Serves(maxSize, more, id, MAX_INT64) {
      LargestIsNeverServed(maxSize, more, id);
    }
  }

  lemma LargestIsNeverServed(maxSize: int, steps: seq<Step>, id: Id)
    ensures !Serves(maxSize, steps, id, MAX_INT64)
  {
    hide Next, Run, LeavesFull;
    if Serves(maxSize, steps, id, MAX_INT64) {
      SavedOnceAndFull(maxSize, steps);
      assert HandedOver(Run(maxSize, steps), id);
      assert LeftFull(maxSize, steps, id);
      var k :| 0 <= k < |steps| && LeavesFull(Run(maxSize, steps[..k]), Run(maxSize, steps[..k + 1]), id);
      LeftWithAllBytes(maxSize, steps, k, id);
      LargestLengthStaysEmpty(maxSize, steps, id);
    }
  }

  lemma LeftWithAllBytes(maxSize: int, steps: seq<Step>, k: nat, id: Id)
    requires k < |steps| && LeavesFull(Run(maxSize, steps[..k]), Run(maxSize, steps[..k + 1]), id)
    ensures var sessions := Run(maxSize, steps).sessions;
      id in sessions && sessions[id].offset >= sessions[id].length
  {
    hide Run, Next;
    OffsetsNeverDecrease(maxSize, steps, k, id);
    NothingIsLost(maxSize, steps, k);
  }

  /** Of the lengths a creation may name, those can be served that are not the largest. */
  lemma {:induction false} ServedLengths(maxSize: int, id: Id, length: int)
    requires 0 < length <= MAX_INT64 && (maxSize > 0 ==> length <= maxSize)
    ensures (exists steps :: Serves(maxSize, steps, id, length)) <==> length < MAX_INT64
  {
    hide Run, Serves;
    if length < MAX_INT64 {
      var steps := SomeDelivery(maxSize, id, length);
    } else {
      forall steps ensures !Serves(maxSize, steps, id, length) {
        LargestIsNeverServed(maxSize, steps, id);
      }
    }
  }

  lemma SomeDelivery(maxSize: int, id: Id, length: int) returns (steps: seq<Step>)
    requires 0 < length < MAX_INT64 && (maxSize > 0 ==> length <= maxSize)
    ensures Serves(maxSize, steps, id, length)
  {
    hide Run, Next;
    var session, bytes := Session(length, 0, [], "", ""), seq(length, _ => 0 as byte);
    steps := LoneCreate(maxSize, id, length);
    steps := LonePatch(maxSize, steps, id, session, [Created(id)]);
    var more;
    steps, more := LoneDelivery(maxSize, steps, id, session, [Created(id)], bytes);
    assert Run(maxSize, steps).saves[0].id == id;
  }

  // A failed append ------------------------------------------------------------------

  /** Requests served one at a time, one of whose appends fails: the writer gets a byte more than the length. */
  lemma {:induction false} FailedAppendReachesWriter(id: Id) returns (steps: seq<Step>)
    ensures OneAtATime(0, steps, id)
    ensures var s := Run(0, steps);
      && |s.saves| == 1 && s.saves[0] == SaveCall(id, "", "", [7, 9])
      && id in s.sessions && s.sessions[id].length == 1
      && Total(s.requests, id, Lost) != multiset{}
  {
    hide Run, Next;
    var empty, dirty := Session(1, 0, [], "", ""), Session(1, 0, [7], "", "");
    assert [] + [7] == [7 as byte] && [7] + [9] == [7 as byte, 9];
    var created := LoneCreate(0, id, 1);
    steps := LonePatch(0, created, id, empty, [Created(id)]);
    steps := LoneStep(0, steps, id, empty, true, [Created(id)], Lookup(1), [], FindSession);
    steps := LoneStep(0, steps, id, empty, true, [Created(id)], Writing(1, []), [], Write([7]));
    var failed := LoneStep(0, steps, id, dirty, true, [Created(id)], Writing(1, [7]), [], CopyFails);
    var earlier := [Created(id), Request(Patch, id, Done(InvalidChunk, [7]))];
    assert [Created(id)] + [Request(Patch, id, Done(InvalidChunk, [7]))] == earlier;
    steps := LonePatch(0, failed, id, dirty, earlier);
    var more;
    steps, more := LoneDelivery(0, steps, id, dirty, earlier, [9]);
    BothBeganIdle(steps, created, failed, more, id);
    WriterReceives(0, steps, 0);
  }

  lemma BothBeganIdle(steps: seq<Step>, created: seq<Step>, failed: seq<Step>, more: seq<Step>, id: Id)
    requires |created| == 1 && created[0].BeginCreate?
    requires failed == created + [BeginPatch(id, 0), Advance(1, FindSession), Advance(1, Write([7])),
                                  Advance(1, CopyFails)]
    requires steps == failed + [BeginPatch(id, 0)] + more && OnlyAdvances(more)
    requires Run(0, created) == Fresh(0, id, 1)
    requires Run(0, failed) == Lone(0, id, Session(1, 0, [7], "", ""), true, [Created(id)], Done(InvalidChunk, [7]), [])
    ensures OneAtATime(0, steps, id)
  {
    hide Run;
    assert steps[..1] == created && steps[..|failed|] == failed;
    assert forall j :: 0 <= j < |more| ==> more[j] in more;
    assert forall k :: |failed| < k < |steps| ==> steps[k] == more[k - |failed| - 1];
  }
}
