/**
 * The resumable upload handler as a transition system. A step is one region the
 * handler runs under its mutex, or one operation on a staged file; the steps of
 * any number of requests interleave.
 */
module TusProtocol {
  import opened Prelude

  type Id = string
  type FileID = string

  /** A session outlives its entry in the uploads map: requests in progress still point to it. */
  datatype Session = Session(length: int, offset: int, content: seq<byte>, name: string, contentType: string)

  datatype Op = Create | Patch

  datatype Reply =
    | Accepted(offset: int, file: Option<FileID>)
    | NotFound
    | AlreadyComplete
    | OffsetMismatch(expected: int)
    | UnsupportedMedia
    | TooLarge
    | InvalidChunk
    | InternalError

  /** What a request does next, with the local variables it still needs. */
  datatype Pc =
    | Missing
    | Lookup(remaining: int)
    | Writing(remaining: int, chunk: seq<byte>)
    | Crediting(chunk: seq<byte>)
    | Recheck
    | Finishing(offset: int)
    | Saving(offset: int)
    | Recording(offset: int, file: FileID)
    | Aborting(lost: seq<byte>, reply: Reply)
    | Done(reply: Reply, lost: seq<byte>)

  /** The request works on a session. */
  predicate Pending(pc: Pc) {
    !pc.Done? && !pc.Missing?
  }

  datatype Request = Request(op: Op, id: Id, pc: Pc)

  datatype SaveCall = SaveCall(id: Id, name: string, contentType: string, content: seq<byte>)

  /** The handler, every session ever made, the requests served so far, and the calls to the writer. */
  datatype State = State(
    maxSize: int,
    sessions: map<Id, Session>,
    uploads: set<Id>,
    completed: map<Id, FileID>,
    requests: seq<Request>,
    saves: seq<SaveCall>)

  function Init(maxSize: int): State {
    State(maxSize, map[], {}, map[], [], [])
  }

  /** What a request in progress may do. */
  datatype Event =
    | FindSession
    | Write(bytes: seq<byte>)
    | CopyFails
    | CopyEnds(synced: bool)
    | Credit
    | Check
    | Take
    | OpenFails
    | Save(outcome: Option<FileID>)
    | Record
    | Abort

  datatype Step =
    | BeginCreate(id: Id, length: int, name: string, contentType: string, hasBody: bool, octetStream: bool)
    | BeginPatch(id: Id, want: int)
    | AskCompleted(r: nat)
    | Advance(r: nat, event: Event)
    | Terminate(target: Id)
    | Close

  /** What the handler holds for one upload: its session, whether it is in the map, the file it became. */
  datatype Upload = Upload(session: Session, live: bool, file: Option<FileID>)

  /** Where an event leaves the request and the upload, and whether it called the writer. */
  datatype Effect = Effect(pc: Pc, upload: Upload, saves: bool)

  /** remaining + 1 in 64 bits: the most a reader is asked for; it wraps for the largest length. */
  function Limit(remaining: int): int {
    if remaining == MAX_INT64 then MIN_INT64 else remaining + 1
  }

  /** An append that fails: PATCH answers at once, creation aborts the upload first. */
  function Failed(op: Op, lost: seq<byte>, tooLarge: bool): Pc {
    if op.Create? then Aborting(lost, InvalidChunk)
    else Done(if tooLarge then TooLarge else InvalidChunk, lost)
  }

  predicate Fits(pc: Pc, event: Event) {
    match event
    case FindSession => pc.Lookup?
    case Write(bytes) => pc.Writing? && |pc.chunk| + |bytes| <= Limit(pc.remaining)
    case CopyFails => pc.Writing?
    case CopyEnds(_) => pc.Writing?
    case Credit => pc.Crediting?
    case Check => pc.Recheck?
    case Take => pc.Finishing?
    case OpenFails => pc.Saving?
    case Save(_) => pc.Saving?
    case Record => pc.Recording?
    case Abort => pc.Aborting?
  }

  function Act(op: Op, pc: Pc, u: Upload, event: Event): Effect
    requires Fits(pc, event)
  {
    var session := u.session;
    match event
    case FindSession =>
      Effect(if u.live then Writing(pc.remaining, []) else Failed(op, [], false), u, false)
    case Write(bytes) => // fails once the file has been closed
      if !u.live then Effect(Failed(op, pc.chunk, false), u, false)
      else Effect(Writing(pc.remaining, pc.chunk + bytes), u.(session := session.(content := session.content + bytes)),
                  false)
    case CopyFails =>
      Effect(Failed(op, pc.chunk, false), u, false)
    case CopyEnds(synced) => // the body or its limit is exhausted; syncing a closed file fails
      Effect(if |pc.chunk| > pc.remaining then Failed(op, pc.chunk, true)
             else if !synced || !u.live then Failed(op, pc.chunk, false)
             else Crediting(pc.chunk), u, false)
    case Credit => // the session found earlier is credited, live or not
      var n := |pc.chunk|;
      Effect(if op.Patch? then Recheck
             else if session.length == 0 || n >= session.length then Finishing(n)
             else Done(Accepted(n, None), []),
             u.(session := session.(offset := session.offset + n)), false)
    case Check =>
      Effect(if !u.live then Done(NotFound, [])
             else if session.offset >= session.length then Finishing(session.offset)
             else Done(Accepted(session.offset, None), []), u, false)
    case Take => // the first region of finish: the upload leaves the map if it is exactly full
      if !u.live then Effect(Done(if u.file.Some? then Accepted(pc.offset, u.file) else InternalError, []), u, false)
      else if session.offset != session.length then Effect(Done(InternalError, []), u, false)
      else Effect(Saving(pc.offset), u.(live := false), false)
    case OpenFails =>
      Effect(Done(InternalError, []), u, false)
    case Save(outcome) =>
      Effect(if outcome.Some? then Recording(pc.offset, outcome.value) else Done(InternalError, []), u, true)
    case Record =>
      Effect(Done(Accepted(pc.offset, Some(pc.file)), []), u.(file := Some(pc.file)), false)
    case Abort =>
      Effect(Done(pc.reply, pc.lost), u.(live := false), false)
  }

  function UploadOf(s: State, id: Id): Upload
    requires id in s.sessions
  {
    Upload(s.sessions[id], id in s.uploads, if id in s.completed then Some(s.completed[id]) else None)
  }

  /** Request r can take the event now. */
  predicate Enabled(s: State, r: nat, event: Event) {
    r < |s.requests| && s.requests[r].id in s.sessions && Fits(s.requests[r].pc, event)
  }

  /** The effect of an event of request r, which only concerns its own upload. */
  function EffectOf(s: State, r: nat, event: Event): Effect
    requires Enabled(s, r, event)
  {
    Act(s.requests[r].op, s.requests[r].pc, UploadOf(s, s.requests[r].id), event)
  }

  function Apply(s: State, r: nat, e: Effect): State
    requires r < |s.requests|
  {
    var id, session := s.requests[r].id, e.upload.session;
    State(s.maxSize,
          s.sessions[id := session],
          if e.upload.live then s.uploads else s.uploads - {id},
          if e.upload.file.Some? then s.completed[id := e.upload.file.value] else s.completed,
          s.requests[r := s.requests[r].(pc := e.pc)],
          s.saves + if e.saves then [SaveCall(id, session.name, session.contentType, session.content)] else [])
  }

  /** A creation is refused for a bad length; otherwise its id is fresh and its upload live. */
  predicate Creatable(s: State, id: Id, length: int) {
    id !in s.sessions && 0 <= length <= MAX_INT64 && (s.maxSize > 0 ==> length <= s.maxSize)
  }

  function FirstPc(length: int, hasBody: bool, octetStream: bool): Pc {
    if hasBody then if octetStream then Lookup(length) else Aborting([], UnsupportedMedia)
    else if length == 0 then Finishing(0)
    else Done(Accepted(0, None), [])
  }

  /** A PATCH goes on only if its upload is live and stands at the offset it names. */
  function PatchPc(s: State, id: Id, want: int): Pc {
    if id !in s.uploads || id !in s.sessions then Missing
    else if want != s.sessions[id].offset then Done(OffsetMismatch(s.sessions[id].offset), [])
    else Lookup(s.sessions[id].length - s.sessions[id].offset)
  }

  /** The state after a step; a step that cannot be taken changes nothing. */
  function Next(s: State, step: Step): State {
    match step
    case BeginCreate(id, length, name, contentType, hasBody, octetStream) =>
      if !Creatable(s, id, length) then s
      else s.(sessions := s.sessions[id := Session(length, 0, [], name, contentType)],
              uploads := s.uploads + {id},
              requests := s.requests + [Request(Create, id, FirstPc(length, hasBody, octetStream))])
    case BeginPatch(id, want) => s.(requests := s.requests + [Request(Patch, id, PatchPc(s, id, want))])
    case AskCompleted(r) => // after the lock is released
      if r < |s.requests| && s.requests[r].pc.Missing? then
        var reply := if s.requests[r].id in s.completed then AlreadyComplete else NotFound;
        s.(requests := s.requests[r := s.requests[r].(pc := Done(reply, []))])
      else s
    case Advance(r, event) => if Enabled(s, r, event) then Apply(s, r, EffectOf(s, r, event)) else s
    case Terminate(id) => s.(uploads := s.uploads - {id})
    case Close => s.(uploads := {})
  }

  /** The state a run of steps leads to. */
  function Run(maxSize: int, steps: seq<Step>): State {
    if steps == [] then Init(maxSize) else Next(Run(maxSize, Front(steps)), Last(steps))
  }

  datatype HeadReply = Unknown | Complete(file: FileID, offset: int) | Live(offset: int, length: int)

  /** HEAD: a live upload reports its offset, a completed one its file and offset zero. */
  function Head(s: State, id: Id): HeadReply {
    if id in s.uploads && id in s.sessions then Live(s.sessions[id].offset, s.sessions[id].length)
    else if id in s.completed then Complete(s.completed[id], 0)
    else Unknown
  }
}
