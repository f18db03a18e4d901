/**
 * The directory of uploaded files as a transition system. A step is one
 * operation on the directory or a file, or one region under the store's mutex;
 * the steps of any number of calls interleave. New names are fresh: they may
 * collide with a file that is there, never with one that is gone.
 */
module TempFileProtocol {
  import opened Prelude

  type Id = string

  const MAX_ATTEMPTS := 8

  datatype Metadata = Metadata(id: Id, name: string, contentType: string, size: int)

  /** What Save was given, and what it answered. */
  datatype Saved = Saved(content: seq<byte>, metadata: Metadata)

  /** Opening is `known` when Save has returned the id before. */
  datatype Call = Save(name: string, contentType: string) | Open(known: bool) | Delete

  datatype Pc =
    | Allocating(attempt: nat)
    | Copying(taken: seq<byte>)
    | Committing(taken: seq<byte>)
    | Removing
    | SaveDone(saved: Option<Metadata>)
    | Opening
    | LookingUp
    | Stating
    | OpenDone(found: Option<Metadata>)
    | Unlinking
    | Forgetting
    | DeleteDone(ok: bool)

  datatype Request = Request(call: Call, id: Id, pc: Pc)

  /** A file outlives its name: whoever opened it still reads it. */
  datatype State = State(
    owned: bool,
    closed: bool,
    files: map<Id, seq<byte>>,
    names: set<Id>,
    metadata: map<Id, Metadata>,
    saved: map<Id, Saved>,
    requests: seq<Request>)

  /** A store over a directory that may hold other files. */
  function Init(owned: bool, others: map<Id, seq<byte>>): State {
    State(owned, false, others, others.Keys, map[], map[], [])
  }

  datatype Event =
    | Allocate(id: Id)
    | AllocateFails
    | Write(bytes: seq<byte>)
    | CopyFails(bytes: seq<byte>)
    | CopyEnds
    | Commit
    | Remove(ok: bool)
    | OpenFile(ok: bool)
    | Lookup
    | Stat(ok: bool)
    | Unlink(ok: bool)
    | Forget

  datatype Step =
    | BeginSave(name: string, contentType: string)
    | BeginOpen(id: Id)
    | BeginDelete(id: Id)
    | Advance(r: nat, event: Event)
    | Close
    | RemoveAll(gone: set<Id>)

  /** What the store and the directory have under one name. */
  datatype Entry = Entry(file: Option<seq<byte>>, named: bool, metadata: Option<Metadata>, saved: Option<Saved>)

  datatype Effect = Effect(pc: Pc, entry: Entry)

  /** filepath.Base: the last element of a path, without its trailing slashes. */
  function Base(path: string): string {
    if path == "" then "."
    else
      var name := AfterSlash(TrimSlashes(path));
      if name == "" then "/" else name
  }

  function TrimSlashes(path: string): string {
    if path != "" && Last(path) == '/' then TrimSlashes(Front(path)) else path
  }

  /** What follows the last slash. */
  function AfterSlash(path: string): string {
    if path == "" || Last(path) == '/' then "" else AfterSlash(Front(path)) + [Last(path)]
  }

  /** The ids that name a file right in the directory of the store. */
  predicate ValidPath(id: Id) {
    !(id == "" || id == "." || id == ".." || Base(id) != id || '/' in id || '\\' in id)
  }

  /** Hexadecimal for sixteen random bytes. */
  predicate IsFileID(id: Id) {
    |id| == 32 && forall c :: c in id ==> '0' <= c <= '9' || 'a' <= c <= 'f'
  }

  lemma {:induction false} BaseOfName(name: string)
    requires '/' !in name
    ensures TrimSlashes(name) == name && AfterSlash(name) == name
  {
    if name != "" {
      assert Last(name) in name && name == Front(name) + [Last(name)];
      BaseOfName(Front(name));
    }
  }

  /** An id is a path exactly if it is a name: not empty, without a separator, and neither `.` nor `..`. */
  lemma {:induction false} ValidPathIs(id: Id)
    ensures ValidPath(id) <==> id != "" && id != "." && id != ".." && '/' !in id && '\\' !in id
  {
    if '/' !in id {
      BaseOfName(id);
    }
  }

  /** So every id the store makes up is one. */
  lemma {:induction false} FileIDIsValid(id: Id)
    requires IsFileID(id)
    ensures ValidPath(id)
  {
    ValidPathIs(id);
  }

  predicate Fits(call: Call, pc: Pc, entry: Entry, event: Event) {
    match event
    case Allocate(id) => pc.Allocating? && call.Save? && (entry.file.Some? ==> entry.named) && IsFileID(id)
    case AllocateFails => pc.Allocating?
    case Write(_) => pc.Copying? && entry.file.Some?
    case CopyFails(_) => pc.Copying? && entry.file.Some?
    case CopyEnds => pc.Copying?
    case Commit => pc.Committing? && call.Save?
    case Remove(_) => pc.Removing?
    case OpenFile(_) => pc.Opening?
    case Lookup => pc.LookingUp?
    case Stat(_) => pc.Stating? && entry.file.Some?
    case Unlink(_) => pc.Unlinking?
    case Forget => pc.Forgetting?
  }

  /** The metadata of a file the store knows nothing about. */
  function StatMetadata(id: Id, content: seq<byte>): Metadata {
    Metadata(id, id, "", |content|)
  }

  function Act(call: Call, id: Id, closed: bool, pc: Pc, entry: Entry, event: Event): Effect
    requires Fits(call, pc, entry, event)
  {
    match event
    case Allocate(_) => // O_CREATE | O_EXCL
      if entry.named then Effect(if pc.attempt + 1 < MAX_ATTEMPTS then Allocating(pc.attempt + 1) else SaveDone(None),
                                 entry)
      else Effect(Copying([]), entry.(file := Some([]), named := true))
    case AllocateFails => Effect(SaveDone(None), entry)
    case Write(bytes) => Effect(Copying(pc.taken + bytes), entry.(file := Some(entry.file.value + bytes)))
    case CopyFails(bytes) => Effect(Removing, entry.(file := Some(entry.file.value + bytes)))
    case CopyEnds => Effect(Committing(pc.taken), entry)
    case Commit =>
      if closed then Effect(Removing, entry)
      else
        var metadata := Metadata(id, call.name, call.contentType, |pc.taken|);
        Effect(SaveDone(Some(metadata)), entry.(metadata := Some(metadata), saved := Some(Saved(pc.taken, metadata))))
    case Remove(ok) => Effect(SaveDone(None), entry.(named := entry.named && !ok))
    case OpenFile(ok) => Effect(if entry.named && ok then LookingUp else OpenDone(None), entry)
    case Lookup => Effect(if entry.metadata.Some? then OpenDone(entry.metadata) else Stating, entry)
    case Stat(ok) => Effect(OpenDone(if ok then Some(StatMetadata(id, entry.file.value)) else None), entry)
    case Unlink(ok) =>
      if entry.named && ok then Effect(Forgetting, entry.(named := false)) else Effect(DeleteDone(false), entry)
    case Forget => Effect(DeleteDone(true), entry.(metadata := None))
  }

  function Get<K, V>(m: map<K, V>, k: K): Option<V> {
    if k in m then Some(m[k]) else None
  }

  function Put<K, V>(m: map<K, V>, k: K, v: Option<V>): map<K, V> {
    if v.Some? then m[k := v.value] else m - {k}
  }

  function EntryOf(s: State, id: Id): Entry {
    Entry(Get(s.files, id), id in s.names, Get(s.metadata, id), Get(s.saved, id))
  }

  /** The name an event is about. */
  function About(request: Request, event: Event): Id {
    if event.Allocate? then event.id else request.id
  }

  predicate Enabled(s: State, r: nat, event: Event) {
    r < |s.requests| && Fits(s.requests[r].call, s.requests[r].pc, EntryOf(s, About(s.requests[r], event)), event)
  }

  function EffectOf(s: State, r: nat, event: Event): Effect
    requires Enabled(s, r, event)
  {
    var request := s.requests[r];
    var id := About(request, event);
    Act(request.call, id, s.closed, request.pc, EntryOf(s, id), event)
  }

  function Apply(s: State, r: nat, id: Id, e: Effect): State
    requires r < |s.requests|
  {
    State(s.owned, s.closed,
          Put(s.files, id, e.entry.file),
          if e.entry.named then s.names + {id} else s.names - {id},
          Put(s.metadata, id, e.entry.metadata),
          Put(s.saved, id, e.entry.saved),
          s.requests[r := Request(s.requests[r].call, id, e.pc)])
  }

  /** The state after a step; a step that cannot be taken changes nothing. */
  function Next(s: State, step: Step): State {
    match step
    case BeginSave(name, contentType) =>
      s.(requests := s.requests + [Request(Save(name, contentType), "",
                                           if s.closed then SaveDone(None) else Allocating(0))])
    case BeginOpen(id) =>
      s.(requests := s.requests + [Request(Open(id in s.saved), id,
                                           if s.closed || !ValidPath(id) then OpenDone(None) else Opening)])
    case BeginDelete(id) =>
      s.(requests := s.requests + [Request(Delete, id,
                                           if s.closed || !ValidPath(id) then DeleteDone(false) else Unlinking)])
    case Advance(r, event) =>
      if Enabled(s, r, event) then Apply(s, r, About(s.requests[r], event), EffectOf(s, r, event)) else s
    case Close => s.(closed := true)
    case RemoveAll(gone) => // part of what Close removes from a directory of its own
      if s.closed && s.owned then s.(names := s.names - gone) else s
  }

  /** The state a run of steps leads to. */
  function Run(start: State, steps: seq<Step>): State {
    if steps == [] then start else Next(Run(start, Front(steps)), Last(steps))
  }
}
