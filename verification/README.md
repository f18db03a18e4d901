# A verified model of the mapper backend

This project models the parts of the mapper backend that decide something: which
target field a source column is suggested for, what a resumable upload hands to
the file store, what an import makes of every row, and what the schema registry
keeps. It is written in Dafny 4.11; `dafny verify dfyconfig.toml` checks all of it.

## What is modelled

**Suggestions** (`EditDistance`, `Names`, `FuzzySuggester`, `JevReading`,
`JevSuggester`, `JevMeaning`). The two-row Levenshtein computation, with its swapped buffers and
operands, is proved to return the least cost of any edit script, and the metric laws follow from
composing scripts. Name normalization is a one-pass state machine, proved to join
the maximal letter-or-number runs of the lower-cased name, which are the only way to
cut the name into words and gaps. The fuzzy suggester is the earliest field of
highest confidence for each column. The reading of a Jev answer is modelled over
arbitrary JSON trees; Go maps are visited in every possible order, and the outcomes
are characterized exactly. `JevMeaning` says what a Jev reply means in terms of its tree,
the schema and the literal keys alone, and that the reading code finds exactly that.

**Resumable uploads** (`TusProtocol`, `TusSafety`, `TusLedger`, `TusExclusive`,
`TusOvershoot`, `TusLimits`, `TusEndings`, `TusHandler`). The handler is a transition system. A step
is one region of code under the mutex, one write to a staged file, or one call of the
writer; any number of creations, PATCH requests, terminations and closings interleave. Safety and the
conservation of bytes hold in every run. What the writer receives is proved for
uploads that serve one request at a time, as the tus resumable upload protocol 1.0.0
intends ("PATCH", Core Protocol). `TusOvershoot` says exactly when overlapping requests can
push an upload past its length, and `TusLimits` which lengths can be served at all. `TusEndings` is about
both ends of an upload: what is admitted, what termination and closing take away for good, and
what HEAD tells of it ever after.
`TusHandler` is the handler as a class that updates its maps: each region is one step of
the transition system and keeps the handler in a state of a run, so that the theorems
hold of it; creation, PATCH and HEAD with nothing in between are specified as a whole.

**The file store** (`TempFileProtocol`, `TempFileSafety`, `TempFileStore`). The same
method for the directory of saved files: calls of Save, Open, Delete and Close
interleave, and whoever opens an id that Save returned gets the bytes Save read.

**Mapping and import** (`Validation`, `Plan`, `SourceRows`, `Import`,
`ImportMeaning`, `Pipeline`, `Sorting`). A mapping is accepted exactly if it is well formed, and otherwise the
first defect is reported. Compiling it to slots preserves its meaning, row by row.
The import loop accounts for every row over every stream, every processor and every
pattern of cancellation; `ImportMeaning` spells out counters, log and errors from the stream
alone. `Pipeline` joins the pieces: what becomes of record `j` of
a table is stated in terms of its cells alone, from the analysis of a file to the
report of its import.

**Sources** (`Sheets`, `CsvSource`, `XlsxSource`). Analyzing a file and streaming it
are separate passes; both are tied to the same rows, in the readers' own form.

**The registry** (`Registry`, `RegistryClient`). Schemas hold slices, which Go
callers share. The registry is proved to share none: a client that keeps and
overwrites every slice it ever passed in or got out cannot tell the registry from
one that stores plain values.

## Reading the code against its documentation

These are facts of the code that the proofs brought out; the model follows the code.

- Two PATCH requests at once can both pass the offset check, and then push the offset past
  the length (`TusOvershoot.RaceOvershoots`), after which the upload can never be finished
  (`TusOvershoot.OvershootIsFinal`). The requests in progress can do so exactly when the bytes
  they may still credit exceed the room (`TusOvershoot.PassesIffReachDoes`); an upload is safe
  from it exactly when every PATCH with room is admitted with nothing outstanding
  (`TusOvershoot.DisciplineIsExact`).
- An append that fails leaves its bytes in the staged file. The writer then receives
  more than `length` bytes (`TusLimits.FailedAppendReachesWriter` is such a run;
  `TusExclusive.WriterReceives` says exactly how many and when).
- The copy limit `remaining + 1` wraps around for the largest length, 2^63-1. Such an upload
  is created but never receives a byte; every other positive length can be served
  (`TusLimits.ServedLengths`).
- HEAD reports offset 0 for a completed upload (`TusEndings.HeadIs`); while
  an upload is live its offset never decreases.
- Positional entries of a Jev probability list never resolve
  (`JevReading.PositionsNeverResolve`): only entries that name a field count.
- The confidence of a resolved Jev choice depends on the iteration order of a Go map exactly
  when two keys resolve to its field, such as an ID and a name, and give different numbers
  (`JevReading.MatchOrderIndependence`).
- The values of a row without known columns depend on the iteration order of a Go map
  exactly when all its keys are indices and two keys of one index have different values
  (`SourceRows.OrderIndependence`).
- An import that is cancelled inside the processor counts the row as processed, but
  as neither a success nor a failure (`Import.EveryRowIsCounted`).

## Assumptions

Upload ids are fresh. New file names may collide with a file that is there, never
with one that is gone. Confidences are exact rationals. The Unicode tables
satisfy `Names.Tables.Sound`: lower-casing is idempotent, white space and underscores
are neither letters nor numbers, and stay so in lower case.

## Model

| member | source | states |
|---|---|---|
| EditDistance.LevenshteinDistance | suggest/suggest.go:189-222 | the two-row loop returns a cost that some edit script from left to right has and no script undercuts |
| EditDistance.DistanceIsLeastCost | suggest/suggest.go:189-222 | the recurrence the rows tabulate is the minimum over all insert, delete and substitute scripts |
| EditDistance.DistanceIsLowerBound | suggest/suggest.go:189-222 | no script is cheaper than the recurrence |
| EditDistance.CheapestAttainsDistance | suggest/suggest.go:189-222 | a concrete script turns left into right at that cost |
| EditDistance.TableStep | suggest/suggest.go:208-218 | an inner-loop cell is the least of its three neighbours plus their edit costs |
| EditDistance.DistanceIsSymmetric | suggest/suggest.go:189-222 | the distance is the same in both directions, so swapping the operands is harmless |
| EditDistance.DistanceBounds | suggest/suggest.go:189-222 | zero exactly on equal strings; between the length difference and the longer length |
| EditDistance.ComposeIsSound | suggest/suggest.go:189-222 | two scripts in a row can be done by one that costs no more than both |
| EditDistance.TriangleInequality | suggest/suggest.go:189-222 | no detour over a third string is shorter |
| EditDistance.Min3 | suggest/suggest.go:239-250 | one of the three arguments, and none is smaller |
| Names.NormalizeName | suggest/suggest.go:170-186 | trimming, the builder loop and the final trim yield the lower-cased words joined by single underscores |
| Names.WordsAreUnique | suggest/suggest.go:170-186 | a string can be cut into non-empty words and word-free gaps in one way only |
| Names.WordsExist | suggest/suggest.go:170-186 | every string can be cut that way |
| Names.TrimKeepsWords | suggest/suggest.go:171 | trimming white space first loses no word |
| Names.TrimIs | suggest/suggest.go:171-185 | trimming takes off, at both ends, what it may and nothing else |
| Names.NormalizingIsIdempotent | suggest/suggest.go:170-186 | normalizing a normalized name changes nothing |
| Names.NormalizedIsSeparated | suggest/suggest.go:170-186 | no leading, trailing or doubled underscore; empty exactly without any letter or number |
| FuzzySuggester.SuggestResult | suggest/suggest.go:126-167 | the running-best loops return the specified list; an error only if the context can be cancelled |
| FuzzySuggester.FuzzyListMeaning | suggest/suggest.go:126-167 | sources strictly increase; a column has an entry exactly if it has a name and some field is eligible; the entry is the earliest field of maximal confidence |
| FuzzySuggester.BestExists | suggest/suggest.go:139-157 | an earliest best field exists as soon as some field is eligible |
| FuzzySuggester.ConfidenceRange | suggest/suggest.go:224-237 | in [0, 1] without ever being clamped, and 1 exactly on equal names |
| FuzzySuggester.SuggestionConfidence | suggest/suggest.go:126-167 | a suggestion has confidence 1 exactly when some eligible field has the column's normalized name |
| FuzzySuggester.SuggestionIs | suggest/suggest.go:139-165 | a suggestion names the earliest field with an ID and a name that is nearest to the column's, `1 - distance / longer length` being its confidence |
| FuzzySuggester.SuggestibleIs | suggest/suggest.go:131-157 | a column has a suggestion exactly if its normalized name and that of some field with an ID are not empty |
| JevMeaning.TargetIs | suggest/suggest.go:565-591 | for every tree: a number resolves to the field ID it spells; a text to the ID it spells, or else to the earliest field with a non-zero ID and its normalized name; an object as the first of its seven keys that resolves; nothing else resolves |
| JevMeaning.NumberTarget | suggest/suggest.go:567-569 | a number resolves exactly if it parses to a non-zero ID of the schema, and to that |
| JevMeaning.TextTarget | suggest/suggest.go:575-587 | a text that trims to a field ID resolves to it; any other exactly to the earliest field of its normalized name |
| JevMeaning.ObjectTarget | suggest/suggest.go:554-563 | an object resolves as the first of `target`, `target_id`, `field_id`, `id`, `choice`, `name`, `value` whose value does |
| JevMeaning.NamedIs | suggest/suggest.go:582-587 | the name lookup finds the earliest field with a non-zero ID and that normalized name, and nothing exactly if there is none |
| JevReading.TargetFromMap | suggest/suggest.go:554-563 | ends on every finite tree; anything it finds is a non-zero ID of the schema |
| JevReading.SchemaTarget | suggest/suggest.go:593-603 | the loop over the fields finds an ID exactly if it is non-zero and some field of the schema has it |
| JevReading.ClampConfidence | suggest/suggest.go:639-647 | in [0, 1], and unchanged if it already was |
| JevMeaning.FirstValueIs | suggest/suggest.go:630-637 | the value of the first key that is there, be it null |
| JevMeaning.EntryIs | suggest/suggest.go:494-499 | the score of an entry: its number clamped, or that of the first of `probability`, `confidence`, `score` of an object |
| JevMeaning.OwnScoreIs | suggest/suggest.go:605-614 | the clamped number of the first of `confidence`, `probability`, `score` that is a number, or zero |
| JevMeaning.ProposesIs | suggest/suggest.go:523-531 | an object entry proposes a field exactly if its key stands for it and its value has a score |
| JevMeaning.ItemIs | suggest/suggest.go:534-548 | a list item proposes exactly what the first of its six naming keys stands for, with its score |
| JevMeaning.TopIs | suggest/suggest.go:504-552 | the possible results of the running best are exactly the top offers of an object, or the first top offer of a list |
| JevReading.BestProbability | suggest/suggest.go:504-552 | objects: the running best over some order of the keys; lists: the running best over the items; nothing for other values |
| JevReading.BestIsMaximal | suggest/suggest.go:522-532 | the outcomes over all orders are exactly the proposals no other one exceeds |
| JevReading.OrderIndependence | suggest/suggest.go:522-532 | the confidence is the same in every order; the outcome is exactly when the top proposals agree on one target |
| JevSuggester.BestOfItemsIsFirstMaximal | suggest/suggest.go:533-550 | a list gives the first of its best-scored items |
| JevReading.PositionsNeverResolve | suggest/suggest.go:533-549 | an item that does not name its field proposes nothing |
| JevReading.ProbabilityForTarget | suggest/suggest.go:484-502 | the first match over some order of the keys; none exactly if no entry resolves to the target with a number |
| JevReading.MatchIsProposed | suggest/suggest.go:489-500 | the outcomes over all orders are exactly the confidences that entries give the target |
| JevReading.MatchOrderIndependence | suggest/suggest.go:489-500 | the confidence of a resolved choice is the same in every order if and only if all entries for its target agree |
| JevSuggester.ParseJevAnswer | suggest/suggest.go:463-482 | a resolvable choice decides the target, its probability or the object's own score the confidence; otherwise a maximal proposal decides |
| JevSuggester.ParseJevResponse | suggest/suggest.go:421-461 | the first of seven places that holds an answer decides; nothing is read out of an undecodable body or an error code |
| JevMeaning.AnswerIs | suggest/suggest.go:463-482 | every possible reading of an answer object, and no other, is what the object means: the literal choice and probability keys, the field they stand for, its offered probability or the object's own score |
| JevMeaning.PlacesAre | suggest/suggest.go:431-457 | the seven places, path by path: `data.answers.target`, the rankings, `result`, `data`, `choice`, the payload |
| JevMeaning.RefusedIs | suggest/suggest.go:428-430 | a payload is refused exactly for a readable `code` other than zero |
| JevMeaning.UnusableReplies | suggest/suggest.go:421-430 | no answer without a decodable body, nor from a refused payload |
| JevMeaning.UsualAnswer | suggest/suggest.go:463-482 | an answer object whose choice spells a field ID, with one probability under that text: that field, with that probability |
| JevMeaning.UsualReply | suggest/suggest.go:421-461 | so a reply holding it at `data.answers.target` is read as that field with that probability, in every order |
| JevSuggester.ReadingIsAnswer | suggest/suggest.go:463-482 | every reading of an answer object is a field of the schema with a confidence in [0, 1] |
| JevSuggester.ResolutionIsAnswer | suggest/suggest.go:421-461 | whatever the tree and the order its objects are visited in: a field of the schema and a number in [0, 1] |
| JevSuggester.UsabilityIsDetermined | suggest/suggest.go:421-461 | no reply can be read as an answer in one order and as none in another |
| JevSuggester.SuggestResult | suggest/suggest.go:311-334 | one Jev suggestion per column in order, or exactly the fuzzy result; Jev if and only if there is a key and no reply is unusable |
| JevSuggester.JevListIsSound | suggest/suggest.go:311-334 | every Jev suggestion names a field of the schema, with a confidence in [0, 1] |
| JevMeaning.KeyIs | suggest/suggest.go:311-334 | Jev is asked only if the key has a character that is no white space |
| TusSafety.Effects | upload/tus/tus.go:251-428 | what any event may do to its request and upload: lengths are fixed, only a full live upload is taken, only a recording writes the file |
| TusSafety.StepIsSafe | upload/tus/tus.go:86-428 | every region keeps: an id is live, claimed by one request, or given up, and saved at most once |
| TusSafety.RunIsSafe | upload/tus/tus.go:86-428 | so in every interleaving |
| TusSafety.SavedOnceAndFull | upload/tus/tus.go:369-416 | in every interleaving an upload reaches the writer at most once, only after leaving the map with offset equal to length, and is never live once completed |
| TusSafety.NothingIsLost | upload/tus/tus.go:300-428 | a completed entry never changes, a session keeps its length, a call of the writer stays |
| TusSafety.FilesAreRecorded | upload/tus/tus.go:369-416 | an answer that names a file names the one recorded for its upload |
| TusLedger.EventConserves | upload/tus/tus.go:343-367 | no event creates or loses a byte: written, in flight, credited or left behind |
| TusLedger.StepBalances | upload/tus/tus.go:343-367 | every region keeps the balance of an upload |
| TusLedger.Conservation | upload/tus/tus.go:343-367 | in every interleaving the staged bytes are the credited ones, those in flight and those of failed appends |
| TusLedger.OffsetCountsCredits | upload/tus/tus.go:225-249 | the offset never exceeds what was written, and HEAD reports the credited bytes of a live upload |
| TusLedger.OffsetsNeverDecrease | upload/tus/tus.go:343-367 | offsets only grow, files are only appended to, and not at all once the upload is not live |
| TusLedger.SavedContentIsFinal | upload/tus/tus.go:369-416 | what the writer was given is what the staged file holds ever after |
| TusExclusive.StepInOrder | upload/tus/tus.go:251-367 | with one request at a time every region keeps offset within length and the file in order |
| TusExclusive.StagedInOrder | upload/tus/tus.go:251-367 | then the offset never passes the length, and without failed appends the file is the accepted chunks in order |
| TusExclusive.OneAtATimeIsDisciplined | upload/tus/tus.go:251-320 | serving one request at a time admits a PATCH only when nothing is outstanding |
| TusExclusive.WriterReceives | upload/tus/tus.go:369-416 | then the writer receives `length` accepted bytes, and these in order and nothing else if and only if no failed append left bytes |
| TusExclusive.MismatchChangesNothing | upload/tus/tus.go:281-285 | a PATCH at another offset only gets its conflict answer |
| TusOvershoot.EventNeverRaises | upload/tus/tus.go:343-367 | no event raises the sum of the offset and what its request may still credit |
| TusOvershoot.NeverBeyondReach | upload/tus/tus.go:251-367 | whatever the requests in progress do, the offset stays within the reach: the offset plus all they may still credit |
| TusOvershoot.ReachIsAttained | upload/tus/tus.go:251-367 | some continuation of the requests in progress brings the offset exactly to the reach |
| TusOvershoot.PassesIffReachDoes | upload/tus/tus.go:251-367 | the requests in progress can push a live upload past its length if and only if offset plus outstanding bytes exceed it |
| TusOvershoot.AdmissionIsSafe | upload/tus/tus.go:281-287 | after admitting a PATCH with room the upload can be pushed past its length if and only if a byte was outstanding before |
| TusOvershoot.DisciplineIsExact | upload/tus/tus.go:251-367 | at no moment of a run can the live upload be pushed past its length if and only if every PATCH with room was admitted with nothing outstanding |
| TusOvershoot.DisciplineBoundsOffset | upload/tus/tus.go:251-367 | then the offset never exceeds the length |
| TusOvershoot.TwoAdmittedOvershoot | upload/tus/tus.go:281-289 | any two requests that both found room can push the upload past its length, in every run |
| TusOvershoot.RaceOvershoots | upload/tus/tus.go:281-289 | for every length there are runs of two PATCH requests whose offset reaches twice the length |
| TusOvershoot.OvershootIsFinal | upload/tus/tus.go:380-383 | an upload whose offset has passed its length is never handed over nor completed, in any continuation |
| TusLimits.LargestLengthStaysEmpty | upload/tus/tus.go:350 | an upload of length 2^63-1 never stages a byte, in any run |
| TusLimits.LargestIsAcceptedAndStuck | upload/tus/tus.go:161-194 | such an upload is created like any other, and no run hands it to the writer |
| TusLimits.ServedLengths | upload/tus/tus.go:343-416 | some run hands an upload of a positive length to the writer if and only if the length is less than 2^63-1 |
| TusLimits.FailedAppendReachesWriter | upload/tus/tus.go:350-354 | a run with one request at a time in which the writer gets a byte of a failed append besides the `length` accepted ones |
| TusEndings.CreationIs | upload/tus/tus.go:161-194 | a creation is refused exactly for a length that is negative, above 2^63-1 or above the maximum; otherwise a live upload of that length, name and type is there and all else is as before |
| TusEndings.UploadsAreAsCreated | upload/tus/tus.go:173-194 | in every run each upload has the length, name and type of its creation, within the limits, and is saved under that name and type |
| TusEndings.TerminationIs | upload/tus/tus.go:329-337 | exactly this upload leaves the map; sessions, completed entries, requests and saves stay |
| TusEndings.ClosingIs | upload/tus/tus.go:86-95 | every upload leaves the map; sessions, completed entries, requests and saves stay |
| TusEndings.TakenAwayForEver | upload/tus/tus.go:86-95 | a live upload that is terminated, or closed, is never live again, never handed to the writer and never completed, in any continuation |
| TusEndings.GoneIsGone | upload/tus/tus.go:300-428 | an upload that is neither live nor handed over at some moment never is again |
| TusEndings.NotLiveIsMissing | upload/tus/tus.go:270-280 | once an upload is not live, a PATCH for it begins by finding nothing, in every continuation |
| TusEndings.GoneAnswers | upload/tus/tus.go:343-379 | what a request is told, at each place it can notice that its upload is gone, and that nothing more is staged |
| TusEndings.FinishIs | upload/tus/tus.go:380-391 | finish takes a live upload exactly if it is full, and otherwise changes nothing |
| TusEndings.HeadIs | upload/tus/tus.go:225-249 | in every run HEAD answers offset and length exactly of a live upload, file and offset zero exactly of a completed one, and is unknown exactly otherwise |
| TusEndings.HeadTellsFile | upload/tus/tus.go:233-245 | once a request was answered with a file, every later HEAD answers with that file and offset zero |
| TusHandler.Handler.constructor | upload/tus/tus.go:61-69 | a new handler is the initial state |
| TusHandler.Handler.BeginCreate | upload/tus/tus.go:161-210 | the region that registers an upload is the protocol step, and the handler stays the state of a run |
| TusHandler.Handler.Abort | upload/tus/tus.go:418-428 | the region that gives an upload up is the protocol step |
| TusHandler.Handler.BeginPatch | upload/tus/tus.go:270-287 | the region that admits a PATCH is the protocol step |
| TusHandler.Handler.AskCompleted | upload/tus/tus.go:272-279 | the lookup of a finished upload, after the lock, is a protocol step of its own |
| TusHandler.Handler.CheckComplete | upload/tus/tus.go:300-309 | the region after the append is the protocol step |
| TusHandler.Handler.FindSession | upload/tus/tus.go:344-349 | the lookup of the session is the protocol step |
| TusHandler.Handler.Write | upload/tus/tus.go:350-351 | a write to the staged file is the protocol step; it fails once the file was closed |
| TusHandler.Handler.FailCopy | upload/tus/tus.go:352-354 | a failing copy is the protocol step: its bytes stay, uncredited |
| TusHandler.Handler.EndCopy | upload/tus/tus.go:355-360 | the end of the copy, with its size and sync checks, is the protocol step |
| TusHandler.Handler.Credit | upload/tus/tus.go:361-366 | the region that credits the bytes is the protocol step |
| TusHandler.Handler.Take | upload/tus/tus.go:370-391 | the first region of finish is the protocol step |
| TusHandler.Handler.FailOpen | upload/tus/tus.go:397-400 | failing to open the staged file is the protocol step: the upload is gone |
| TusHandler.Handler.Save | upload/tus/tus.go:401-411 | the call of the writer is the protocol step |
| TusHandler.Handler.Record | upload/tus/tus.go:412-415 | the last region of finish is the protocol step |
| TusHandler.Handler.Terminate | upload/tus/tus.go:329-337 | exactly this upload leaves the map, nothing else changes, and it is the protocol step |
| TusHandler.Handler.Close | upload/tus/tus.go:86-95 | the loop over the map empties it and changes nothing else |
| TusHandler.Handler.ServeHead | upload/tus/tus.go:225-249 | offset and length exactly of a live upload, the offset being the bytes credited in the run so far; file and offset zero exactly of a completed one; unknown otherwise |
| TusHandler.Sent | upload/tus/tus.go:350 | the limited reader delivers the body if it fits, one byte too many at most, and nothing once its limit has wrapped or the offset has passed the length |
| TusHandler.Handler.Append | upload/tus/tus.go:343-367 | uninterrupted, for creation and PATCH, with copies and syncs that fail: what the reader delivers is appended, and credited exactly if all of it fits and is staged |
| TusHandler.Handler.Finish | upload/tus/tus.go:369-416 | uninterrupted, for any upload: gone, incomplete or full; a full one leaves the map, its bytes go to the writer, the file is recorded if saved |
| TusHandler.Handler.ServePatch | upload/tus/tus.go:251-321 | uninterrupted, the whole effect and answer of a PATCH in each of its cases |
| TusHandler.Handler.ServeCreate | upload/tus/tus.go:161-222 | uninterrupted, the whole effect and answer of a creation, with or without a first chunk |
| TusHandler.PatchAnswers | upload/tus/tus.go:251-321 | a PATCH is accepted exactly if its whole body fits and is staged, at the offset that counts it; it names a file exactly if that fills the upload and is saved; a refused chunk moves no offset |
| TusHandler.CreationAnswers | upload/tus/tus.go:196-222 | a creation that loses its first chunk loses the upload; any other stands at the bytes of that chunk |
| TusHandler.Handler.SavesOnce | upload/tus/tus.go:369-416 | in every state of a handler each upload was saved at most once, only after leaving the map full, and is not live once completed |
| TusHandler.Handler.EndsForGood | upload/tus/tus.go:329-337 | in every state of a handler an upload that was terminated, or closed, while live is neither live nor completed, and was not saved |
| TusHandler.Handler.KeepsNames | upload/tus/tus.go:161-194 | in every state of a handler uploads and saves have the length, name and type of their creation |
| TusHandler.Handler.Remembers | upload/tus/tus.go:300-428 | in every state of a handler what was recorded at any earlier moment still is |
| TempFileSafety.StepIsSound | filestore/tempfile/store.go:90-228 | every operation keeps: metadata describes saved files, saved files keep their bytes, no two calls write one file |
| TempFileSafety.RunIsSound | filestore/tempfile/store.go:90-228 | so in every interleaving |
| TempFileSafety.SavesWhatItRead | filestore/tempfile/store.go:122-148 | a Save that succeeds saved exactly the bytes its reader delivered, and reports their number |
| TempFileSafety.OpenYieldsWhatWasSaved | filestore/tempfile/store.go:154-184 | opening an id Save returned yields the saved bytes, with their number as size in both branches |
| TempFileSafety.OpenYieldsWhatSaveRead | filestore/tempfile/store.go:90-184 | round trip: the opened bytes are those the reader of Save delivered |
| TempFileSafety.SavedIsFinal | filestore/tempfile/store.go:138-148 | what Save promised is never changed, and nothing new is promised once the store is closed |
| TempFileSafety.SavedIsDurable | filestore/tempfile/store.go:122-228 | a saved file keeps its name and metadata unless someone asks to delete it or its own directory is removed on Close |
| TempFileSafety.SavedCanBeOpened | filestore/tempfile/store.go:154-184 | opening a saved file that nobody gave up answers with the metadata Save returned |
| TempFileSafety.SavedIsValidPath | filestore/tempfile/store.go:105-110 | every id Save has returned is one Open accepts |
| TempFileProtocol.ValidPathIs | filestore/tempfile/store.go:254-261 | an id is refused exactly if it is empty, `.`, `..`, or has a separator |
| TempFileProtocol.FileIDIsValid | filestore/tempfile/store.go:263-269 | 32 hexadecimal digits are a valid id |
| TempFileStore.Store.constructor | filestore/tempfile/store.go:45-59 | a new store knows no file, whatever its directory holds |
| TempFileStore.Store.AllocateAny | filestore/tempfile/store.go:105-120 | the retry loop takes the first of eight names that is free; an error, or eight names that are taken, changes nothing |
| TempFileStore.Store.FailAllocation | filestore/tempfile/store.go:106-120 | a name or file that cannot be had ends Save, as in the protocol |
| TempFileStore.Store.Copy | filestore/tempfile/store.go:122-126 | the copy loop writes the chunks in order |
| TempFileStore.Store.Commit | filestore/tempfile/store.go:140-148 | the commit region is the protocol step: refused once closed |
| TempFileStore.Store.Save | filestore/tempfile/store.go:90-151 | uninterrupted, with every way to fail: file, metadata and answer agree; a Save that fails promises nothing and leaves no name behind unless the removal fails |
| TempFileStore.Store.ServeOpen | filestore/tempfile/store.go:154-184 | uninterrupted: an id Save returned yields the saved bytes and their number in both branches, and unless it was given up only the operating system can refuse it |
| TempFileStore.Store.ServeDelete | filestore/tempfile/store.go:187-209 | uninterrupted: the name and the metadata go exactly if the file could be removed |
| TempFileStore.Store.SavedInStore | filestore/tempfile/store.go:90-228 | in every state of a store a saved file has its bytes, and its name and metadata unless it was given up |
| TempFileStore.Store.Remembers | filestore/tempfile/store.go:138-148 | in every state of a store what Save promised at any earlier moment still is |
| TempFileStore.Store.OpenFile | filestore/tempfile/store.go:169-172 | the protocol step |
| TempFileStore.Store.Lookup | filestore/tempfile/store.go:247-252 | the protocol step |
| TempFileStore.Store.Stat | filestore/tempfile/store.go:175-182 | the protocol step |
| TempFileStore.Store.Unlink | filestore/tempfile/store.go:202-204 | the protocol step |
| TempFileStore.Store.Forget | filestore/tempfile/store.go:205-207 | the protocol step |
| TempFileStore.Store.Close | filestore/tempfile/store.go:213-228 | closing twice is closing once; only a directory of its own is emptied, as far as that succeeds |
| Validation.ValidateMapping | executor/validation.go:48-106 | accepts exactly the well-formed mappings, and otherwise reports the defect that nothing checked earlier precedes |
| Validation.DefectIsFatal | executor/validation.go:48-106 | a reported defect refutes well-formedness |
| Validation.AcceptedIs | executor/validation.go:48-106 | well-formed, written out: IDs non-zero and distinct, sources within the count, targets known and distinct, required fields mapped |
| Validation.CodeTells | executor/validation.go:48-106 | each code says what is wrong with the mapping or field it names |
| Validation.PermutationKeepsAcceptance | executor/validation.go:77-104 | the order of the mappings does not decide acceptance |
| Validation.InjectiveIsDistinct | executor/validation.go:91-97 | checking each target against those marked before is checking that no two mappings share one |
| Plan.CompilePlan | executor/plan.go:28-52 | compiles exactly the well-formed mappings; each operation carries its mapping to the slot of its field |
| Plan.Execute | executor/plan.go:65-95 | the loop that writes the record in place runs the operations up to the first error |
| Plan.CompilationPreservesMeaning | executor/plan.go:28-95 | a row is accepted exactly if every mapped field can be served from its source, and the record is the naive field-by-field one |
| Plan.RejectionNamesFirstFailure | executor/plan.go:70-92 | a rejection names the first mapping that cannot be served, and says "absent" exactly if the row is too short |
| Plan.RejectionTellsWhy | executor/plan.go:70-92 | the rejected row's first unserved mapping, with the reason: out of range, there but empty, or the code of its field's type |
| Plan.ServesIs | executor/plan.go:70-92 | a cell serves a field exactly if it is there, and is empty for an optional one or parses as its type |
| Plan.ConvertIs | executor/conversion.go:12-43 | a cell converts exactly to what its type's parser makes of it, a string to itself |
| Plan.ValidatedSourcesArePresent | executor/plan.go:71-75 | a row as wide as the validated count never lacks a source |
| Plan.NaiveRecordIsUnique | executor/plan.go:65-95 | there is one naive record for a row |
| Plan.PermutationKeepsRecords | executor/plan.go:39-94 | permuting the mappings changes neither which rows succeed nor any record |
| SourceRows.RowValues | source/csv/csv.go:128-138 | the loop builds the row in which the last column of each name counts |
| SourceRows.SourceValuesWithColumns | executor/executor.go:303-319 | reads by column unless no column occurs in a row that has values |
| SourceRows.SourceValues | executor/executor.go:321-358 | for some order of the keys, the values by index or the values by sorted key |
| SourceRows.RoundTrip | executor/executor.go:303-319 | reading a built row with its own columns gives the cell of the last column of that name; with distinct names the record fitted to the header |
| SourceRows.RoundTripCells | executor/executor.go:303-319 | cell by cell: a column reads the last cell of its name, empty where the record is too short |
| SourceRows.SourceKeyIs | executor/executor.go:360-369 | a key has the index its digits spell, bare or after `col_` or `column_`; a negative number is none |
| SourceRows.OrderIndependence | executor/executor.go:321-358 | the same for every order if and only if some key has no index or keys of one index agree |
| SourceRows.RegularValues | executor/executor.go:341-357 | the sorted enumeration if some key has no index; otherwise each value at its index and empty strings elsewhere |
| Sorting.SortStringsIsAscending | executor/executor.go:352 | sorting puts the keys in ascending order |
| Sorting.AscendingIsUnique | executor/executor.go:352 | there is one ascending permutation, so sorting forgets the iteration order |
| Import.AppendError | executor/executor.go:255-259 | the log of some failures becomes the log of these and one more: the first 1000 |
| Import.AccountAdds | executor/executor.go:187-227 | one turn of the loop adds its row to the account of all rows before |
| Import.ServeRow | executor/executor.go:187-227 | what becomes of one row, and the one call of the processor it makes if it converts |
| Import.ImportRows | executor/executor.go:172-240 | counters, log, calls and the reason to stop are those of the rows read, for every stream |
| Import.PreparedMeetsAll | executor/executor.go:110-169 | an import is prepared exactly if each of nine needs is met and the mapping is well formed |
| Import.Import | executor/executor.go:108-240 | rows are imported exactly if everything was prepared and the mapping compiles; otherwise the error is that of the first need that is not met, and nothing is called or counted |
| Import.EveryRowIsCounted | executor/executor.go:187-240 | processed is succeeded plus failed, plus one only when cancelled in the processor; the log is the first 1000 failures in order |
| ImportMeaning.OutcomeIs | executor/executor.go:193-227 | a row is cut short exactly if it converts, Process fails and the context is cancelled; a failure exactly if it does not convert, or Process fails uncancelled; a success otherwise; and which error, number and call that means |
| ImportMeaning.CountersAre | executor/executor.go:187-227 | the counters are the numbers of such rows of the stream, and the log is the first 1000 failures with their own numbers and codes |
| ImportMeaning.CancellationIs | executor/executor.go:212-220 | a row cut short is the last, ends the import with a context error, and is the one row counted only as processed |
| ImportMeaning.ErrorsAre | executor/executor.go:172-240 | the error of an import and whether it calls the end hook, from the stream alone |
| ImportMeaning.AccountIs | executor/executor.go:187-227 | the counters and the log for any outcomes: all counted, the first 1000 failures logged in order |
| ImportMeaning.ComplaintIs | executor/executor.go:108-169 | which error an import is refused with, the first in this order |
| ImportMeaning.PreparedIs | executor/executor.go:108-169 | rows are imported exactly if nothing is missing and the mapping is well formed |
| Import.FailFastStops | executor/executor.go:194-224 | with fail-fast at most one failure, which is the last row |
| Import.CleanRunReadsEverything | executor/executor.go:179-240 | a run without error reads the whole stream and ends with the end hook and the final result |
| Import.AdapterRowsHaveEverySource | executor/executor.go:303-319 | rows of an adapter, read with its header, are never rejected for an absent source |
| Pipeline.RecordIsImported | executor/executor.go:187-227 | a record is converted exactly if its mapped cells serve their fields, and the processor gets that conversion under its row number; otherwise it is logged with the first mapping at fault and why; one the processor refuses is a processor error |
| Pipeline.TableIsImported | executor/executor.go:179-240 | so for every record of a table with distinct headers, in order, with the counters, log and calls that follow; only a last record can be cut short, by a context that can be cancelled |
| Pipeline.ImportCsv | executor/executor.go:108-240 | analysis, streaming and import of a CSV file together: nothing is done, or the report is the account of the records below the header; a well-formed file and request, with a context that cannot be cancelled, are always imported |
| Pipeline.ImportWorkbook | executor/executor.go:108-240 | the same for a workbook: the columns come from the first sheet listed, which is the sheet that is streamed; with all in order it is always imported |
| Sheets.SummaryGrows | source/csv/csv.go:41-45 | one more row raises the count and is kept as a sample only among the first five |
| Sheets.SummaryIs | source/csv/csv.go:41-45 | an analysis counts the rows and keeps the first five as samples |
| Sheets.HasValueIs | source/csv/csv.go:119-126 | a record has a value exactly if some cell has a character that is no white space |
| CsvSource.Open | source/csv/csv.go:50-84 | the reader stands below the first record that is not blank; without one, no header |
| CsvSource.ColumnsAre | source/csv/csv.go:78-81 | the columns are the cells of the header, but for a byte order mark at its very start |
| CsvSource.RowReader.Next | source/csv/csv.go:94-112 | delivers the rows in order with their numbers, passes over a malformed record with an error, and then goes on; after the last, the end |
| CsvSource.ReadsAreRows | source/csv/csv.go:94-112 | up to the first error the reads are the rows of the table; the next read is that error |
| CsvSource.NumbersAre | source/csv/csv.go:94-112 | row numbers count well-formed records, whatever malformed ones come between |
| CsvSource.RowReader.Close | source/csv/csv.go:114-117 | after closing there are no rows |
| CsvSource.Analyze | source/csv/csv.go:22-48 | columns, row count and the first five rows are those of what is streamed; it fails if a record is malformed |
| XlsxSource.OpenSheet | source/xlsx/xlsx.go:125-163 | the first sheet with a row that is not blank, right below that row; every sheet before is blank |
| XlsxSource.RowReader.Next | source/xlsx/xlsx.go:85-110 | delivers the rows in order with their numbers; after the last, or an error of the sheet, it is closed |
| XlsxSource.RowReader.Close | source/xlsx/xlsx.go:112-123 | closing twice is harmless |
| XlsxSource.AnalyzeSheet | source/xlsx/xlsx.go:165-205 | a sheet is listed exactly if it has a header, with the columns, count and samples of its rows |
| XlsxSource.Analyze | source/xlsx/xlsx.go:20-51 | lists the sheets with a header in workbook order; fails if there is none |
| XlsxSource.ListedAre | source/xlsx/xlsx.go:20-51 | the sheets listed are those with a header and no other, in workbook order |
| XlsxSource.ListedAt | source/xlsx/xlsx.go:37-46 | each is listed with the name, columns, count and samples of its own rows |
| XlsxSource.FirstListedIsStreamed | source/xlsx/xlsx.go:37-46 | the first sheet listed has the columns, rows and row numbers of the sheet that is streamed |
| XlsxSource.NothingToStreamNothingListed | source/xlsx/xlsx.go:47-49 | a blank workbook has nothing to stream and nothing to list |
| Registry.ValidateSchema | mapper/registry.go:103-136 | accepts exactly the schemas with IDs, names and fields that are non-zero, non-empty, distinct and of supported types |
| Registry.CloneSchema | mapper/registry.go:147-150 | an equal schema whose slice is new |
| Registry.MemorySchemaRegistry.constructor | mapper/registry.go:29-31 | a new registry holds nothing |
| Registry.MemorySchemaRegistry.Register | mapper/registry.go:33-57 | a valid schema with a new ID and name is added, any other changes nothing; the answer says which; the slice kept is new |
| Registry.MemorySchemaRegistry.Get | mapper/registry.go:63-78 | succeeds exactly for registered IDs, with a valid schema in a slice of its own |
| Registry.MemorySchemaRegistry.List | mapper/registry.go:84-97 | every schema once, strictly by ID, in slices of their own |
| Registry.RegisteredIsConsistent | mapper/registry.go:33-57 | registering keeps all schemas valid with distinct IDs and names |
| Registry.ListIsUnique | mapper/registry.go:84-97 | there is one such list, so the map's iteration order does not show |
| Registry.SortByID | mapper/registry.go:95 | the same schemas, strictly ascending by ID |
| Registry.ValidSchemaHasNoDefect | executor/validation.go:49-75 | a valid schema is never rejected for its own ID or field IDs |
| RegistryClient.Serve | mapper/registry.go:33-97 | whatever a client does with the slices it holds, registry and slices behave as values that share nothing |
| RegistryClient.ReachableIsConsistent | mapper/registry.go:33-97 | in every reachable state all schemas are valid, under their own IDs, with distinct names |
| RegistryClient.RegisteredStays | mapper/registry.go:33-97 | a schema once registered stays as it was, whatever the client overwrites |
| RegistryClient.GottenSchemaHasNoDefect | executor/validation.go:49-75 | no schema a client can get triggers the schema-side rejections of a mapping |

## Left out

- HTTP: routing, headers, status codes and JSON encoding of `mapperhttp` and of the upload handler; a request begins once its headers were accepted.
- Creation without a writer, with a bad header, or whose staging file cannot be made: refused before there is an upload.
- The Jev HTTP call: each column has a reply that is an error or a decoded body, of any content; timeouts and encoding are not modelled.
- Libraries: `strconv`, `time.Parse`, `encoding/json`, `encoding/csv` and `excelize` are parameters, or inputs in the form the library delivers.
- Dynamic `float64` and `int` values in a Jev answer: the decoder is set to `json.Number`, so it never makes them.
- Floating point: confidences are exact rationals, so rounding, infinities and NaN are not modelled; decimal cell values are opaque 64-bit patterns.
- Unicode: the tables are parameters with the assumptions above; strings are sequences of characters, so invalid UTF-8 is not modelled.
- Error texts, nil receivers, option setters, alias functions and `Config.Validate`.
- Sheets other than the first with a header: neither adapter opens them. The executor takes the columns of the sheet asked for, but rows always from the first; `Pipeline.ImportWorkbook` says what is reported for sheet zero only.
- Columns given to the executor as an option, and readers that cannot seek: `Pipeline` takes the columns from the analysis.
- Cancellation: a poll may or may not report an error at any time if the context can be cancelled; that it stays cancelled is not used.
- TusHandler.Handler.Write: requests are kept as data with a program point each, because goroutines have no counterpart; the class does not capture the real file descriptors.
- TusHandler.Handler.AskCompleted: the source reads `completed` without the mutex (upload/tus/tus.go:274); here that read is one atomic step.
- Credits to an upload whose offset would leave the 64-bit range: that many bytes would have to be written first.
- Staging files of terminated, aborted or closed uploads: their removal has no effect on a session and is not tracked.
- Metadata fields beyond name, content type and size (`Filename`, `Extension`, `CreatedAt`), and file ids whose directory cannot be created.
- XlsxSource.OpenSheet: what opening or reading a workbook fails on is one kind of error, and opening the workbook itself is taken to have succeeded.
- Registry.MemorySchemaRegistry.Register: one operation at a time; the registry's own mutex, and a caller that overwrites a slice while it is being registered, are not modelled.
- SourceRows.SourceValues: the size of the value array is unbounded, where Go would run out of memory for a huge index.
- `filterSuggestions`, which filters and truncates a list of suggestions.
