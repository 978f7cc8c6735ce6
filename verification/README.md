# A verified model of the platform's stateful algorithms

This project models, in Dafny, those parts of the repository whose correctness depends on every
input, every run or every interleaving, and proves what they promise. Each module follows one
component.

| module | component |
|---|---|
| `Frames` | length-prefixed stream frames of the reference mod's client: encoder, chunk-fed decoder |
| `BinaryLeaves`, `PacketText`, `Packets` | binary leaves lifted out of a value, the packet printer and parser, and the decoder that collects attachments |
| `SendQueue` | the socket's write buffer, size-bounded batches and drains |
| `Tasks` | the task registry with cancel hooks and concurrent stops |
| `Robots` | the per-origin robots.txt cache with double-checked locking |
| `Versions` | model lines, versions, the movable current pointer and its audit trail |
| `Knowledge` | keyset pagination over a table that changes between batches |
| `Folders` | recursive listing and deletion of folders |
| `Config` | the persistent configuration tree, restarts and imports |
| `Connections`, `Migration` | the audio connection store, and the move of the flat settings into it |
| `Labels`, `Voices` | the voice catalog: build, merge, curate, filter, shown sources |
| `HopPolicy`, `Fetch` | which links may be followed, and the gated retrying fetch |
| `Messages` | thread pages and reaction groups |
| `Dotted`, `Decimals`, `Wrappers` | splitting and joining at dots, decimal digits, and optional values, shared by the above |

Code that changes state is modelled by classes and methods with loops; each method is tied to a
specification function, and the theorems are about those functions. Interleaved programs are state
machines whose steps end where the program awaits; the class methods are the synchronous pieces and
the machines apply the same functions of the tables. What lies outside a component (JSON text, number
parsing, text decoding, the URL parser, name resolution, the database's row order, uuids, the outcomes
of requests and commits) enters as a parameter, and the theorems hold for every choice of it that
meets the stated assumption.

## Where the code and its description part ways

Some promises hold only under a condition. The code is modelled as it is; the condition is proved to
be the exact one wherever an equivalence is stated, and a lemma shows what happens without it.

- The stream decoder works for every cut into non-empty chunks. An empty chunk before a non-empty one
  breaks it, always (`Frames.EmptyChunksBreakDecoding`). A decoder limit below 127 is no obstacle to
  the payloads that fit it.
- The batch size estimate is exact for text. For binary data the factor 1.33 is too small unless the
  length is a multiple of three below 300, and the estimate of an empty ArrayBuffer is NaN, which no
  limit stops. Batches fit under every limit exactly when there are fewer than two packets or all
  estimates are exact (`SendQueue.BatchFits`, `SendQueue.EmptyBufferSendsAll`).
- A cancel hook registered after its task's callback has run stays for ever (`Tasks.LateHookLeaks`).
- Version numbers are right when the number is read and the row written without another append in
  between; two racing appends collide (`Versions.RacingAppendsCollide`).
- A restart gives an entry its last assigned value, except that an assigned `None` gives the
  environment's value, not the value before it (`Config.NoneHidesValue`). Entries whose paths are
  nested lose assignments (`Config.PrefixFreeNeeded`). A failed import has already replaced the
  stored tree, and the next start fails (`Config.FailedImportBreaksRestart`). An assignment the
  database refuses stays in memory, and the next accepted one, of any entry, stores it after all
  (`Config.RefusedValueReturns`).
- A persisted connection is said never to carry another type's field; loading does not check that
  (`Connections.LoadedIsWellTyped`).
- The module description of the hop policy (lines 39-40) says that no allowed hop leaves the registrable
  domain. A page on a public suffix itself may lead to every site under it (`HopPolicy.SuffixHostLeaks`).
- `browse_fetch` says it never raises; a URL whose host cannot be parsed raises before the first
  attempt, and so does a name resolution error other than a failed lookup (`Fetch.BrowseFetch`).
- Shown source labels are said to be unique per connection. Ids that read like the end of a label
  break this (`Labels.ShownLabelsDiffer`).
- Folder recursion ends exactly for folders that are not their own descendants
  (`Folders.EndsOffCycles`); nothing in the table prevents a cycle. A deletion that runs into Python's
  recursion limit reports failure, but what it has deleted so far stays deleted
  (`Folders.FolderTable.DeleteFolder`).

## Model

| member | source | states |
|---|---|---|
| Frames.BigEndianRoundTrip | api/mods/reference/entry.1c0Ptbnq.js:2925-2930 | every number that fits a given width is read back from its big-endian bytes |
| Frames.FromBigEndianHalves | api/mods/reference/entry.1c0Ptbnq.js:2970-2975 | reading eight bytes as two four-byte halves gives the whole number |
| Frames.PutBigEndian | api/mods/reference/entry.1c0Ptbnq.js:2925-2930 | the in-place writes of a length leave the rest of the header as it was |
| Frames.EncodeFrame | api/mods/reference/entry.1c0Ptbnq.js:2915-2936 | the two chunks enqueued for a packet are its header, in the right one of three forms and with the binary bit, and its payload |
| Frames.HeaderForm | api/mods/reference/entry.1c0Ptbnq.js:2921-2932 | the form of the length from the length alone: one byte below 126, 126 and two bytes below 65536, 127 and eight bytes otherwise, with the binary bit |
| Frames.Consume | api/mods/reference/entry.1c0Ptbnq.js:2957-2985 | a decoder turn leaves the loop exactly when it reports an error, and otherwise waits for at least one byte |
| Frames.ParseInTwoParts | api/mods/reference/entry.1c0Ptbnq.js:2950-2989 | decoding can be suspended after any prefix of the bytes and resumed with the same result |
| Frames.ConsumeLength64 | api/mods/reference/entry.1c0Ptbnq.js:2967-2975 | the nine-byte length form is read back, and refused exactly from 2^53 on |
| Frames.ParseWire | api/mods/reference/entry.1c0Ptbnq.js:2915-2989 | the flat decoder on the encoder's output emits the packets up to the first undeliverable one, then an error if there is one |
| Frames.TakeIsPrefix | api/mods/reference/entry.1c0Ptbnq.js:2941-2949 | from non-empty chunks, reading n bytes gives the first n of the joined bytes and leaves the rest, whatever the chunk boundaries |
| Frames.TakeProgress | api/mods/reference/entry.1c0Ptbnq.js:2956-2986 | every turn that stays in the loop consumes a byte or moves on to a header, so the endless `for` ends |
| Frames.Drain | api/mods/reference/entry.1c0Ptbnq.js:2955-2987 | one `transform` call stops at an error or when fewer bytes are buffered than the state needs |
| Frames.StreamDecoder.constructor | api/mods/reference/entry.1c0Ptbnq.js:2951-2953 | the decoder starts in the header state with nothing buffered |
| Frames.StreamDecoder.BufferedBytes | api/mods/reference/entry.1c0Ptbnq.js:2938-2940 | the sum of the chunk lengths |
| Frames.StreamDecoder.TakeBytes | api/mods/reference/entry.1c0Ptbnq.js:2941-2949 | the byte loop with its cursor and the fast path give the bytes and the remaining chunk list of the specification |
| Frames.StreamDecoder.Transform | api/mods/reference/entry.1c0Ptbnq.js:2955-2987 | one call changes state, chunk list and output as the specification says |
| Frames.DrainIsParse | api/mods/reference/entry.1c0Ptbnq.js:2955-2987 | on non-empty chunks one call agrees with the flat decoder on the joined bytes |
| Frames.DecodeAllIsParse | api/mods/reference/entry.1c0Ptbnq.js:2950-2989 | whatever the cut into non-empty chunks, the events are those of the flat decoder up to its first error |
| Frames.AnyCutDecodes | api/mods/reference/entry.1c0Ptbnq.js:2915-2989 | for every packet sequence and every cut into non-empty chunks: exactly the packets sent come out, in order and with their flags, if and only if every payload is 1 to limit bytes and below 2^53; then the decoder is back in the header state with nothing buffered; otherwise it emits the packets before the first bad one and an error |
| Frames.GapIsKept | api/mods/reference/entry.1c0Ptbnq.js:2941-2949 | an empty chunk followed by bytes is never stepped over |
| Frames.EmptyChunksBreakDecoding | api/mods/reference/entry.1c0Ptbnq.js:2941-2989 | deliverable packets are decoded with nothing left over if and only if no empty chunk precedes a non-empty one |
| Frames.PipeThrough | api/mods/reference/entry.1c0Ptbnq.js:2950-2989 | feeding a fresh decoder object chunk by chunk gives the specified events |
| BinaryLeaves.LiftBinary | api/mods/reference/entry.1c0Ptbnq.js:3997-4017 | the loops over arrays and objects replace the binary leaves by numbered placeholders in the order met |
| BinaryLeaves.LiftCounts | api/mods/reference/entry.1c0Ptbnq.js:3975-4017 | the packet is recognised as binary exactly when lifting takes something out, and otherwise lifting is the identity |
| BinaryLeaves.LiftTakesLeaves | api/mods/reference/entry.1c0Ptbnq.js:3997-4017 | lifting takes out every binary leaf, in the order met, and leaves none behind |
| BinaryLeaves.PlaceholderForm | api/mods/reference/entry.1c0Ptbnq.js:4000-4027 | what a placeholder looks like on the wire, and that one whose number names no attachment raises |
| BinaryLeaves.RestoreLift | api/mods/reference/entry.1c0Ptbnq.js:3997-4035 | putting the attachments back gives the original value if and only if it had no placeholder-shaped object of its own |
| Decimals.DecimalRoundTrip | api/mods/reference/entry.1c0Ptbnq.js:4080-4083 | printed counts and ids read back |
| PacketText.EncodePieces | api/mods/reference/entry.1c0Ptbnq.js:4069-4092 | one text piece, followed by exactly the lifted binary leaves in order |
| PacketText.FindChar | api/mods/reference/entry.1c0Ptbnq.js:4139-4156 | the scanning loops stop at the first dash or comma, or at the end |
| PacketText.DecodeString | api/mods/reference/entry.1c0Ptbnq.js:4131-4151 | type and attachment count: the result or the error of the specification parser |
| PacketText.DecodeBody | api/mods/reference/entry.1c0Ptbnq.js:4152-4158 | the namespace, with the source's index arithmetic |
| PacketText.DecodeIdAndData | api/mods/reference/entry.1c0Ptbnq.js:4159-4181 | id and payload, with the source's index arithmetic and its refusal of invalid payloads |
| Packets.Reconstructor.constructor | api/mods/reference/entry.1c0Ptbnq.js:4213-4215 | a new reconstruction has no attachments yet |
| Packets.Reconstructor.TakeBinaryData | api/mods/reference/entry.1c0Ptbnq.js:4224-4236 | a packet is ready exactly with its last attachment, and then holds the restored data or raises; a finished reconstruction lets go of packet and attachments |
| Packets.Decoder.constructor | api/mods/reference/entry.1c0Ptbnq.js:4098-4103 | a new decoder is idle |
| Packets.Decoder.AddPiece | api/mods/reference/entry.1c0Ptbnq.js:4109-4124 | text and binary pieces in and out of turn: emission, state and error as specified |
| Packets.EmittedIsWellFormed | api/mods/reference/entry.1c0Ptbnq.js:4109-4204 | whatever pieces arrive, every emitted packet has a namespace that starts with a slash and has no comma, and a payload its kind allows |
| PacketText.ParsePrinted | api/mods/reference/entry.1c0Ptbnq.js:4080-4181 | the text of every valid packet of all seven kinds, with or without a payload, is parsed back to the packet; too many attachments are refused |
| PacketText.WireFormat | api/mods/reference/entry.1c0Ptbnq.js:4080-4083 | the text of packets of each kind, character by character |
| PacketText.PayloadRules | api/mods/reference/entry.1c0Ptbnq.js:4189-4204 | what each kind accepts as a payload |
| PacketText.UnknownTypeRefused | api/mods/reference/entry.1c0Ptbnq.js:4133-4137 | packet types above six are refused |
| PacketText.BadCountRefused | api/mods/reference/entry.1c0Ptbnq.js:4138-4151 | no attachments, or more than allowed, are refused |
| PacketText.ReservedNamesRefused | api/mods/reference/entry.1c0Ptbnq.js:4036-4049 | an event with a name the library uses itself is not a valid payload |
| Packets.FeedAttachments | api/mods/reference/entry.1c0Ptbnq.js:4109-4124 | only the last attachment completes a packet |
| Packets.RoundTrip | api/mods/reference/entry.1c0Ptbnq.js:3975-4237 | a connect, disconnect, event, ack or connect_error packet, with or without a payload, fed back piece by piece is emitted once, unchanged, with its last piece, if and only if namespace and payload are valid and, when it is an event or ack with binary leaves, they are not too many and no object looks like a placeholder |
| Packets.ConnectReply | api/mods/reference/entry.1c0Ptbnq.js:4109-4116 | the reply to a connection, fed to an idle decoder, is emitted as a connect packet with its payload |
| Packets.TextInAndOutOfTurn | api/mods/reference/entry.1c0Ptbnq.js:4109-4124 | text is refused exactly during a reconstruction or when it does not parse, and otherwise emitted, or starts a reconstruction when it announces attachments; a binary piece outside of one is refused |
| Packets.NoReservedEvents | api/mods/reference/entry.1c0Ptbnq.js:4109-4204 | whatever pieces arrive, no event with a reserved name is emitted |
| SendQueue.Utf8Length | api/mods/reference/entry.1c0Ptbnq.js:3052-3057 | the loop counts, and on well-formed UTF-16 the count is the UTF-8 size |
| SendQueue.CountIsUtf8Size | api/mods/reference/entry.1c0Ptbnq.js:3052-3057 | the running count from any position is the size of the encoding of the rest (section 3 of RFC 3629) |
| SendQueue.BinaryEstimate | api/mods/reference/entry.1c0Ptbnq.js:3048-3051 | the estimate of binary data is NaN exactly for an empty ArrayBuffer; otherwise it never exceeds the base64 size, and equals it exactly for multiples of three below 300 |
| SendQueue.EstimateIsPayloadSize | api/mods/reference/entry.1c0Ptbnq.js:3774-3785 | the running total is NaN exactly with an empty ArrayBuffer in the batch, never exceeds the size of the joined payload, and equals it exactly when each packet's estimate is exact |
| SendQueue.BatchIsLongest | api/mods/reference/entry.1c0Ptbnq.js:3774-3785 | a longer prefix is over the limit if and only if it has no empty ArrayBuffer |
| SendQueue.EmptyBufferSendsAll | api/mods/reference/entry.1c0Ptbnq.js:3774-3785 | a batch that reaches an empty ArrayBuffer is the whole buffer, whatever the limit |
| SendQueue.ExactBatchFits | api/mods/reference/entry.1c0Ptbnq.js:3774-3785 | with exact estimates a batch is the longest prefix whose encoded payload fits, or the first packet alone |
| SendQueue.PoisonOverflows | api/mods/reference/entry.1c0Ptbnq.js:3774-3785 | for every buffer with an empty ArrayBuffer there is a limit under which all of it is sent and is too large |
| SendQueue.InexactOverflows | api/mods/reference/entry.1c0Ptbnq.js:3774-3785 | for every buffer with any other inexact packet there is a limit under which a batch is too large |
| SendQueue.BatchFits | api/mods/reference/entry.1c0Ptbnq.js:3774-3785 | under every positive limit a batch is the longest fitting prefix, or the first packet alone, if and only if the buffer has fewer than two packets or every estimate is exact |
| SendQueue.BinaryBatchOverflows | api/mods/reference/entry.1c0Ptbnq.js:3048-3051 | two one-byte binary packets are batched under a limit of seven and take eleven bytes |
| SendQueue.BatchIsUnique | api/mods/reference/entry.1c0Ptbnq.js:3774-3785 | the specification of a batch determines it |
| SendQueue.StepKeeps | api/mods/reference/entry.1c0Ptbnq.js:3754-3785 | each step conserves what was handed over followed by what waits |
| SendQueue.ExactlyOnceInOrder | api/mods/reference/entry.1c0Ptbnq.js:3754-3845 | over every run the batches, joined, and the waiting packets are the accepted packets in queueing order |
| SendQueue.EveryBatchOfEveryRun | api/mods/reference/entry.1c0Ptbnq.js:3754-3785 | at every step of every run a batch is handed over exactly when the transport is or gets free and something waits; on polling with a limit it is the longest fitting prefix of what waits, with exact estimates, and on any other transport all of it |
| SendQueue.StepHandsOver | api/mods/reference/entry.1c0Ptbnq.js:3754-3785 | the same for one step from any state |
| SendQueue.DrainsDeliver | api/mods/reference/entry.1c0Ptbnq.js:3754-3767 | each drain hands over at least one waiting packet until none is left |
| SendQueue.Socket.constructor | api/mods/reference/entry.1c0Ptbnq.js:3624-3624 | a new socket has an empty buffer and nothing in flight |
| SendQueue.Socket.GetWritablePackets | api/mods/reference/entry.1c0Ptbnq.js:3774-3785 | the loop returns the batch the specification describes |
| SendQueue.Socket.FlushBuffer | api/mods/reference/entry.1c0Ptbnq.js:3762-3767 | a flush hands over one batch, or nothing when closed, paused, busy or empty |
| SendQueue.Socket.OnOpen | api/mods/reference/entry.1c0Ptbnq.js:3702-3704 | opening flushes what was queued before |
| SendQueue.Socket.SendPacket | api/mods/reference/entry.1c0Ptbnq.js:3835-3845 | a packet is appended and flushed unless the socket is closing or closed |
| SendQueue.Socket.OnDrain | api/mods/reference/entry.1c0Ptbnq.js:3754-3756 | a drain removes exactly the batch in flight and flushes again |
| Tasks.Registry.CleanupTask | api/selfai_ui/tasks.py:30-35 | the done callback removes the id from both tables and nothing else |
| Tasks.Registry.CreateTask | api/selfai_ui/tasks.py:38-49 | the new task is listed |
| Tasks.Registry.RegisterCancelHook | api/selfai_ui/tasks.py:52-66 | the hook replaces any earlier one of that id |
| Tasks.Registry.BeginStop | api/selfai_ui/tasks.py:102-116 | the lookup and the pop of the hook happen in one step |
| Tasks.Registry.EndStop | api/selfai_ui/tasks.py:157-158 | the tail removes the task from the task table only |
| Tasks.HooksOnceKept | api/selfai_ui/tasks.py:69-75 | every step keeps: a hook that started is gone from the table and starts once |
| Tasks.NoOlderHookKept | api/selfai_ui/tasks.py:69-116 | every step keeps: no hook older than a begun stop waits for its task |
| Tasks.RequestsOkKept | api/selfai_ui/tasks.py:102-116 | every step keeps: cancellation was requested only when no older hook was waiting |
| Tasks.AsksOnceKept | api/selfai_ui/tasks.py:102-158 | every step keeps: each stop asks at most once, and before it succeeds |
| Tasks.SettledKept | api/selfai_ui/tasks.py:30-49 | every step keeps: after its callback a task is listed no more, and has a hook only when one was registered late |
| Tasks.LateIsRecorded | api/selfai_ui/tasks.py:52-66 | the late registrations recorded in a state are those of its history |
| Tasks.StopProtocol | api/selfai_ui/tasks.py:30-158 | in every interleaving of creations, registrations, completions, callbacks and any number of stops: hooks start at most once, cancellation is requested at most once per stop and after older hooks were taken, success is reported only for finished tasks, and a finished task whose callback ran is in neither table, except for a hook exactly when it was registered after that callback |
| Tasks.StopFate | api/selfai_ui/tasks.py:102-158 | over every run: a stop is not found exactly when its task was not listed as it began; it asks for cancellation exactly when its hook is over or there was none; it is abandoned exactly when its own wait is cancelled and the task has not ended cancelled; it succeeds exactly when it asks or is woken and the task is over, or is cancelled after the task has ended cancelled, and then the task is unlisted |
| Tasks.HookFate | api/selfai_ui/tasks.py:52-75 | over every run: a registered hook waits until a later registration replaces it, the callback drops it, or a stop that finds the task takes it, and then it is started |
| Tasks.StartedIsFound | api/selfai_ui/tasks.py:69-75 | a hook is started exactly when a stop finds its task while the hook waits |
| Tasks.ListedExactly | api/selfai_ui/tasks.py:30-49 | a task is listed exactly from its creation until its callback has run or a stop of it has succeeded |
| Tasks.NothingLeaks | api/selfai_ui/tasks.py:30-158 | when hooks are registered only for listed tasks, no finished task remains in either table once callbacks have run |
| Tasks.LateHookLeaks | api/selfai_ui/tasks.py:52-66 | a run in which a hook registered too late is left behind |
| Tasks.LateHookStays | api/selfai_ui/tasks.py:30-66 | no later step removes such a hook |
| Robots.RobotsCache.Begin | api/selfai_ui/browse/robots.py:73-78 | the first check answers from the cache or makes sure there is a lock |
| Robots.RobotsCache.Acquire | api/selfai_ui/browse/robots.py:79-81 | under the lock the cache is checked again |
| Robots.RobotsCache.Store | api/selfai_ui/browse/robots.py:86-100 | the rules, or allow-all when there are none that parse, are cached and the lock left |
| Robots.RobotsCache.Release | api/selfai_ui/browse/robots.py:79-84 | a cancelled fetch leaves only the lock |
| Robots.LockIsFetchKept | api/selfai_ui/browse/robots.py:78-84 | every step keeps: a lock is held exactly by the lookup that fetches for its origin |
| Robots.CacheIsFetchedKept | api/selfai_ui/browse/robots.py:73-100 | every step keeps: cached origins are those with a completed fetch, each one once, and answers given equal the cached ones |
| Robots.CacheOnlyGrows | api/selfai_ui/browse/robots.py:99-100 | no step replaces a cached answer |
| Robots.CacheIsStable | api/selfai_ui/browse/robots.py:70-100 | a cached answer is the same at every later time |
| Robots.LookupProtocol | api/selfai_ui/browse/robots.py:70-100 | in every interleaving with cancellations: one fetch per origin in flight, at most one per origin completes, and any two returns for an origin agree |
| Robots.AnswerIsFetched | api/selfai_ui/browse/robots.py:84-100 | over every run: each answer is what an earlier fetch for the origin brought, the rules in the text if it parses and allow-all otherwise |
| Robots.LookupSteps | api/selfai_ui/browse/robots.py:73-100 | a cached answer is given at once, before and behind the lock; otherwise a lookup waits, fetches, and answers with what came back |
| Robots.NeverStuck | api/selfai_ui/browse/robots.py:70-100 | in every reachable state a waiting lookup or the holder of its lock can take a step |
| Versions.ModelTables.InsertNewLine | api/selfai_ui/models/model_versions.py:190-212 | a new line with its prior moves, or no change |
| Versions.ModelTables.MaxSequence | api/selfai_ui/models/model_versions.py:384-384 | the loop finds the highest number of the line's rows |
| Versions.ModelTables.InsertNewVersion | api/selfai_ui/models/model_versions.py:355-403 | the append succeeds exactly when validation, commit message, parent and commit allow it, and a refusal changes nothing |
| Versions.ModelTables.SetCurrentVersion | api/selfai_ui/models/model_versions.py:255-287 | the pointer moves, with its audit entry, exactly to versions of the line |
| Versions.ModelTables.DeleteLineById | api/selfai_ui/models/model_versions.py:289-307 | a line goes only when it has no versions |
| Versions.ModelTables.DeleteVersionsByLine | api/selfai_ui/models/model_versions.py:421-429 | exactly the line's versions go |
| Versions.WriteKeepsWalkable | api/selfai_ui/models/model_versions.py:311-403 | writing a row keeps the history well formed if and only if the row passes validation and has the number after the last one |
| Versions.RacingAppendsCollide | api/selfai_ui/models/model_versions.py:355-403 | two appends that both read before either writes break the numbering |
| Versions.WalkEndsAtRoot | api/selfai_ui/models/model_versions.py:311-353 | walking parents ends at the root within as many steps as the version's number |
| Versions.OneRoot | api/selfai_ui/models/model_versions.py:311-353 | all versions of a line lead to the same root |
| Versions.WalkableKept | api/selfai_ui/models/model_versions.py:289-430 | every operation, failed ones included, keeps the history well formed |
| Versions.TrailedKept | api/selfai_ui/models/model_versions.py:189-287 | every operation keeps the audit trail unbroken and replayable |
| Versions.PointedKept | api/selfai_ui/models/model_versions.py:255-307 | every operation keeps: the current version is one of its line unless they were purged |
| Versions.HistoryOfEveryRun | api/selfai_ui/models/model_versions.py:189-430 | after any run: numbers 1..n, parents earlier on the same line, one root, bases of kind base on the line, no orphaned versions; moves form an unbroken chain that replays to the pointer; a set pointer is valid exactly when the line was not purged since it moved |
| Versions.MoveMoves | api/selfai_ui/models/model_versions.py:255-287 | a committed move to a version of the line sets the pointer, appends exactly that move from the old pointer, and changes nothing else; any other changes nothing |
| Versions.PointerFollowsMoves | api/selfai_ui/models/model_versions.py:255-287 | over every run: the recorded moves are exactly the successful ones in order, and the pointer is the target of the last, or null without any |
| Versions.AppendAppends | api/selfai_ui/models/model_versions.py:355-403 | an accepted append stores the kind, commit, parent and base of the form under the next number, and no other row changes |
| Versions.AppendRules | api/selfai_ui/models/model_versions.py:311-353 | what validation accepts, as an equivalence |
| Versions.AppendedStays | api/selfai_ui/models/model_versions.py:355-430 | over every run: an appended version is there, as its form said, until its line is bulk-deleted |
| Versions.RowWasAppended | api/selfai_ui/models/model_versions.py:355-430 | every version there was so appended |
| Versions.DeletesDelete | api/selfai_ui/models/model_versions.py:190-307 | what inserting a line, deleting a line and deleting its versions do and leave alone |
| Versions.PointerUntilPurge | api/selfai_ui/models/model_versions.py:255-430 | until the line's versions are bulk-deleted its pointer is null or names one of them |
| Knowledge.Query | api/selfai_ui/models/knowledge.py:303-313 | a page is sorted, behind the cursor, within the limit, and leaves out only rows behind a full page |
| Knowledge.IterFiles | api/selfai_ui/models/knowledge.py:287-319 | the loop makes one query per table state and ends at the first empty page |
| Knowledge.YieldedIncreases | api/selfai_ui/models/knowledge.py:287-319 | with arbitrary changes between batches the ids of the whole run strictly increase |
| Knowledge.NotPassed | api/selfai_ui/models/knowledge.py:303-319 | the cursor never passes a linked file that was not yielded |
| Knowledge.LinkedThroughoutIsYielded | api/selfai_ui/models/knowledge.py:287-319 | in a run that ends, a file linked throughout is yielded, once, if and only if its id is not empty |
| Knowledge.OnlyLinkedIsYielded | api/selfai_ui/models/knowledge.py:303-319 | every yielded file was linked when its batch was read |
| Knowledge.StableTable | api/selfai_ui/models/knowledge.py:287-319 | without changes the run ends and its batches join to the full sorted list |
| Folders.FolderTable.GetChildren | api/selfai_ui/models/folders.py:170-175 | the user's folders with that parent, each once |
| Folders.FolderTable.ListChildren | api/selfai_ui/models/folders.py:130-134 | every strict descendant once, after all of its own descendants; the recursion limit is met exactly when there is a parent chain of that length |
| Folders.FolderTable.GetChildrenFolders | api/selfai_ui/models/folders.py:125-143 | the same for an existing folder of the user; nothing for any other, or when the recursion limit is met |
| Folders.FolderTable.DeleteChats | api/selfai_ui/models/chats.py:900-908 | the user's chats in the folder go, and no others |
| Folders.FolderTable.DeleteChildren | api/selfai_ui/models/folders.py:290-298 | exactly the descendants and the user's chats in them go; when the recursion limit is met, some descendants with all below them, none on a cycle, and the chats of those visited |
| Folders.FolderTable.DeleteFolder | api/selfai_ui/models/folders.py:279-306 | success exactly for a folder of the user whose recursion ends within the limit, and then exactly the folder, its descendants and the user's chats in them go; otherwise nothing, or a part as above |
| Folders.SiblingsDisjoint | api/selfai_ui/models/folders.py:290-298 | the subtrees of two children off every cycle have nothing in common |
| Folders.DescendantsAfterRemoval | api/selfai_ui/models/folders.py:290-298 | deleting whole subtrees leaves the descendants of every other folder as they were |
| Folders.SubtreesAreDescendants | api/selfai_ui/models/folders.py:130-134 | the children's subtrees together are the strict descendants |
| Folders.NextChild | api/selfai_ui/models/folders.py:290-298 | after the earlier siblings are gone the next child is still there with its whole subtree, and the recursion on it goes as deep as before |
| Folders.NoOrphans | api/selfai_ui/models/folders.py:279-306 | no remaining folder of the user has a removed parent |
| Folders.OnlyOwnFolders | api/selfai_ui/models/folders.py:279-306 | only the user's folders are removed |
| Folders.ChatsAfterwards | api/selfai_ui/models/chats.py:900-908 | exactly the user's own chats in the given folders go; others stay as they are |
| Folders.EndsOffCycles | api/selfai_ui/models/folders.py:130-134 | some recursion limit is enough if and only if the folder is not its own descendant, and then one more than the number of descendants is |
| Folders.DeepThroughChild | api/selfai_ui/models/folders.py:130-134 | the recursion on a folder exceeds a limit if and only if the one on some child exceeds one less |
| Folders.CycleSurvives | api/selfai_ui/models/folders.py:290-304 | a deletion on a cycle is given up at every limit and leaves every folder on a cycle in place |
| Folders.CycleBelowIsCycleAbove | api/selfai_ui/models/folders.py:130-134 | a folder above a cycle is on it, so the starting folder is the only one to ask about |
| Config.GetConfigValue | api/selfai_ui/config.py:359-367 | the walk gives the value, nothing, or the type error the membership test or the index raises |
| Config.LookupExactly | api/selfai_ui/config.py:359-367 | the value dictionaries lead to; an exception exactly at a number, boolean or null, at a string containing the next key or a list holding it; nothing otherwise |
| Config.WriteThrough | api/selfai_ui/config.py:456-462 | the walk down with creation of missing dictionaries, and the assignment, give the tree of the nested write |
| Config.WriteSucceeds | api/selfai_ui/config.py:456-462 | a write succeeds exactly when only dictionaries or nothing lie on the way |
| Config.ReadWritten | api/selfai_ui/config.py:359-462 | a written value reads back |
| Config.OtherPathKept | api/selfai_ui/config.py:456-462 | a write leaves every path that is neither above nor below as it was |
| Config.AppConfig.constructor | api/selfai_ui/config.py:350-356 | a start takes the tree from the database, or the defaults |
| Config.AppConfig.Register | api/selfai_ui/config.py:398-409 | an entry starts with the stored value, or the environment's when there is none or persistence is off; a tree it cannot be read from raises |
| Config.AppConfig.Save | api/selfai_ui/config.py:441-463 | the entry's value is written to the tree in memory and then to the database, which may refuse it; nothing changes when persistence is off or the write raises |
| Config.AppConfig.SetAttr | api/selfai_ui/config.py:472-477 | an assignment sets the running value and saves it; an unknown name changes nothing |
| Config.AppConfig.SaveConfig | api/selfai_ui/config.py:373-388 | an import the database accepts replaces the tree, then updates entries up to the first that raises, and reports whether one did; a refused one changes nothing |
| Config.RunKeepsSound | api/selfai_ui/config.py:373-463 | when every write is accepted, memory and database hold the same tree after every run |
| Config.RefusedWrites | api/selfai_ui/config.py:373-463 | after a refused write they agree only if it changed nothing, and after the next accepted one they agree again, whatever was refused before |
| Config.TreeIsFlatTable | api/selfai_ui/config.py:359-480 | with prefix-free paths the tree behaves, over every run of assignments and imports with accepted and refused writes, as a flat write-back table with one cell per entry, and a restart reads the stored cells |
| Config.RestartAfterAssignments | api/selfai_ui/config.py:397-480 | after any assignments a restart gives the last value assigned up to the last accepted write, or the environment's when that is `None`, and every other entry what it would have given before |
| Config.RefusedValueReturns | api/selfai_ui/config.py:441-463 | a refused assignment is stored by the next accepted one of any other entry |
| Config.NoneHidesValue | api/selfai_ui/config.py:397-463 | an assigned `None` hides the value before it |
| Config.ImportSetsPresent | api/selfai_ui/config.py:373-439 | an accepted import sets exactly the entries present with a value, and decides what a restart gives, whatever the tree was before |
| Config.UnfitLosesAssignment | api/selfai_ui/config.py:441-463 | exactly on a path that fits the tree an assignment reaches the tree, and the database if that accepts it |
| Config.PrefixFreeNeeded | api/selfai_ui/config.py:441-463 | two entries with nested or equal paths have assignments after which the lower one is lost |
| Config.FailedImportBreaksRestart | api/selfai_ui/config.py:373-409 | an import is reported as failed exactly when a restart from the new tree would fail |
| Config.FailedImportStops | api/selfai_ui/config.py:373-388 | an import that fails at an entry has updated the entries before it and no other |
| Config.EnvironmentDecides | api/selfai_ui/config.py:390-463 | with persistence off no run changes a restarted value, no import a running one, and no assignment the database |
| Connections.ValidateFields | api/selfai_ui/audio/connections.py:728-737 | the loop accepts exactly the type's own fields |
| Connections.Draft.constructor | api/selfai_ui/audio/connections.py:293-300 | a new draft has no type and no fields |
| Connections.Draft.SetField | api/selfai_ui/audio/connections.py:274-290 | a field is set, or refused for want of a type or as another type's, leaving the draft as it was |
| Connections.Draft.ChooseType | api/selfai_ui/audio/connections.py:303-321 | choosing a type starts over with an empty dictionary of its own |
| Connections.Store.constructor | api/selfai_ui/audio/connections.py:825-829 | a new store is empty |
| Connections.Store.Insert | api/selfai_ui/audio/connections.py:856-860 | a key assignment adds at the end or replaces in place, and dictionaries stay unshared |
| Connections.Store.Add | api/selfai_ui/audio/connections.py:833-861 | a new connection with a fresh copy of the caller's dictionary, or an error and no change |
| Connections.Store.SaveDraft | api/selfai_ui/audio/connections.py:863-874 | a draft with a type is saved as a copy; a valid draft fails only on a taken id |
| Connections.Store.UpdateFields | api/selfai_ui/audio/connections.py:912-925 | one connection's fields are merged in place, or an error and no change |
| Connections.UpdateDict | api/selfai_ui/audio/connections.py:924-924 | the merge shows in the addressed connection alone |
| Connections.Store.Delete | api/selfai_ui/audio/connections.py:929-941 | one connection goes, or an error and no change |
| Connections.Store.ToSerializable | api/selfai_ui/audio/connections.py:945-952 | the entries in insertion order |
| Connections.FromSerializable | api/selfai_ui/audio/connections.py:955-972 | the loaded store, or the error of an unknown type value |
| Connections.Edit | api/selfai_ui/audio/connections.py:248-321 | what a caller does to a dictionary or draft it keeps does not show in the store |
| Connections.Call | api/selfai_ui/audio/connections.py:833-941 | what the store does, it does not to the caller's dictionary and draft, and it keeps neither |
| Connections.Session | api/selfai_ui/audio/connections.py:248-941 | over any sequence of edits, adds, updates, deletes and failed calls a new store, the caller's dictionary and the draft behave as three separate values |
| Connections.StepKeeps | api/selfai_ui/audio/connections.py:816-941 | every call keeps ids listed once and fields typed |
| Connections.RunKeepsTyped | api/selfai_ui/audio/connections.py:816-941 | over every run of adds, updates, deletes and failures each connection holds only its own type's fields |
| Connections.StepIsIsolated | api/selfai_ui/audio/connections.py:816-941 | a call changes at most the connection it addresses, keeps the order of the others, and changes nothing when it fails |
| Connections.AddHolds | api/selfai_ui/audio/connections.py:833-861 | a successful add holds exactly the given type and fields, listed last; which refusal is given and exactly when |
| Connections.UpdateHolds | api/selfai_ui/audio/connections.py:912-925 | a successful update holds the given values, the old ones elsewhere and the type as before; which refusal is given and exactly when |
| Connections.DeleteHolds | api/selfai_ui/audio/connections.py:929-941 | a successful delete removes the connection; refused exactly for an unknown id |
| Connections.FieldsOfTypes | api/selfai_ui/audio/connections.py:153-208 | the fields of each type |
| Connections.TypesInWords | api/selfai_ui/audio/connections.py:56-68 | the stored name of each type |
| Connections.RunIsIsolated | api/selfai_ui/audio/connections.py:816-941 | a connection no call of a run addresses is unchanged by the run |
| Connections.SaveThenLoad | api/selfai_ui/audio/connections.py:945-972 | saving and loading restores the same ordered set |
| Connections.LoadedIsWellFormed | api/selfai_ui/audio/connections.py:955-972 | whatever was stored, a loaded store lists each id once |
| Connections.LoadedIsWellTyped | api/selfai_ui/audio/connections.py:720-772 | a loaded store holds only own fields if and only if the stored entries did, the last one of each id |
| Connections.LoadOne | api/selfai_ui/audio/connections.py:763-773 | one entry is loaded with a dictionary of its own |
| Migration.EngineTables | api/selfai_ui/audio/migration.py:53-75 | the two engine tables say what the type descriptors say |
| Migration.FieldsFromLegacy | api/selfai_ui/audio/migration.py:78-94 | each field is present exactly when its setting was and equals it, and there are no others |
| Migration.TypesAreConfigured | api/selfai_ui/audio/migration.py:143-158 | the queued types are exactly the configured ones, at most two, and distinct |
| Migration.TypesByEngine | api/selfai_ui/audio/migration.py:143-158 | which engine strings and settings make which connection, and that the speech-to-text one comes first |
| Migration.FieldsBySetting | api/selfai_ui/audio/migration.py:78-94 | which setting each field of a migrated connection comes from |
| Migration.CreateAll | api/selfai_ui/audio/migration.py:160-161 | the final loop makes one connection per queued type, and raises exactly when two are queued and the id factory repeats itself |
| Migration.Migrate | api/selfai_ui/audio/migration.py:116-163 | a stored set that is not empty is returned unchanged whatever the snapshot; otherwise one connection per configured engine, at most two, at most one per type, with every field equal to its setting; it raises exactly for an unknown stored type or a repeated id |
| Migration.AgainIsIdle | api/selfai_ui/audio/migration.py:116-163 | what a migration produced loads back unchanged, and it is empty exactly when the snapshot has nothing to migrate |
| Labels.StripIsTrimmed | api/selfai_ui/audio/connections.py:808-812 | a stripped name neither starts nor ends with white space |
| Labels.LabelShape | api/selfai_ui/audio/connections.py:792-813 | a display label has no number sign, or ends in a bracket after something other than white space |
| Labels.NameShown | api/selfai_ui/audio/connections.py:792-813 | the name shown is the first non-blank one of model, TTS model, voice and TTS voice, stripped; without any the type alone is shown |
| Labels.StripParts | api/selfai_ui/audio/connections.py:808-812 | stripping takes white space from both ends and nothing else |
| Labels.LabelsInWords | api/selfai_ui/audio/connections.py:90-127 | the label of each type, and of a connection with a name |
| Labels.CountLabels | api/selfai_ui/audio/voice_catalog.py:459-462 | the counting loop counts, for every label, the connections that have it |
| Labels.DisambiguateSourceLabels | api/selfai_ui/audio/voice_catalog.py:445-474 | the loops give every connection its label, with the id appended where the label is shared |
| Labels.ShownExactly | api/selfai_ui/audio/voice_catalog.py:464-474 | a label no other connection has is shown as it is, a shared one with the id, and an empty one by the id |
| Labels.MixedCollision | api/selfai_ui/audio/voice_catalog.py:464-474 | a label that equals another label with an id means the id looks like a label's end |
| Labels.DoubleCollision | api/selfai_ui/audio/voice_catalog.py:464-474 | two different labels with ids that read the same mean that one id contains the other behind a label's end |
| Labels.OrdinaryIdsAreSafe | api/selfai_ui/audio/voice_catalog.py:445-474 | ids without a number sign that do not end in a bracket meet the condition |
| Labels.SafeIdsDiffer | api/selfai_ui/audio/voice_catalog.py:445-474 | with safe ids all shown labels differ |
| Labels.TailClashes | api/selfai_ui/audio/voice_catalog.py:464-474 | any id that looks like a label's end clashes for some connections, when there are three ids |
| Labels.HiddenIdClashes | api/selfai_ui/audio/voice_catalog.py:464-474 | any id that hides another clashes for some connections, when there are four ids |
| Labels.ShownLabelsDiffer | api/selfai_ui/audio/voice_catalog.py:445-474 | for a set of ids the shown labels differ whatever connections they belong to, if and only if the ids are safe |
| Voices.BuildVoiceCatalog | api/selfai_ui/audio/voice_catalog.py:148-183 | the loop gives the first usable row of each voice id, in order |
| Voices.CatalogIsReported | api/selfai_ui/audio/voice_catalog.py:148-183 | the catalog holds exactly the reported ids, each once |
| Voices.IdOfRow | api/selfai_ui/audio/voice_catalog.py:86-100 | the id of a row is its text or the first filled one of four keys |
| Voices.DetailsOfRow | api/selfai_ui/audio/voice_catalog.py:103-145 | name, language and gender of a row, under any of their keys, the name falling back to the id |
| Voices.OneMoreRow | api/selfai_ui/audio/voice_catalog.py:148-183 | voices stand in the order in which they are first reported, with what was said then |
| Voices.MergeCatalog | api/selfai_ui/audio/voice_catalog.py:278-285 | the inner loop adds each pair of connection and voice id not seen yet |
| Voices.AggregateVoiceCatalogs | api/selfai_ui/audio/voice_catalog.py:251-287 | the merge in source order, then voice order |
| Voices.AggregateIsOffered | api/selfai_ui/audio/voice_catalog.py:251-287 | the merge holds exactly what some connection reports, attributed to it, and no pair twice |
| Voices.OneMoreSource | api/selfai_ui/audio/voice_catalog.py:251-287 | one more connection appends its whole catalog in its own order |
| Voices.CurateVoiceCatalog | api/selfai_ui/audio/voice_catalog.py:368-413 | the voices that match the search, in order, with their enabled flags |
| Voices.CuratedHas | api/selfai_ui/audio/voice_catalog.py:368-413 | a voice is in the curated list, with a flag, if and only if it is in the catalog, matches the search if there is one, and has that flag |
| Voices.FilterEnabledVoices | api/selfai_ui/audio/voice_catalog.py:290-316 | the enabled voices, in order |
| Voices.FilteredHas | api/selfai_ui/audio/voice_catalog.py:290-316 | a voice is in the end user's list if and only if it is in the catalog and enabled |
| Voices.OneMoreVoice | api/selfai_ui/audio/voice_catalog.py:290-413 | both overlays keep the order of the catalog |
| Voices.ViewsAgree | api/selfai_ui/audio/voice_catalog.py:290-413 | without a search the administrator sees every voice, and as enabled exactly what the end user gets |
| Voices.CuratedDiffer | api/selfai_ui/audio/voice_catalog.py:368-413 | curation and search keep pairs of connection and voice id distinct |
| Voices.LabelVoiceSources | api/selfai_ui/audio/voice_catalog.py:477-506 | every voice gets the shown label of its source, or its id |
| Voices.LabelledExactly | api/selfai_ui/audio/voice_catalog.py:477-506 | each voice is shown with the label of its source, or with the id when there is none |
| Voices.NoTwoLookAlike | api/selfai_ui/audio/voice_catalog.py:251-506 | through merge, curation and labelling no two listed voices share both shown source and voice id, for safe connection ids |
| Voices.LookAlikes | api/selfai_ui/audio/voice_catalog.py:477-506 | two sources shown alike that offer the same voice id give two entries nobody can tell apart |
| HopPolicy.StripDots | api/selfai_ui/browse/hop_policy.py:57-77 | exactly the trailing dots of a host are removed |
| HopPolicy.HostByName | api/selfai_ui/browse/hop_policy.py:57-77 | names that differ only in case and trailing dots are one host; a URL that cannot be parsed or has no name has none and is on no site |
| HopPolicy.SameSiteByLabels | api/selfai_ui/browse/hop_policy.py:80-96 | a hop is allowed if and only if both URLs have a host and the hosts are equal or one is a proper label-suffix of the other |
| HopPolicy.SameSiteSymmetric | api/selfai_ui/browse/hop_policy.py:80-96 | the rule is symmetric, and reflexive exactly on URLs with a host |
| HopPolicy.HopKeepsDomain | api/selfai_ui/browse/hop_policy.py:39-45 | for every public-suffix set a hop keeps the registrable domain if and only if the deeper host's suffix is a proper label-suffix of the shallower host |
| HopPolicy.ChainStaysOnDomain | api/selfai_ui/browse/hop_policy.py:39-96 | a chain of allowed hops stays on one registrable domain if and only if that holds at every hop |
| HopPolicy.SuffixHostLeaks | api/selfai_ui/browse/hop_policy.py:39-40 | over a public suffix's own page two hops lead from any site under it to any other |
| HopPolicy.CoUkLeaks | api/selfai_ui/browse/hop_policy.py:39-40 | the same for `foo.co.uk`, `co.uk` and `bar.co.uk` |
| Dotted.JoinSplit | api/selfai_ui/config.py:360-360 | joining the parts of a dotted name gives the name |
| Dotted.SuffixIsByParts | api/selfai_ui/browse/hop_policy.py:96-96 | ending in a dot and a name is having its parts as a proper suffix of one's own |
| Fetch.HostnameMatchesList | api/selfai_ui/browse/connection.py:97-106 | the loop finds whether some pattern covers the host |
| Fetch.PatternByLabels | api/selfai_ui/browse/connection.py:97-106 | a pattern covers the name itself and its subdomains, label by label |
| Fetch.ListByLabels | api/selfai_ui/browse/connection.py:97-106 | a list covers a host exactly when one pattern is the host or a parent domain |
| Fetch.Gates | api/selfai_ui/browse/connection.py:178-216 | for each refusal exactly when it is given, in order, exactly when an exception escapes, and exactly when nothing objects |
| Fetch.BrowseFetch | api/selfai_ui/browse/connection.py:158-292 | no request for a refused host, at least one and at most retry count + 1 otherwise; success if and only if a usable outcome occurs within the budget before any rejection, with the first such content, never blank; otherwise an explicit failure, with the rejected status or the last attempt's error; an exception escapes exactly for an unparsable host or an uncaught resolver error |
| Fetch.OutcomeRules | api/selfai_ui/browse/connection.py:240-290 | which statuses reject, which outcomes are usable, and which error each other outcome leaves |
| Messages.GetMessagesByParentId | api/selfai_ui/models/messages.py:157-179 | the page of the thread, never more than the limit |
| Messages.PagesAreThread | api/selfai_ui/models/messages.py:157-179 | pages 0 to replies / limit join to all replies in order and the parent once; every later page is the parent alone |
| Messages.GetReactions | api/selfai_ui/models/messages.py:208-223 | each reaction name once with exactly its users in order, and counts that add up to the number of reactions |

## Left out

- The Svelte runtime, the XHR, WebSocket and WebTransport transports, upgrade probing and reconnection of the client bundle.
- Text decoding of payloads and `yr`/`vr`, the per-packet encoders of the transports: frames carry bytes with a binary flag.
- JSON printing and parsing, number parsing beyond decimal digits, Dates and `toJSON` objects: the packet codec takes printer and parser as parameters and the round trip assumes they are inverse on the value sent.
- Packets.RoundTrip: a payload that is `undefined` is written as no payload; that the JSON text of an array, object or string starts with its own sign, and that this sign is not a number, is assumed of the platform.
- Numbers that a double cannot hold exactly: packet ids and attachment counts are unbounded integers.
- Mutation of the caller's packet by the binary encoder (`Ba` writes into its argument): packets are values.
- Frames.AnyCutDecodes: packets of 2^64 bytes and more, which no array can hold, are excluded.
- SendQueue.BatchFits: lone surrogates are excluded; the code counts them as four bytes with the unit that follows. Factor 1.33 is exact arithmetic, not floating point.
- SendQueue.ExactlyOnceInOrder: covers one transport; what a closing socket drops from its buffer is outside the run.
- Tasks.StopProtocol: a hook's own work, its timeout and logging are one step that may end in any way.
- Robots: `is_allowed`, `crawl_delay` and `max_crawl_delay` are single reads of the parser found; the robots parser itself is a parameter.
- Versions: rows are written in one atomic step with the number read before, as a single writer does; timestamps, names and the publish jobs of the same file are not modelled.
- Knowledge: the join with the files table; a row is its id.
- Folders: the recursion limit is the number of nested calls of the inner function that are left; Python counts all frames of the thread.
- Config: sharing of nested lists and dictionaries between an entry's value and the tree; values are immutable here. Migration of an old config.json at start.
- Connections: order of the fields inside one connection, and callers that change a returned connection's dictionary themselves.
- Migration: `build_legacy_snapshot` is reading of attributes.
- Voices: unwrapping of a backend's answer into rows (`_as_list`); the search text and the case folding of the curation search are a parameter; hosted providers' normalizers and `resolve_tts_control_url` are field lookups.
- HopPolicy.ChainStaysOnDomain: a public-suffix list is any set of label sequences; its exception rules are not modelled.
- Fetch.BrowseFetch: page cleaning and blank test are parameters; cancellation of the coroutine is not modelled.
- Messages.PagesAreThread: for a reply order that stays the same between pages; equal timestamps may be ordered either way by the database.
- Plain tables (auths, channels, chats, files, prompts, groups and the like), routers, environment reading, the mod loader and the queue broker: single reads and writes or wiring.
