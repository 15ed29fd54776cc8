# A model of the bounded protocol machines between host and model child

The repository runs a language model in a child process and talks to it through a stack of small
machines: codecs for private pipes, a transport that defers and restores frames, budgets shared by
workers, sessions that multiplex turns over one wire, and an acceptor on the other side that reads
what a session emits. Each machine is bounded, and each stops for good on any doubt. This project
states in Dafny what these machines do, in the form the programs have (classes whose methods update
fields, loops with invariants, pure functions for the codecs), and proves what holds between them.

| file | models |
|---|---|
| Utf8, Json, JsonCost, JsonOrder, BigEndian | the text and byte level both codecs share: printing, parsing, exact sizes, canonical key order |
| JsonText, JsonPaths | the same, told outright: which characters stand where, and what is asked of every place of a tree |
| PipeCodec, PipeSession, PipeEnvelope | the length-prefixed canonical codec, its framer and its numbered sessions |
| EpochWire, EpochChannel, Lines | the newline-delimited wire, its reader and its writer |
| RpcLedger, NativeRpc | the transport to the child: framing, deferral, the ledger of the child's requests, non-poisoning polls |
| Budgets, WorkerPool | the shared budget with its two turn ledgers, and the pool of workers under it |
| EpochClock, OutputGate, ParallelWorld, ParallelSession | the supervisor's clock and acceptor, the multiplexed session, and the proof that the one accepts the other |
| GateHistory | which lists of lines the acceptor accepts, told by the lines alone |
| EpochSession | the single-pump session: receiver, mailbox, main thread |
| ToolBudget, FrameCount | the conversation engine's tool-call budget and its byte counters |
| Png, PngLayout, ImageExport | the PNG container check, the export of an image, and the lease that ties an export to one turn |
| ImageReceiver | the host's receiver of exported images, and the proof that it receives exactly what is exported |
| ScopedRpc, IdleLedger | the scoped coordinator, the idle validator and its registry |
| Relay | the egress relay's counters and the host's check of them |
| Intake | the personal agent's intake scheduler |
| Vocabulary | purposes, codes, deliveries and caps that several machines share |
| Wrappers, Dictionary, Permutation, Sets | shared helpers |

Threads are methods that are atomic at the granularity of the code's locks; any order of calls that
the preconditions allow is a run. A class invariant `Valid()` that every method keeps is therefore a
statement about every interleaving, and lemmas that require only `Valid()` speak of every reachable
state. What a pipe, the kernel, a clock, a callback or another thread does at a step is a parameter.
Ghost fields keep histories: every byte read, every frame delivered, every frame on the wire. Where a
test in the code can never fire, the method asserts that its branch is dead.

## What the proofs found

- The parallel session's last frames are refused by the acceptor unless every worker had been
  announced; the session does not count them, so the workers' frames may pass the acceptor's cap on
  inner bytes; and it bounds the pool's last line by the frame cap of 3 MiB only, while the acceptor
  charges that line to 64 KiB of control lines. `ParallelSession.Session.EndAccepted` gives the exact
  condition, `ParallelSession.Session.EndAcceptedInTime` with the acceptor's clock running, and
  `ParallelSession.StoppedWhileAnnouncing` a run that ends in such a refusal.
- The image collector counts an identifier in characters and the host's receiver in UTF-16 units, so an
  image whose item has a name of 129 to 256 characters beyond the first 65536 is exported and refused.
  `ImageReceiver.ExportReceived` gives the exact condition, `ImageReceiver.TooWide` such a name; nothing
  else can keep an exported image from being received.
- Of the minima the acceptor's clock takes, only the one that opens the cleaning up can decide; the
  overall end of 1055 seconds never does (`EpochClock.WatchedIff`).
- In the base scope of the conversation engine, seven large replies leave too little room and the
  eighth call is refused for bytes (`ToolBudget.BaseBytesBindLast` says exactly when,
  `ToolBudget.SevenLargeReplies` is such a run).
- The relay's normaliser also caps the count of rejected connections at one million, which nothing
  in the relay bounds; every other identity always holds (`Relay.Relay.NormalIff`, and
  `Relay.TurnsAwayTooMany` for a run).
- In the intake scheduler a handler that rejects with a falsy value such as zero hides every later
  rejection: the call returns normally (`Intake.FirstReasonDecides`, `Intake.Intake.Finish`, and
  `Intake.HiddenFailure` for a run).
- In the single-pump session a turn that was marked but could not be handed to the actor is reported
  as unreleased (`EpochSession.Session.Unreleased`, and `EpochSession.MarkedNeverHanded` for a run).
- A poll after the end of the stream fails even when whole frames are still queued
  (`NativeRpc.NativeRpc.PollFrame`, and `NativeRpc.QueuedBehindTheEnd` for a run).

## Model

| member | source | states |
|---|---|---|
| Json.ParsePrint | project/verification/rm-0032-native-pipe.py:69-73 | a whole printed text parses back to the tree it was printed from, for every tree of dictionaries without repeated keys |
| Json.ParseProper | project/verification/rm-0032-native-pipe.py:84-89 | whatever parses has no repeated key in any dictionary |
| JsonCost.PrintedBytes | project/verification/rm-0032-native-pipe.py:30-57 | the byte count charged for a tree is the exact length of its UTF-8 text |
| JsonText.CharacterBytes | project/verification/rm-0032-native-pipe.py:69-73 | a character takes one to four bytes, the shortest that serve, and how the first of them and each further one are made up |
| JsonText.DecimalText | project/verification/rm-0032-native-pipe.py:69-73 | a number is written in decimal digits without a leading zero |
| JsonText.EscapedCharacter | project/verification/rm-0032-native-pipe.py:69-73 | which characters are escaped, and as what: quotation mark, reverse solidus, and controls by a letter or by four hex digits |
| JsonText.QuotedText | project/verification/rm-0032-native-pipe.py:69-73 | a quoted text is the escapes of its characters, in order, between quotation marks |
| JsonText.TreeText | project/verification/rm-0032-native-pipe.py:69-73 | the words, brackets, colons and commas of every kind of tree, and no space |
| JsonText.TextOrder | project/verification/rm-0032-native-pipe.py:69-73 | keys are ordered by code points, a key before what it begins |
| JsonPaths.ValuesAre | project/verification/rm-0032-native-pipe.py:30-57 | what is counted as values is the places of a tree, each once |
| JsonPaths.HeightWhen | project/verification/rm-0032-native-pipe.py:40-57 | a tree is as high as its furthest place |
| JsonPaths.ShapeWhen | project/verification/rm-0032-native-pipe.py:40-57 | every number at every place is safe, and every key of every dictionary is a good name |
| PipeCodec.Counter.Budget | project/verification/rm-0032-native-pipe.py:35-37 | bytes are added first and then held against the frame cap |
| PipeCodec.Validate | project/verification/rm-0032-native-pipe.py:30-57 | the incremental walk accepts exactly the trees that are well-keyed, safe, at most 16 deep, at most 4096 values and at most 3 MiB counted from what came before, and then has counted exactly their values and bytes |
| PipeCodec.ValidateItems | project/verification/rm-0032-native-pipe.py:46-49 | the list loop accepts exactly when all items together do, with the same running totals |
| PipeCodec.ValidateFields | project/verification/rm-0032-native-pipe.py:50-56 | the dictionary loop accepts exactly when all keys and values together do, each key charged before its value |
| PipeCodec.PayloadCapImplied | project/verification/rm-0032-native-pipe.py:37-73 | the payload of a validated envelope is as long as was counted, so the second cap never decides |
| JsonOrder.CanonIdempotent | project/verification/rm-0032-native-pipe.py:69-73 | putting a canonical tree in canonical order again changes nothing, at every depth and for both key orders |
| JsonOrder.CanonSame | project/verification/rm-0032-native-pipe.py:69-73 | the canonical tree is the same dictionary |
| PipeCodec.EncodeFrame | project/verification/rm-0032-native-pipe.py:76-81 | an encoded frame is never longer than the cap and its prefix |
| PipeCodec.Prefixed | project/verification/rm-0032-native-pipe.py:76-114 | the first four bytes of any frame that is encoded or decoded, most significant first, are the number of bytes behind them |
| PipeEnvelope.KeyNames | project/verification/rm-0032-native-pipe.py:17-53 | which keys a body may use: a letter, then letters, digits and underscores, 64 at most, and none of three names |
| PipeEnvelope.EncodesWhen | project/verification/rm-0032-native-pipe.py:30-73 | exactly which sessions, numbers, kinds and bodies can be sent, told in the values a caller gives |
| PipeCodec.DecodeEncode | project/verification/rm-0032-native-pipe.py:76-114 | decoding what encoding gives returns the same dictionary in canonical key order, for every frame that encodes |
| PipeCodec.EncodeDecode | project/verification/rm-0032-native-pipe.py:76-114 | encoding what decoding gives returns the very bytes, for every byte string that decodes |
| PipeCodec.ParserIndependent | project/verification/rm-0032-native-pipe.py:103-114 | for any JSON parser that reads valid envelopes back, however many other texts it refuses or accepts, which frames decode and to what is the same |
| PipeCodec.HookChangesNothing | project/verification/rm-0032-native-pipe.py:95-114 | the hook that refuses integers over 17 characters or outside the safe range changes no decoding: what it refuses is no frame |
| JsonPaths.ReadableWhen | project/verification/rm-0032-native-pipe.py:95-102 | what the hook lets pass: numbers of at most 17 characters in the safe range, at whatever place of the tree |
| PipeSession.ReadFrames | project/verification/rm-0032-native-pipe.py:128-138 | the loop of one push reads exactly the frames a recursive reading of the bytes finds, at most 32, and refuses only on a bad frame or a 33rd |
| PipeSession.Framer.Push | project/verification/rm-0032-native-pipe.py:123-141 | a push reads exactly what the pending and new bytes, at most 8 MiB, hold together, at most 32 frames, and keeps the rest; a refusal poisons and empties the framer |
| PipeSession.Framer.End | project/verification/rm-0032-native-pipe.py:143-149 | a stream may end only on a frame boundary of a healthy framer |
| PipeSession.PushedIsCut | project/verification/rm-0032-native-pipe.py:123-141 | pushing chunk after chunk reads what cutting the whole stream at once reads |
| PipeSession.CutIndependent | project/verification/rm-0032-native-pipe.py:123-141 | two ways of splitting one byte stream, neither refused, give the same frames and the same leftover |
| PipeSession.PushedLosesNothing | project/verification/rm-0032-native-pipe.py:76-141 | all frames encoded again, then the leftover, are exactly the bytes pushed |
| PipeSession.CutWherePrefixSays | project/verification/rm-0032-native-pipe.py:128-138 | the first frame cut from a stream ends where its first four bytes say, and the next cut begins there |
| PipeSession.SessionCodec.Open | project/verification/rm-0032-native-pipe.py:152-164 | a codec is refused unless the session is 32 hex digits and both kind lists are non-empty, known and without repeats |
| PipeSession.SessionCodec.Encode | project/verification/rm-0032-native-pipe.py:166-174 | a codec numbers what it sends without gaps and poisons itself on any failure |
| PipeSession.SessionCodec.Accept | project/verification/rm-0032-native-pipe.py:176-186 | a codec accepts exactly the next number of its session in a kind it receives, as a snapshot, and otherwise poisons itself |
| PipeEnvelope.NextWhen | project/verification/rm-0032-native-pipe.py:176-186 | exactly which dictionaries are taken next: the frame of the own session, of the next number, of a kind received and of any body that can be sent, its keys in any order |
| PipeSession.GaplessRun | project/verification/rm-0032-native-pipe.py:176-186 | from frames drawn in any order, with loss or repetition, from what a peer sent, those accepted are a gapless run up to the first deviation |
| PipeSession.StreamIsWired | project/verification/rm-0032-native-pipe.py:76-174 | the bytes of all frames sent, one after another, are cut into exactly those frames as a peer reads them, and nothing is left over |
| PipeSession.GaplessPrefix | project/verification/rm-0032-native-pipe.py:152-186 | of two complementary codecs one hands out exactly a prefix of what the other sent, whether the frames come off the wire or not, in any key order, lost, repeated or out of order; and all of it when they arrive as sent |
| PipeSession.AcceptAll | project/verification/rm-0032-native-pipe.py:176-186 | a fresh codec given frames one after another hands out snapshots of the prefix its judge accepts, and is poisoned exactly when that is not all of them |
| JsonOrder.ArrayIndexOrder | project/verification/rm-0032-native-epoch-wire.py:43-64 | array-index keys come first, ascending; the plain keys follow exactly in insertion order (section 10.1.11.1 of ECMA-262) |
| JsonText.IndexKeys | project/verification/rm-0032-native-epoch-wire.py:43-48 | the keys that are array indices are exactly the decimal numbers from 0 to 4294967294, each with its value |
| JsonText.SelectedInOrder | project/verification/rm-0032-native-epoch-wire.py:62-64 | setting fields apart keeps their order |
| JsonOrder.ArrangePermutes | project/verification/rm-0032-native-epoch-wire.py:62-64 | canonical order only moves fields about |
| EpochWire.DecodeEncode | project/verification/rm-0032-native-epoch-wire.py:67-88 | a frame one side emits is read by the other as the same dictionary in JavaScript key order |
| EpochWire.EncodesWhen | project/verification/rm-0032-native-epoch-wire.py:67-78 | exactly which dictionaries a side can send, the larger bound for turns with images included |
| JsonPaths.SafeWhen | project/verification/rm-0032-native-epoch-wire.py:50-65 | every number at every place of a tree is safe |
| EpochWire.DecodesExactly | project/verification/rm-0032-native-epoch-wire.py:67-88 | a line decodes to a value if and only if it is the frame of that value and the value is a dictionary without repeated keys in canonical order: one line for each value, one value for each line |
| EpochWire.ParserIndependent | project/verification/rm-0032-native-epoch-wire.py:81-88 | for any JSON parser that reads what can be framed back, which lines decode and to what is the same, because the canonical text must come back |
| EpochWire.NoLineFeed | project/verification/rm-0032-native-epoch-wire.py:70-77 | the text of a frame holds no line feed, so lines and frames coincide |
| EpochChannel.Reader.Read | project/verification/rm-0032-native-epoch-wire.py:168-172 | every read asks for at least one byte and at most what fits, so an empty answer means the end of the stream |
| EpochChannel.Reader.Take | project/verification/rm-0032-native-epoch-wire.py:157-165 | one line is decoded and taken; a refusal or an expired budget takes nothing |
| EpochChannel.Reader.Fill | project/verification/rm-0032-native-epoch-wire.py:166-182 | bytes read are kept, and the total and unfinished-line caps refuse |
| EpochChannel.Reader.Step | project/verification/rm-0032-native-epoch-wire.py:147-182 | one turn of the loop: lines taken plus buffer are the bytes read, and the end of the stream is reported only with nothing unfinished |
| EpochChannel.Reader.Receive | project/verification/rm-0032-native-epoch-wire.py:140-188 | a call hands out at most one frame, the oldest; end of stream means every byte read was a delivered line; a failed reader holds no bytes |
| EpochChannel.Reader.Close | project/verification/rm-0032-native-epoch-wire.py:232-238 | close revokes and wipes the buffer |
| EpochChannel.Writer.WriteAll | project/verification/rm-0032-native-epoch-wire.py:201-225 | short writes are continued until the line is whole; otherwise the writer is dead |
| EpochChannel.Writer.Emit | project/verification/rm-0032-native-epoch-wire.py:190-230 | the pipe holds whole lines, followed by part of one only after a failure; the budget is reserved before the first byte |
| EpochChannel.InOrder | project/verification/rm-0032-native-epoch-wire.py:90-230 | a reader of part of a writer's lines hands out exactly the first of the values emitted, in order |
| EpochChannel.EndToEnd | project/verification/rm-0032-native-epoch-wire.py:90-230 | in any state of a reader on a writer's pipe, the writer failed or not, what was handed out is what was emitted first, each value the same dictionary, and beyond that at most the one value whose writing failed |
| NativeRpc.OwnIdsDiffer | project/verification/rm-0032-native-rpc.py:277-277 | no two requests of one connection share a name |
| NativeRpc.NativeRpc.constructor | project/verification/rm-0032-native-rpc.py:142-156 | a connection starts in custody, with nothing received |
| NativeRpc.NativeRpc.Admit | project/verification/rm-0032-native-rpc.py:211-220 | a decoded frame is admitted exactly unless it is a request out of phase, repeated or over a cap, or the held frames are over theirs, with each cap in numbers |
| NativeRpc.NativeRpc.Ingest | project/verification/rm-0032-native-rpc.py:196-220 | exactly which reads are refused, and that any other adds its bytes and every line they complete; nothing else changes |
| NativeRpc.NativeRpc.SplitLines | project/verification/rm-0032-native-rpc.py:203-220 | the loop takes exactly the lines a recursive reading of the buffer takes, in order, and refuses exactly when that does |
| NativeRpc.NativeRpc.Wait | project/verification/rm-0032-native-rpc.py:222-237 | a wait either brings readiness or poisons |
| NativeRpc.NativeRpc.Write | project/verification/rm-0032-native-rpc.py:239-252 | while a line is written frames may arrive, but nothing is handed out or answered |
| NativeRpc.NativeRpc.Await | project/verification/rm-0032-native-rpc.py:254-261 | a queued frame is there at once; otherwise reading goes on until there is one or the connection is poisoned |
| NativeRpc.NativeRpc.Restore | project/verification/rm-0032-native-rpc.py:288-295 | the response leaves the queue and the deferred frames go back in front of it in their order |
| NativeRpc.NativeRpc.DeferredFits | project/verification/rm-0032-native-rpc.py:283-286 | deferring can never break the caps: the check there is unreachable |
| NativeRpc.NativeRpc.SetAside | project/verification/rm-0032-native-rpc.py:281-287 | methods are deferred in order until a response stands in front |
| NativeRpc.NativeRpc.Transact | project/verification/rm-0032-native-rpc.py:277-295 | the exchange removes exactly one frame, the response with its own name, and every method keeps its place |
| NativeRpc.NativeRpc.Exchange | project/verification/rm-0032-native-rpc.py:267-296 | a successful exchange was allowed in its phase and took exactly its own response; the caller gets an error code exactly when that response is an error, and only a result of the first exchange begins the handshake; a failed one poisons |
| NativeRpc.NativeRpc.Initialized | project/verification/rm-0032-native-rpc.py:298-304 | the handshake is completed once, in custody, after its first half |
| NativeRpc.NativeRpc.AdmitModel | project/verification/rm-0032-native-rpc.py:306-314 | the model phase is entered exactly from a finished handshake; there is never a pending request before it |
| NativeRpc.NativeRpc.HandOut | project/verification/rm-0032-native-rpc.py:316-328 | the oldest frame is handed out if it is a method; its request is always marked queued, so that check is unreachable |
| NativeRpc.NativeRpc.NextFrame | project/verification/rm-0032-native-rpc.py:316-328 | exactly one method is handed out, the oldest not yet handed out |
| NativeRpc.NativeRpc.Respond | project/verification/rm-0032-native-rpc.py:330-340 | only a delivered request is answered, once, and it is spent before the first byte |
| NativeRpc.NativeRpc.PollFrame | project/verification/rm-0032-native-epoch-rpc.py:20-70 | a poll hands out the oldest method or reports idle without losing, handing out or answering anything |
| NativeRpc.NativeRpc.IdleState | project/verification/rm-0032-native-epoch-rpc.py:72-84 | what is observed between polls; with nothing queued and no line begun every byte read was handed out or taken |
| NativeRpc.QueuedBehindTheEnd | project/verification/rm-0032-native-epoch-rpc.py:20-52 | a run whose stream ends during the handshake behind a whole queued notification: the first poll fails and drops it |
| NativeRpc.NativeRpc.DrainToEof | project/verification/rm-0032-native-rpc.py:356-385 | after input is closed everything held is discarded and counted, and no operation resumes |
| NativeRpc.NativeRpc.Close | project/verification/rm-0032-native-rpc.py:349-354 | close forgets what was held and the ledger of requests, and no operation or drain goes on after it |
| RpcLedger.CutIndependent | project/verification/rm-0032-native-rpc.py:196-220 | two readings of one byte stream have the same frames and hand them out in the same order |
| RpcLedger.BytesConserved | project/verification/rm-0032-native-rpc.py:196-220 | delivered, taken, held and unfinished bytes are all the bytes read |
| RpcLedger.LedgerCount | project/verification/rm-0032-native-rpc.py:213-218 | requests seen are pending plus answered, and an answered one was delivered and is no longer held |
| NativeRpc.EveryState | project/verification/rm-0032-native-rpc.py:142-340 | in every unpoisoned state between operations: arrival order, the request ledger, the caps and the byte count all hold |
| NativeRpc.AnyTwoRuns | project/verification/rm-0032-native-rpc.py:196-340 | two connections fed the same bytes, cut and interleaved differently, received the same frames and handed out prefixes of one sequence |
| Budgets.NeverShort | project/verification/history-parallel-native-pool.py:103-133 | a dispatch of an admitted turn is never refused for lack of turns, though admission and dispatch look at different counters |
| Budgets.BackgroundBounded | project/verification/history-parallel-native-pool.py:103-133 | background work never takes the reserved foreground turns |
| Budgets.ForegroundKept | project/verification/history-parallel-native-pool.py:127-130 | the foreground is refused for lack of turns only after its whole reserve was admitted |
| Budgets.BackgroundServed | project/verification/history-parallel-native-pool.py:127-131 | background work is refused for lack of turns exactly when none is left or all that are left are still owed to the foreground |
| Budgets.SharedBudget.Open | project/verification/history-parallel-native-pool.py:59-76 | a budget outside its limits, or without a clock, is refused |
| Budgets.SharedBudget.Remaining | project/verification/history-parallel-native-pool.py:83-92 | a clock going backwards, closing and the deadline are told apart, in this order |
| Budgets.SharedBudget.Reserve | project/verification/history-parallel-native-pool.py:94-101 | bytes are reserved before they move and never beyond the limit |
| Budgets.SharedBudget.Admit | project/verification/history-parallel-native-pool.py:113-133 | exactly when a turn is admitted, and why not otherwise; a background turn refused for turns means that every turn left is owed to the foreground |
| Budgets.SharedBudget.Dispatch | project/verification/history-parallel-native-pool.py:103-111 | a pending admission is never refused for turns; the turn is counted before the call |
| WorkerPool.AdmittedStep | project/verification/history-parallel-native-pool.py:395-417 | an admission is one more admitted request of its class, and disturbs no other worker |
| WorkerPool.DispatchedStep | project/verification/history-parallel-native-pool.py:220-230 | a dispatch always has its own admission still unspent |
| WorkerPool.WorkerPool.Submit | project/verification/history-parallel-native-pool.py:352-393 | the first free worker of the purpose gets the request; busy means there is none; no request runs twice |
| WorkerPool.WorkerPool.Begin | project/verification/history-parallel-native-pool.py:412-417 | a job is admitted or its worker retired; a foreground job refused for turns means the reserve is used up, a background one that every turn left is owed to the foreground |
| WorkerPool.WorkerPool.ThreadStart | project/verification/history-parallel-native-pool.py:220-240 | one thread in a worker's life, never after its turn |
| WorkerPool.WorkerPool.TurnStart | project/verification/history-parallel-native-pool.py:220-231 | for every interleaving of workers, the budget never refuses an admitted worker its one turn for lack of turns |
| WorkerPool.WorkerPool.Finish | project/verification/history-parallel-native-pool.py:426-455 | an observed turn was dispatched, a rolled-back one was not, and anything else retires the worker |
| WorkerPool.WorkerPool.Release | project/verification/history-parallel-native-pool.py:457-475 | exactly an observed turn of a worker not retired is released; an unknown delivery retires it |
| WorkerPool.WorkerPool.Close | project/verification/history-parallel-native-pool.py:478-488 | closing revokes the budget and retires every worker |
| WorkerPool.WorkerPool.Ledgers | project/verification/history-parallel-native-pool.py:103-133 | at every point of every run: foreground dispatches, dispatches and admissions are ordered, background admissions leave the reserve, bytes stay in their limits |
| OutputGate.NothingAfterEnd | project/verification/rm-0032-standing-epoch-supervisor.py:523-596 | once a worker has closed, no accepted run holds another frame of it |
| OutputGate.CountsAreExact | project/verification/rm-0032-standing-epoch-supervisor.py:598-606 | the gate's counters are the frames and bytes accepted, within the caps |
| GateHistory.StepTold | project/verification/rm-0032-standing-epoch-supervisor.py:523-596 | what a worker may say, told by its earlier words alone: announced once and first, tools it listed, one turn at a time, an answer to the scope it told, a release of what it answered |
| GateHistory.RunIff | project/verification/rm-0032-standing-epoch-supervisor.py:598-652 | which lists of lines are accepted, told by the lines alone: the custody once, then its pool, each worker as its earlier words allow, then the end of the pool, then one result, within the caps |
| OutputGate.OutputGate.ParallelWorkerFrame | project/verification/rm-0032-standing-epoch-supervisor.py:523-596 | the branches on one worker's frame are exactly the transitions of its automaton |
| EpochClock.Budget.Remaining | project/verification/rm-0032-standing-epoch-supervisor.py:306-309 | a caller may wait as long as it asks for, but past neither end, and exactly while time is left |
| EpochClock.Budget.AdmitEpoch | project/verification/rm-0032-standing-epoch-supervisor.py:311-314 | the epoch is admitted once, in time, and before any close |
| EpochClock.Budget.Close | project/verification/rm-0032-standing-epoch-supervisor.py:316-319 | only the first close sets the time for cleaning up |
| EpochClock.WatchedIff | project/verification/rm-0032-standing-epoch-supervisor.py:299-319 | a run of events passes the clock if and only if each comes in its window: 120 seconds from the start, 900 from the admission, 35 from the first close or from the end of the window if that came first; the overall end never decides |
| EpochClock.NothingRenews | project/verification/rm-0032-standing-epoch-supervisor.py:300-300 | once closing has begun no event of any run moves the deadline or admits an epoch |
| OutputGate.TimeApart | project/verification/rm-0032-standing-epoch-supervisor.py:598-652 | whether a run is accepted is a question of its lines and a question of its times, and neither depends on the other |
| OutputGate.OutputGate.AcceptParallel | project/verification/rm-0032-standing-epoch-supervisor.py:598-652 | gate and clock, field by field, accept exactly the lines that the automaton and the clock allow, and become what these say; which lines begin the epoch and which its cleaning up |
| OutputGate.OutputGate.EndInput | project/verification/rm-0032-standing-epoch-supervisor.py:702-735 | a close by the host starts the cleaning up and changes nothing else |
| ParallelWorld.ToolOut | project/verification/history-parallel-native-session.py:228-251 | a tool call claimed by a job may be written at any later moment of any interleaving: the gate takes it and everyone still agrees |
| ParallelWorld.RefusalOut | project/verification/history-parallel-native-session.py:283-296 | the refusal of a turn is accepted |
| ParallelWorld.ScopeOut | project/verification/history-parallel-native-session.py:297-316 | the scope of an observed turn is accepted |
| ParallelWorld.ImageOut | project/verification/history-parallel-native-session.py:317-323 | each image frame is accepted |
| ParallelWorld.CompletedOut | project/verification/history-parallel-native-session.py:324-328 | the answer is accepted |
| ParallelWorld.ReleasedOut | project/verification/history-parallel-native-session.py:430-433 | the release is accepted although its slot is already gone |
| ParallelWorld.FramesBounded | project/verification/history-parallel-native-session.py:228-437 | sixteen requests, 128 calls and 24 image frames each make at most 570 frames before the end |
| ParallelWorld.CloseAccepted | project/verification/history-parallel-native-session.py:457-464 | the end is accepted if and only if every worker was announced, the workers' last frames still fit the cap on inner bytes, the pool's last line fits the cap on control lines and its receipt is normal |
| ParallelWorld.ResultFollows | project/verification/rm-0032-standing-epoch-supervisor.py:644-652 | after an accepted end the result line is accepted exactly when its control bytes still fit, and nothing after it |
| ParallelSession.Session.Put | project/verification/history-parallel-native-session.py:169-185 | a write goes out only before any stop and within the caps; what went out the gate accepted |
| ParallelSession.Session.AnnouncePool | project/verification/history-parallel-native-session.py:345-346 | the pool is announced once, first |
| ParallelSession.Session.AnnounceWorker | project/verification/history-parallel-native-session.py:347-349 | each worker is announced in order |
| ParallelSession.Session.Halt | project/verification/history-parallel-native-session.py:150-155 | the first cause of a stop stays |
| ParallelSession.Session.ClaimTool | project/verification/history-parallel-native-session.py:228-248 | exactly when a running job's call is admitted under the lock; otherwise the session stops |
| ParallelSession.Session.WriteTool | project/verification/history-parallel-native-session.py:249-251 | the claimed call goes out as claimed; after any stop, the end of the session included, nothing goes out |
| ParallelSession.Session.ReturnTool | project/verification/history-parallel-native-session.py:252-269 | the answer reaches its call only while nothing has stopped |
| ParallelSession.Session.FailTool | project/verification/history-parallel-native-session.py:270-275 | a failing callback stops the session |
| ParallelSession.Session.Collect | project/verification/history-parallel-native-session.py:277-314 | a finished job is published only if its result belongs to its request and scope |
| ParallelSession.Session.WriteRefusal | project/verification/history-parallel-native-session.py:291-296 | the refused turn is told to the host |
| ParallelSession.Session.WriteScope | project/verification/history-parallel-native-session.py:315-316 | the scope goes out before anything else of the result |
| ParallelSession.Session.WriteImage | project/verification/history-parallel-native-session.py:317-323 | image frames go out within 24 frames and 12 MiB |
| ParallelSession.Session.BeginRelease | project/verification/history-parallel-native-session.py:324-325 | a release is possible from before the answer goes out |
| ParallelSession.Session.WriteCompleted | project/verification/history-parallel-native-session.py:326-328 | the answer goes out |
| ParallelSession.Session.TakeTurn | project/verification/history-parallel-native-session.py:371-403 | exactly when a host turn starts a job: an idle worker, a new request, at most sixteen |
| ParallelSession.Session.AnswerTool | project/verification/history-parallel-native-session.py:408-421 | a tool result is taken exactly for the unanswered call of its slot |
| ParallelSession.Session.Release | project/verification/history-parallel-native-session.py:422-431 | exactly when a release is applied |
| ParallelSession.Session.WriteReleased | project/verification/history-parallel-native-session.py:432-435 | the release is confirmed; an unknown delivery ends the session |
| ParallelSession.Session.EverythingAccepted | project/verification/history-parallel-native-session.py:228-437 | whatever the interleaving, the gate has accepted every frame that is out, in order, at most 570 of them |
| ParallelSession.Session.EndAccepted | project/verification/history-parallel-native-session.py:457-464 | the whole output with its end is accepted if and only if every worker had been announced, the workers' last frames fit the gate's cap on inner bytes, the pool's last line fits its cap on control lines and the receipt is normal |
| ParallelSession.Session.ResultAccepted | project/verification/rm-0032-standing-epoch-supervisor.py:636-661 | the whole output, its end and the result line are accepted if and only if the end is and the control bytes still fit with the result; the gate then has its receipt and accepts nothing more |
| ParallelSession.Session.AcceptedInTime | project/verification/rm-0032-standing-epoch-supervisor.py:598-652 | whatever is out is accepted, with the gate's clock running, if and only if every line came in its window |
| ParallelSession.Session.EndAcceptedInTime | project/verification/history-parallel-native-session.py:457-464 | with the clock running the end is accepted if and only if its four conditions hold and every line came in its window |
| ParallelSession.Session.ResultAcceptedInTime | project/verification/rm-0032-standing-epoch-supervisor.py:636-661 | so it is with the clock running, if also every line came in its window |
| ParallelSession.Session.EndRefused | project/verification/history-parallel-native-session.py:347-349 | a session that stops before its last worker was announced ends in a refusal, whatever its last frames say |
| ParallelSession.StoppedWhileAnnouncing | project/verification/history-parallel-native-session.py:337-349 | a run of a pool of two that reaches this state: the epoch ends between the pool's announcement and its workers' |
| ParallelSession.Session.Close | project/verification/history-parallel-native-session.py:457-466 | the closing frames come last, one per worker and one for the pool, at most 579 frames in all, and stop at the first that cannot be written |
| ParallelSession.Session.NothingAfterwards | project/verification/history-parallel-native-session.py:228-466 | in every state after the end, whatever jobs still run, the wire holds what the gate accepted and then closing frames only |
| EpochSession.Session.RequestStop | project/verification/rm-0032-native-epoch-session.py:96-112 | the first cause of a stop stays, unless closing or cancelling itself fails |
| EpochSession.Session.Causes | project/verification/rm-0032-native-epoch-session.py:96-112 | the first cause is what the session closes with, unless the actor could not be closed, or native work not cancelled at a close |
| EpochSession.Session.Deliver | project/verification/rm-0032-native-epoch-session.py:139-172 | exactly when a message is queued, and the code of the stop otherwise: in time and within the caps, of the kind, and for a tool result of the very call, that the main thread takes next; a close never is |
| EpochSession.Session.Write | project/verification/rm-0032-native-epoch-session.py:126-137 | an uncertain write is charged and never retried |
| EpochSession.Session.Read | project/verification/rm-0032-native-epoch-session.py:174-180 | what the main thread takes is of the kind it handles, so the close test there is unreachable |
| EpochSession.Session.AcceptTurn | project/verification/rm-0032-native-epoch-session.py:252-267 | exactly when a turn is marked outstanding |
| EpochSession.Session.Hand | project/verification/rm-0032-native-epoch-session.py:268-269 | the turn reaches the actor unless its facts cannot be read |
| EpochSession.Session.CallTool | project/verification/rm-0032-native-epoch-session.py:189-200 | a call reference is new and there are at most 128 |
| EpochSession.Session.ReadTool | project/verification/rm-0032-native-epoch-session.py:202-207 | the result taken is that of this very call, so the test on its references is unreachable |
| EpochSession.Session.ReturnTool | project/verification/rm-0032-native-epoch-session.py:206-216 | a result of the wrong shape ends the session |
| EpochSession.Session.EndTurn | project/verification/rm-0032-native-epoch-session.py:271-305 | a refusal clears the outstanding turn only if no stop came first; an observed turn opens the export |
| EpochSession.Session.WriteExport | project/verification/rm-0032-native-epoch-session.py:306-313 | the export stays within its own bounds |
| EpochSession.Session.ApplyRelease | project/verification/rm-0032-native-epoch-session.py:241-247 | exactly a release of the pending turn that the actor accepts clears it |
| EpochSession.Session.WriteRefusal | project/verification/rm-0032-native-epoch-session.py:289-291 | the refusal is written and the epoch ends |
| EpochSession.Session.WriteReleased | project/verification/rm-0032-native-epoch-session.py:248-251 | an unknown delivery ends the epoch |
| EpochSession.Session.Finish | project/verification/rm-0032-native-epoch-session.py:318-329 | the closing facts carry exactly the outstanding mark |
| EpochSession.Session.Mailbox | project/verification/rm-0032-native-epoch-session.py:139-180 | in every interleaving the mailbox holds at most one message, never a close, always the one wanted next |
| EpochSession.Session.Unreleased | project/verification/rm-0032-native-epoch-session.py:264-332 | over the whole history of a session the closing facts report an unreleased turn if and only if some turn was marked and never afterwards released or proved not admitted; equivalently one handed to the actor, or the last one, lost between its mark and the hand-over |
| EpochSession.MarkedNeverHanded | project/verification/rm-0032-native-epoch-session.py:264-269 | a run in which a turn is marked, the actor's facts cannot be read, and the closing facts report it as unreleased |
| ToolBudget.LexedIsTame | project/verification/rm-0032-native-conversation.py:460-467 | text that is JSON holds no control character but tab, line feed and carriage return |
| JsonCost.EscapeAtMostDoubles | project/verification/rm-0032-native-conversation.py:562-565 | such text, escaped again, takes at most two bytes for each of its bytes |
| ToolBudget.ReplyFits | project/verification/rm-0032-native-conversation.py:562-565 | every accepted reply fits its reservation of twice the text cap and 512 bytes |
| ToolBudget.RefusalFits | project/verification/rm-0032-native-conversation.py:545-548 | every refusal fits the kilobyte kept for it |
| ToolBudget.BudgetKept | project/verification/rm-0032-native-conversation.py:540-566 | reply bytes and a kilobyte for every refusal left never exceed the turn cap, so the check on the reply never fires |
| ToolBudget.SettleFits | project/verification/rm-0032-native-conversation.py:558-566 | whatever a call is answered with, its reply fits its reservation and the turn, and the budget stays sound |
| ToolBudget.AnalysisBytesNeverBind | project/verification/rm-0032-native-conversation.py:540-544 | in analysis scope bytes never run out before the eight calls do |
| ToolBudget.FirstCommitFits | project/verification/rm-0032-native-conversation.py:540-544 | reads, of which there are at most seven, always leave room for a first commit |
| ToolBudget.BaseBytesBindLast | project/verification/rm-0032-native-conversation.py:540-541 | in the base scope bytes can refuse only the eighth call, and do exactly above a stated number of bytes |
| ToolBudget.SevenLargeReplies | project/verification/rm-0032-native-conversation.py:519-571 | a run of the engine in which seven calls get a JSON object of the full 65536 bytes and the eighth is refused for bytes |
| ToolBudget.IdWhen | project/verification/rm-0032-native-conversation.py:60-62 | a request is named by a string of 1 to 128 bytes, or by an integer of 64 bits |
| ToolBudget.WhatRefuses | project/verification/rm-0032-native-conversation.py:533-548 | which budget refuses a call, in numbers, and the reason given for it |
| ToolBudget.RefusalWords | project/verification/rm-0032-native-conversation.py:545-548 | a refusal, word for word |
| ToolBudget.ReplyWords | project/verification/rm-0032-native-conversation.py:549-566 | a reply, with its text quoted inside it |
| ToolBudget.Engine.Request | project/verification/rm-0032-native-conversation.py:519-571 | exactly when a request is answered, which budget decides a refusal (the limit on reads applies in every configured scope), and that no identifier is used twice; the final size check is unreachable |
| FrameCount.SetBytes | project/verification/rm-0032-native-conversation.py:478-504 | replacing a field changes the serialised length by exactly what its value changes |
| FrameCount.PayloadConserved | project/verification/rm-0032-native-conversation.py:481-504 | stripping a file text and a commit moves exactly their bytes, and two more for a commit |
| FrameCount.ItemConserved | project/verification/rm-0032-native-conversation.py:510-515 | so does stripping an item with its results |
| FrameCount.FrameConserved | project/verification/rm-0032-native-conversation.py:472-517 | ordinary plus lifecycle bytes of a frame are its encoded bytes plus exactly two per stripped commit |
| FrameCount.PayloadMoves | project/verification/rm-0032-native-conversation.py:478-504 | a registered text file of 1 to 65536 bytes gives up its text and nothing else, a registered commit of a configured engine its arguments, and no other call anything |
| FrameCount.ItemMoves | project/verification/rm-0032-native-conversation.py:505-515 | a finished call among the items also gives up its results, and is refused if they are not what results must be; no other item gives up anything |
| FrameCount.FrameMoves | project/verification/rm-0032-native-conversation.py:472-517 | which parts of which frames are looked at |
| FrameCount.TurnConserved | project/verification/rm-0032-native-conversation.py:472-517 | over any turn no byte escapes both counters, and all traffic is bounded by the sum of the two caps |
| FrameCount.Receipt.CountItems | project/verification/rm-0032-native-conversation.py:505-515 | the loop over items strips and counts what the recursive definition does |
| FrameCount.Receipt.Strip | project/verification/rm-0032-native-conversation.py:472-517 | stripping a frame step by step gives what the definition gives, and counts what it moves |
| FrameCount.Receipt.CountFrame | project/verification/rm-0032-native-conversation.py:472-517 | the saturating counters refuse exactly when the exact ones would pass a cap, given in numbers, and otherwise are exact |
| Png.OneReading | project/verification/rm-0032-native-image-collector.py:53-86 | a byte string has at most one reading as a PNG |
| Png.OpenMore | project/verification/rm-0032-native-image-collector.py:66-84 | the chunk-by-chunk rules are the rules of the whole list |
| Png.ReadChunk | project/verification/rm-0032-native-image-collector.py:61-65 | a chunk is read at an offset exactly when some well-named chunk with its checksum stands there |
| Png.Pass | project/verification/rm-0032-native-image-collector.py:66-84 | the loop's flags let a chunk pass exactly when the list may go on with it |
| Png.Judge | project/verification/rm-0032-native-image-collector.py:66-85 | one chunk either ends the only reading, or rules out every reading, or the list stays open |
| Png.Dimensions | project/verification/rm-0032-native-image-collector.py:53-86 | a byte string is accepted if and only if it is a signature and a full partition into chunks obeying the grammar, and the dimensions are its bytes 16 to 24, most significant first, each at most 8192; every input ends |
| Png.HeaderBytes | project/verification/rm-0032-native-image-collector.py:68-72 | exactly which thirteen bytes are a header, and which of its numbers stands where |
| Png.Declares | project/verification/rm-0032-native-image-collector.py:53-72 | of any byte string with a reading: where its sides stand, its depth and colour, and the bounds of all |
| PngLayout.ChunkStands | project/verification/rm-0032-native-image-collector.py:60-65 | where the four parts of each chunk stand |
| PngLayout.CompleteIff | project/verification/rm-0032-native-image-collector.py:66-86 | the grammar of the chunk list, told by the places of its chunks alone |
| ImageExport.ChunksPartition | project/verification/rm-0032-native-image-collector.py:257-265 | the chunks are the image bytes in order, all full but perhaps the last |
| ImageExport.ChunkWire | project/verification/rm-0032-native-image-collector.py:261-263 | no chunk frame reaches its own cap |
| ImageExport.ExportLines | project/verification/rm-0032-native-epoch-session.py:306-313 | what is counted for an export is the length of its printed lines |
| ImageExport.ExportFits | project/verification/rm-0032-native-image-collector.py:252-268 | every admitted image makes at most 24 frames and under 12 MiB of wire, so the sessions' export bounds never trip |
| ImageReceiver.Receiver.Open | packages/telegram-gateway/src/generated-image-receiver.ts:40-43 | a receiver is made exactly for a scope of three identifiers as the host takes them |
| ImageReceiver.Receiver.Accept | packages/telegram-gateway/src/generated-image-receiver.ts:55-116 | what one frame does to the receiver; any refusal closes it |
| ImageReceiver.Receiver.Complete | packages/telegram-gateway/src/generated-image-receiver.ts:99-110 | the last frame completes a reception exactly when count, length, digest and dimensions all agree |
| ImageReceiver.BeginsWhen | packages/telegram-gateway/src/generated-image-receiver.ts:64-81 | exactly which first frames are taken: an exporter's, its keys in any order, with every number in its bounds |
| ImageReceiver.ReceivedIff | packages/telegram-gateway/src/generated-image-receiver.ts:55-116 | what is received whole is exactly an export whose first frame told the truth, of an item the host takes: all its frames, in order, none twice, in any key order, each under its cap |
| ImageReceiver.ExportReceived | project/verification/rm-0032-native-image-collector.py:244-268 | every image a collector holds reaches the host whole, unless its item has a name longer than 256 units in JavaScript; then nothing of it does |
| ImageReceiver.TooWide | project/verification/rm-0032-native-image-collector.py:42-46 | such a name: 129 characters, which the collector takes and the host does not |
| ImageReceiver.HostTakes | packages/telegram-gateway/src/generated-image-receiver.ts:26-29 | what the host takes for an identifier is exactly what the collector takes and is at most 256 units long |
| ImageReceiver.NativeIdWhen | project/verification/rm-0032-native-image-collector.py:42-46 | what the collector takes: 1 to 256 characters, no control and no space; its cap of a kilobyte never decides |
| ImageReceiver.UnitsMore | packages/telegram-gateway/src/generated-image-receiver.ts:26-29 | a character is one unit, or two beyond the first 65536 |
| ImageReceiver.HexadecimalWhen | packages/telegram-gateway/src/generated-image-receiver.ts:71-72 | which characters a digest and a reference are made of |
| ImageReceiver.ChunkWords | project/verification/rm-0032-native-image-collector.py:257-263 | a chunk frame, word for word |
| ImageReceiver.EndWords | project/verification/rm-0032-native-image-collector.py:266-268 | the last frame, word for word |
| Dictionary.SameRecord | packages/telegram-gateway/src/generated-image-receiver.ts:19-25 | two dictionaries are the same exactly when they have the same keys, as many, and the same value under each |
| ImageExport.ImageEpoch.Turn | project/verification/rm-0032-native-image-epoch.py:196-235 | exactly when a turn is declined, refused for turns or time, or admitted with a new generation |
| ImageExport.ImageEpoch.EndTurn | project/verification/rm-0032-native-image-epoch.py:236-279 | a success that races a close becomes an unknown |
| ImageExport.ImageEpoch.ImageFrames | project/verification/rm-0032-native-image-epoch.py:314-318 | the lease is taken when the export is opened |
| ImageExport.ImageEpoch.Next | project/verification/rm-0032-native-image-epoch.py:321-328 | every frame an export yields is the next one of the one image it was opened on, and nothing after its turn is released or closed |
| ImageExport.ImageEpoch.ReleaseTurn | project/verification/rm-0032-native-image-epoch.py:281-291 | exactly when a release is accepted, and that it ends every lease |
| ImageExport.ImageEpoch.Close | project/verification/rm-0032-native-image-epoch.py:330-338 | close ends every lease and poisons a running turn |
| ImageExport.StaleYieldsNothing | project/verification/rm-0032-native-image-epoch.py:304-328 | an export whose turn has been released or closed yields nothing after any later turns, exports, releases and closes |
| ScopedRpc.Started | project/verification/rm-0032-native-epoch-managed-rpc.py:293-295 | a slot that has not started always leaves room under the cap on threads |
| ScopedRpc.Coordinator.BeginTurn | project/verification/rm-0032-native-epoch-managed-rpc.py:258-271 | exactly when a turn is admitted; a failed check and a turn not admitted, for turns or for time, retire; a cancelled or late call is refused and retires nothing |
| ScopedRpc.Coordinator.ThreadStart | project/verification/rm-0032-native-epoch-managed-rpc.py:288-313 | a slot's one thread is new among all slots; the cap on threads is implied |
| ScopedRpc.Coordinator.CheckStart | project/verification/rm-0032-native-epoch-managed-rpc.py:289-294 | exactly when a slot may ask for its thread; any other attempt fails |
| ScopedRpc.Coordinator.BindThread | project/verification/rm-0032-native-epoch-managed-rpc.py:303-309 | exactly a thread no other slot has is bound; a refusal retires |
| ScopedRpc.Coordinator.TurnStart | project/verification/rm-0032-native-epoch-managed-rpc.py:288-313 | the active turn is dispatched once on its slot's thread; the cap on turns is implied |
| ScopedRpc.Coordinator.Respond | project/verification/rm-0032-native-epoch-managed-rpc.py:329-338 | only the dispatched, uncompleted turn is answered, at most sixteen times; every failure retires |
| ScopedRpc.Coordinator.CompleteTurn | project/verification/rm-0032-native-epoch-managed-rpc.py:341-349 | the completed turn's numbers are the coordinator's |
| ScopedRpc.Coordinator.FinishNotAdmitted | project/verification/rm-0032-native-epoch-managed-rpc.py:351-358 | exactly when a rollback is accepted; it leaves no dispatch, and the test on turns is implied |
| ScopedRpc.Coordinator.ReleaseTurn | project/verification/rm-0032-native-epoch-managed-rpc.py:360-365 | exactly a completed turn is released; an unknown delivery retires |
| ScopedRpc.Coordinator.Bounds | project/verification/rm-0032-native-epoch-managed-rpc.py:235-370 | after any run turns dispatched are at most turns admitted, at most 16; slot turns sum to the total; started slots are the threads, and no two slots share one |
| IdleLedger.IdleValidator.Open | project/verification/rm-0032-native-epoch-idle.py:94-113 | too many answered requests, or one given twice, are refused |
| IdleLedger.IdleValidator.Count | project/verification/rm-0032-native-epoch-idle.py:151-153 | a frame is counted before anything else about it is looked at |
| IdleLedger.IdleValidator.Refuse | project/verification/rm-0032-native-epoch-idle.py:194-210 | exactly what becomes of a late request; at most four are refused, each once |
| IdleLedger.IdleValidator.Observe | project/verification/rm-0032-native-epoch-idle.py:146-192 | a frame is a notification, a request to refuse or an error that poisons; only confirmed requests are resolved |
| IdleLedger.IdleValidator.ConfirmResponse | project/verification/rm-0032-native-epoch-idle.py:212-221 | exactly a pending reply is confirmed |
| IdleLedger.IdleValidator.Ledger | project/verification/rm-0032-native-epoch-idle.py:109-221 | without poison pending and confirmed requests are apart, together all that were seen, and counted |
| IdleLedger.Registry.Start | project/verification/rm-0032-native-epoch-idle.py:265-267 | a thread is bound to one purpose, once |
| IdleLedger.Registry.Complete | project/verification/rm-0032-native-epoch-idle.py:269-273 | a completed turn gets a fresh validator while the totals go on |
| IdleLedger.Registry.Charge | project/verification/rm-0032-native-epoch-idle.py:294-301 | a validator's own budget never refuses: the aggregate one refuses first, whatever was replaced |
| IdleLedger.Registry.Target | project/verification/rm-0032-native-epoch-idle.py:275-291 | exactly when a frame is left to the active engine, and that any other goes to the common validator, to the one of the purpose its thread is bound to, or nowhere |
| IdleLedger.Registry.Route | project/verification/rm-0032-native-epoch-idle.py:275-301 | exactly when a frame is left alone or consumed, by which validator, with no other one touched; anything else poisons the registry |
| Relay.Identities | project/verification/rm-0032-standing-epoch-supervisor.py:150-151 | the host's identities follow from what the counters count |
| Relay.Relay.Accept | project/verification/rm-0032-model-egress-relay.py:246-254 | exactly when a connection is turned away, and under which reason |
| Relay.Relay.TurnAway | project/verification/rm-0032-standing-epoch-supervisor.py:203-206 | a connection turned away is counted once, under its reason |
| Relay.Relay.Establish | project/verification/rm-0032-model-egress-relay.py:267-272 | a connection counts as connected when its response is out |
| Relay.Relay.Copy | project/verification/rm-0032-standing-epoch-supervisor.py:174-183 | bytes are reserved before they are forwarded; a tunnel's own limit never decides |
| Relay.Relay.End | project/verification/rm-0032-model-egress-relay.py:273-279 | a connection ends under one counter, and a failure under one reason |
| Relay.Relay.Finished | project/verification/rm-0032-model-egress-relay.py:239-244 | a task that is gone leaves at most an internal-error count |
| Relay.Relay.NormalIff | project/verification/rm-0032-standing-epoch-supervisor.py:123-153 | for every interleaving of accepts, failures and cancellations the host accepts the counters if and only if no more than a million connections were turned away; forwarded bytes never exceed reserved ones |
| Relay.TurnsAwayTooMany | project/verification/rm-0032-model-egress-relay.py:246-254 | a run whose counters the host refuses: eight places taken, then a million and one connections turned away |
| Intake.FirstReasonDecides | packages/personal-agent/src/ingress.ts:14-14 | the failure kept is truthy exactly when some truthy rejection was preceded only by null or undefined ones |
| Intake.FalsyHides | packages/personal-agent/src/ingress.ts:14-14 | a handler that rejects with zero hides one that rejects later with an error |
| Intake.HiddenFailure | packages/personal-agent/src/ingress.ts:5-28 | a run that returns normally although its second handler rejected with an error, because the first rejected with zero |
| Intake.Intake.Open | packages/personal-agent/src/ingress.ts:8-9 | limits out of range are refused |
| Intake.Intake.Pump | packages/personal-agent/src/ingress.ts:11-13 | waiting work starts in order until every slot is busy or nothing waits |
| Intake.Intake.Launch | packages/personal-agent/src/ingress.ts:14-18 | the observation that has waited longest takes a slot |
| Intake.Intake.Arrive | packages/personal-agent/src/ingress.ts:19-25 | a control observation starts at once, an ordinary one waits its turn, a full backlog ends the feed |
| Intake.Intake.Settle | packages/personal-agent/src/ingress.ts:16-16 | a settled handler frees its slot, the first reason worth keeping is kept, and waiting work starts |
| Intake.Intake.Finish | packages/personal-agent/src/ingress.ts:26-27 | the call returns normally exactly when the feed ended well and the reason kept is not truthy |
| Intake.Scheduled | packages/personal-agent/src/ingress.ts:11-25 | in every state at most the configured number of ordinary handlers is active, ordinary work started in arrival order and once, and waiting work means every slot is busy |
| Intake.HandledOnce | packages/personal-agent/src/ingress.ts:5-28 | a normal return without abort means every observation yielded was started once and has settled |
| Intake.ReturnHides | packages/personal-agent/src/ingress.ts:26-27 | a normal return says only that no truthy rejection came first |

## Left out

- Process launch, descriptors, selectors, sockets, name lookup and clean-up: what they do at a step is an input.
- Clocks: a deadline is an input of each step (late or in time), or a real number given with the call.
- Hashes, random identifiers, base64 beyond its length and that decoding undoes it, and regular expressions on most identifiers: predicates and functions given to the model.
- JSON texts no printer makes (insignificant white space, floats, other escapes): the model's parser reads less than Python's; `PipeCodec.ParserIndependent` and `EpochWire.ParserIndependent` show that this decides nothing for either codec.
- Lone surrogates and floats in native frames: a tree's text is a sequence of scalar values and its numbers are integers.
- NativeRpc.NativeRpc.Admit: the checks of one frame's keys and types, and of which parser reads it, are a decoding function given to the connection.
- The misuse of one connection from two threads at once, which the transport's lock refuses, is not part of the model.
- The text of error codes is merged where the branches behave alike.
- ToolBudget.ReplyFits: JSON text is asked only for what its lexical structure implies, which every JSON text meets.
- ToolBudget.Engine.Request: the fingerprints that later tie a completed call to this request are not part of the model, nor are the observer's proofs about native events.
- FrameCount.Receipt.CountFrame: the image engine's own projection of frames before this count is not part of the model.
- ImageExport.ImageEpoch.EndTurn: the collector's evidence rules that decide whether there is an image are an input.
- ImageReceiver.Receiver.Accept: which of its eight codes a refusal carries, getters and symbols on a frame, and the registry's local names for what was received are not part of the model; the host's own check of the PNG container has the same rules as the collector's and is modelled once.
- OutputGate.OutputGate.AcceptParallel: the field checks of custody proofs and of settlement receipts, and the two further facts an observed receipt needs, are inputs; the clock is read at most twice for one line, when it arrives and when an epoch is admitted or a close begins; the older single-worker and scoped protocols of the same gate are not part of the model.
- ParallelSession.Session.constructor: a pool that is not configured as the session demands ends before anything is written, and is a precondition here.
- ParallelSession.Session.FinishJob: a job's callbacks have ended when the job ends, as the pool promises.
- ParallelSession.Session.Close: settlement of the pool and joining of the receiver are not part of the model.
- EpochSession.Session.CallTool: what the conversation engine does with a callback that failed is not part of the model; the session ends.
- The scoped actor built on the single-pump session adds shape checks on its frames and is not part of the model.
- WorkerPool.WorkerPool.constructor: children are launched and verified before the pool accepts work; start-up failures and settlement receipts are not part of the model.
- IdleLedger.IdleValidator.Observe: the field checks of each notification are one input.
- Relay.Relay.Copy: the two directions, the idle watch and the time limit of a tunnel are steps that may end it at any point.
- Intake.Intake.Launch: a handler is taken to return a promise; one that throws at once is not part of the model.
- Custody probes, configuration, bundling and the Windows launcher: long lists of field checks, or calls that cannot be seen.
