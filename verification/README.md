# Verification of the connection multiplexer, the async check cell and the error group

A Dafny model of the concurrent core of this repository, with machine-checked proofs. `dafny verify dfyconfig.toml`
checks all of it.

## What is modelled

**Pattern trees** (`PatternTree.dfy`, `TreeNormalForm.dfy`). `newTree`, `newNode` and `splitPrefix` are methods with the
loops of the source; `ptNode.match` is a recursive function. The tree's meaning is the set of words its paths spell. The
main results: the matcher accepts exactly those words (or, in prefix mode, the inputs that start with one); the builder
spells exactly its patterns; every built tree is in a normal form that is unique for its set of words, so order,
duplicates and map iteration do not matter; and a tree of k patterns has at most 2k - 1 nodes.

**Sniffing** (`Sniffing.dfy`). A connection is a finite script of events, each some bytes together with an error or nil,
and then a sticky EOF. Quantifying over scripts covers every chunking, every finite number of empty reads, and every
placement of errors. `bufferedReader` and `MuxConn` are classes; the effect of a read is the function `ReadStep`. No
read loses, repeats or reorders a byte, whatever the sessions and read sizes. Errors are another matter: a replayed read
returns the error that came with the last bytes taken even when replayed bytes remain (rpc/mux.go:664-666).
`ErrorTransparency` gives the exact class of sources for which a handler never sees an error too early, and
`NonEmptyReadTransparency` the class for handlers whose reads all ask for at least one byte.

**Matchers** (`Reading.dfy`, `Matchers.dfy`). `PrefixMatcher`, `HTTP1Fast`, `TLS`, `HTTP2`, the HTTP/2 header field
matchers and `Any` run over the reader, with `io.ReadFull` and the preface loop written out. For any source at all, a
tree matcher answers for the bytes up to the first error, and the preface matcher for the bytes that arrive before it;
the chunking never matters.

**Routing** (`Routing.dfy`). The loops of `serve` pick the first listener, in registration order, one of whose matchers
accepts the whole stream. This is proved for every table of matchers and every routable source, and `RoutingIsExact`
shows that routable sources are the only ones for which it holds.

**The multiplexer protocol** (`MuxProtocol.dfy`, `MuxSafety.dfy`, `MuxTheorems.dfy`). `Serve`, one `serve` task per
connection, channels of capacity 1024, and callers of `Accept` take atomic steps in any order. Sending on a closed
channel, closing one twice and a negative wait group are modelled as panics and proved unreachable. Each task carries
the reader of its connection, so the routing theorem composes with the interleavings into one end-to-end result,
`DeliveredToFirstMatch`; `HandlerGetsStream` carries it on to the bytes the handler reads. `ShutdownEnds` shows that
every shutdown finishes, with each accepted connection delivered once or closed once.

**While it serves** (`MuxEvents.dfy`, `MuxProgress.dfy`). What the steps of a run say about the state they lead to: when
`Serve` accepts and when it stops, how many connections it accepted and each listener handed out, and when `Accept`
reports `ErrListenerClosed`. And what can always happen: `MatchedCanBeDelivered` shows that, in every reachable state, a
matched connection can get to an `Accept` caller of its listener by steps of its own task and receives from that
listener.

**HTTP/2 header fields** (`Http2Fields.dfy`). The frame loop of `matchHTTP2Field` reads its frames from the reader: a
nine-byte header, and the payload whose length it announces (section 4.1 of RFC 7540). How header and payload are parsed
is an arbitrary function, and the HPACK decoder an arbitrary machine that takes one byte at a time. On a source that
reports no error early, the verdict is that of the frames in the stream, however the bytes arrive; so field matchers
take part in the routing theorems like all others. The verdict can depend on how a header block is cut into fragments;
it does not exactly when the first field of the wanted name matches if any does. `FieldOnTheWire` goes from the bytes
sent to the verdict by the decoder's own steps.

**The async check cell** (`AsyncCell.dfy`). One updater and any number of readers share a channel of capacity one. The
history variable records when each operation takes effect; the cell is a linearizable register and no reader ever waits
for a check. What the reads return is told by the steps of the run: the results that the check returned, in order, and
at least as new as every update completed before the call was made.

**The error group** (`ErrorGroup.dfy`). `Go`, `Wait` and the tasks step independently; `errOnce.Do` is entered, left,
and blocks its losers in between. What `Wait` returns is told by what the tasks' functions returned in the run.

**Health endpoints** (`HealthChecks.dfy`). Collection over maps in any iteration order, and the resulting status.

Where a comment in the source promises less or more than the code does, the model follows the code: in prefix mode a
tree built from no pattern accepts everything (rpc/mux.go:940-945).

## Model

| member | source | states |
|---|---|---|
| PatternTree.SplitPrefix | rpc/mux.go:976-1018 | the result is a common prefix of all entries, no common prefix is longer, and every entry is the prefix and its own rest, in order |
| PatternTree.GroupByFirst | rpc/mux.go:959-966 | the map holds, under each first byte, what follows it in the entries that start with it, in order, and nothing else; terminal exactly when some entry is empty |
| PatternTree.NewNode | rpc/mux.go:939-974 | from a non-empty list, a tree in normal form that spells exactly the list's patterns; from the empty list, the terminal node with an empty prefix; the recursion ends because total pattern length falls |
| PatternTree.NewTree | rpc/mux.go:900-911 | normal form, the words are the patterns, and `maxDepth` is one more than the longest pattern's length |
| PatternTree.TreeLanguage | rpc/mux.go:900-974 | a built tree accepts, in prefix mode, the inputs that start with a pattern (everything, if there is no pattern), and in exact mode the patterns |
| PatternTree.MatchExactIsWords | rpc/mux.go:1020-1050 | in exact mode the matcher accepts a string iff some path of the tree spells it, for any tree |
| PatternTree.MatchPrefixIsWords | rpc/mux.go:1020-1050 | in prefix mode the matcher accepts a string iff some path spells a prefix of it, for any tree |
| PatternTree.TruncationIsExact | rpc/mux.go:921-931 | reading only the first `maxDepth` bytes of a stream changes no verdict in either mode |
| TreeNormalForm.NormalFormIsUnique | rpc/mux.go:954-973 | trees in normal form that spell the same words are equal |
| TreeNormalForm.TreeDependsOnSetOnly | rpc/mux.go:900-974 | lists with the same patterns build the same tree, whatever their order, duplicates and map iteration |
| TreeNormalForm.TerminalsAreWords | rpc/mux.go:933-937 | a tree has as many terminal nodes as it spells words |
| TreeNormalForm.BuiltSize | rpc/mux.go:939-974 | k distinct patterns give k terminal nodes and at most 2k - 1 nodes |
| Sniffing.BufferedReader.Read | rpc/mux.go:662-678 | the new reader state, the bytes stored in the caller's slice, the rest of the array, and the error are those of `ReadStep` |
| Sniffing.BufferedReader.Reset | rpc/mux.go:680-684 | rewinds to the first byte kept, and what is pending is again everything from there on |
| Sniffing.MuxConn.StartSniffing | rpc/mux.go:252-255 | the session sees everything kept and then the rest of the source |
| Sniffing.MuxConn.DoneSniffing | rpc/mux.go:257-259 | the handler sees everything kept and then the rest of the source |
| Sniffing.ReadConserves | rpc/mux.go:662-678 | what was pending is what the read delivered and then what is pending now; while sniffing, kept bytes and the source's rest together stay the same |
| Sniffing.TransparentSniffing | rpc/mux.go:653-684 | for every source, all sessions and all read sizes: kept bytes are exactly those taken; every session's output is a prefix of the stream; handler output and what is still pending make up the whole stream |
| Sniffing.BufferIsDropped | rpc/mux.go:667-669 | once a handler has read past what was kept, nothing of it is kept any more, and it stays so |
| Sniffing.HandlerReadsAll | rpc/mux.go:662-684 | with a calm source, a handler that reads until it gets an error has read the whole stream |
| Sniffing.ErrorTransparency | rpc/mux.go:663-678 | no handler can get an error while bytes are pending iff the source reports errors only after its last byte |
| Sniffing.NonEmptyReadTransparency | rpc/mux.go:663-678 | the same for handlers whose reads ask for at least one byte: iff the source is calm, or has no bytes after an error and at most one byte in all |
| Sniffing.EarlyError | rpc/mux.go:663-666 | for every other source, sessions and reads after which the handler gets an error too early |
| Reading.FullReadIsPrefix | rpc/mux.go:921-931 | under any chunking a full read of k bytes gets the first k of those up to the first error |
| Matchers.PrefixMatcher | rpc/mux.go:690-698 | accepts a stream iff it starts with a listed pattern, or none is listed |
| Matchers.HTTP1Fast | rpc/mux.go:700-713 | accepts a stream iff it starts with OPTIONS, GET, HEAD, POST, PUT, DELETE, TRACE, CONNECT or a given method |
| Matchers.TLS | rpc/mux.go:715-729 | accepts a stream iff it starts with 22 and the two low bytes of a listed version (0x0300 to 0x0303 if none is), high byte first |
| Matchers.RecordStartIsBigEndian | rpc/mux.go:725-727 | for 16-bit versions: the stream starts with 22 and then two bytes that are the version in big-endian order |
| Reading.HasHTTP2Preface | rpc/mux.go:816-835 | verdict and reader are those of `PrefaceFrom`, for every source |
| Reading.ClientPrefaceText | rpc/mux.go:816-835 | the preface looked for is the text of section 3.5 of RFC 7540, character by character |
| Reading.PrefaceIsExact | rpc/mux.go:816-835 | true iff the preface starts the bytes that arrive before any error is reported, under any chunking |
| Reading.PrefaceConsumption | rpc/mux.go:820-826 | takes at most as many bytes as the preface has, and exactly the preface when it matches |
| Matchers.CallReads | rpc/mux.go:183-183 | every matcher's call is a run of reads in its session and nothing else |
| Matchers.CallIsExact | rpc/mux.go:686-893 | on every source, a tree answers for the bytes up to the first error and the preface for the bytes before it; a field matcher answers for the whole stream on a source without early errors, and never matches without a clean preface |
| Matchers.MatchTree | rpc/mux.go:921-931 | reads at most `maxDepth` bytes and matches what it got, for every source |
| Matchers.CallMatcher | rpc/mux.go:686-893 | the matcher objects compute `Call` on the reader they are given |
| Routing.RpcMux.MatchWithWriters | rpc/mux.go:131-138 | the new listener comes last, with its matchers in order |
| Routing.RpcMux.Serve | rpc/mux.go:174-197 | choice and reader are those of `Decide`, for every source |
| Routing.RpcMux.TryListener | rpc/mux.go:182-196 | the inner loop is `Try`: the matchers of one listener, each in its own session, up to the first that matches |
| Routing.SessionVerdict | rpc/mux.go:183-183 | a matcher in its own session answers for the whole stream and leaves all of it for the next one |
| Routing.RoutingFollowsStream | rpc/mux.go:181-199 | for every table and routable source, the choice is the first listener with an accepting matcher, or none; the handler reads the stream from byte zero |
| Routing.RoutingIsExact | rpc/mux.go:181-199 | a source is routed by its stream alone under every table iff it is routable |
| Routing.StoppedShort | rpc/mux.go:921-925 | a table that misroutes any source that delivers bytes after an error |
| Routing.ErrorReplayed | rpc/mux.go:663-666 | a table that misroutes any HTTP/2 connection whose last bytes come with an error |
| MuxSafety.StepKeepsOrder | rpc/mux.go:144-204 | every step keeps: no panic, the wait group counts the live tasks, channels are closed in order, once, after all tasks are gone, and drained ones are empty |
| MuxSafety.StepConserves | rpc/mux.go:144-233 | every step keeps each connection in exactly one place |
| MuxSafety.StepKeepsOrderOfChans | rpc/mux.go:131-138 | every step keeps queues within capacity and receives in the order of sends |
| MuxSafety.StepKeepsRouted | rpc/mux.go:174-204 | every step keeps every task's place and reader in agreement with what the loops of `serve`, run alone, decide for its connection; every send was on the listener they choose |
| MuxTheorems.EveryConnectionIsSomewhere | rpc/mux.go:144-233 | in every reachable state nothing has panicked, no queue holds more than 1024 connections, and every accepted connection is in one task's hands, in one queue, delivered once or closed once |
| MuxTheorems.NothingIsLeftBehind | rpc/mux.go:147-158 | once `Serve` has returned, every accepted connection was delivered once or closed once, and not both, even with `Accept` callers racing the drain |
| MuxTheorems.DeliveredAsDecided | rpc/mux.go:174-233 | for every source and interleaving, a delivered connection went where the loops of `serve` decide, with the reader they leave, once, and was never closed |
| MuxTheorems.DeliveredToFirstMatch | rpc/mux.go:174-233 | for a routable source and every interleaving, a delivered connection went to the first listener that accepts its stream, the only one the rule allows, and its reader yields the stream from byte zero |
| MuxTheorems.HandlerGetsStream | rpc/mux.go:174-259 | whatever the sizes of its reads, the handler of a delivered connection gets the bytes of the stream from the first on, in order; from a calm source it gets all of them before any error |
| MuxTheorems.UnmatchedIsClosed | rpc/mux.go:199-203 | a connection no listener accepts has been closed once and delivered to nobody by the time `Serve` returns |
| MuxTheorems.ClosedMeansUnmatched | rpc/mux.go:189-203 | until `donec` is closed, a connection the mux has closed is one no listener accepts |
| MuxTheorems.ListenerIsFifo | rpc/mux.go:227-233 | receives take a listener's connections in the order they were enqueued, and before the close only `Accept` receives |
| MuxTheorems.RefusedForever | rpc/mux.go:227-233 | once `Accept` can report `ErrListenerClosed`, the channel stays closed and empty in every later state |
| MuxTheorems.IntolerantReportStopsAccepting | rpc/mux.go:199-203 | when the error handler rejects an unmatched connection the root is closed, that is never undone, and no connection is accepted after it; that `Accept` on a closed root listener only ever fails is assumed (the contract of `net.Listener`) |
| MuxEvents.AcceptsUntilStopped | rpc/mux.go:160-170 | `Serve` accepts until the first accept error that is not tolerated and no longer; it can accept unless that or an intolerant report came before; as many tasks as accepts |
| MuxEvents.DeliveriesAreAccepts | rpc/mux.go:227-233 | a listener has handed out as many connections as its `Accept` callers made receives |
| MuxEvents.RefusedAtTheEnd | rpc/mux.go:147-158 | `Accept` reports `ErrListenerClosed` only after `Serve` stopped accepting and all tasks are gone |
| MuxEvents.ReturnedRefuses | rpc/mux.go:147-158 | after `Serve` has returned, `Accept` on every listener reports `ErrListenerClosed` and nothing else |
| MuxProgress.MatchedIsQueued | rpc/mux.go:181-191 | in every reachable state, with fewer than 1024 connections in the channel of the first listener that accepts a connection, its task's own steps alone put it there, last |
| MuxProgress.MatchedCanBeDelivered | rpc/mux.go:181-233 | in every reachable state and however full the channel, steps of the task and receives from that listener, and no others, hand the connection to an `Accept` caller, with its whole stream to read |
| MuxProgress.UnmatchedIsSeenOff | rpc/mux.go:199-203 | in every reachable state, the task's own steps close a connection that no listener accepts once, report it whatever the handler says, and end the task |
| MuxTheorems.ShutdownIsBounded | rpc/mux.go:147-158 | after `Serve` stops accepting, no run makes more moves than a rank that every move lowers |
| MuxTheorems.ShutdownNeverSticks | rpc/mux.go:147-194 | until `Serve` returns, it or a task can move, with every queue full and nobody accepting |
| MuxTheorems.ShutdownEnds | rpc/mux.go:147-158 | a run from the end of accepting makes at most as many moves as the rank; when neither `Serve` nor a task can move any more, `Serve` has returned and each accepted connection was delivered once or closed once |
| Http2Fields.MatchHTTP2Field | rpc/mux.go:846-893 | verdict, SETTINGS written and reader are those of `FieldCall`, for every source |
| Http2Fields.MatchFrames | rpc/mux.go:851-893 | the loop over the frames it reads, with a match recorded only together with a decision, is `FieldLoop`, for every source; it ends because each frame takes bytes |
| Http2Fields.ReadFrame | rpc/mux.go:862-865 | a full read of nine bytes and one of the length they announce; no frame if either falls short |
| Http2Fields.QuietFrame | rpc/mux.go:862-865 | on a source without early errors, under any chunking, the frame read is the first of the bytes to come, and the rest of the frames are those of the bytes left |
| Http2Fields.LoopIsFold | rpc/mux.go:851-893 | on such a source the loop gives the verdict and the writes of the fold over the stream's frames |
| Http2Fields.FieldCallIsExact | rpc/mux.go:846-893 | on such a source `matchHTTP2Field` answers for the whole stream: preface, and then the frames; on any source it never matches without a clean preface |
| Http2Fields.MatchedIff | rpc/mux.go:861-892 | there is a match iff some frame decides for one: none before it decides, the SETTINGS before it could all be answered, and its own block decodes to a matching field |
| Http2Fields.StreamLanguage | rpc/mux.go:784-814 | a field matcher accepts a stream iff it starts with the preface and goes on with frames one of which decides for a match |
| Http2Fields.BlockThroughTakes | rpc/mux.go:853-891 | told by the decoder's steps alone: a frame of a block decides if one of its bytes emits the wanted name, for a match iff one emits it with a value that matches; otherwise it ends the search or leaves the decoder where it got to |
| Http2Fields.BadByte | rpc/mux.go:877-885 | a byte the decoder cannot take means no match |
| Http2Fields.FramedIsRead | rpc/mux.go:862-865 | length in three bytes, six more of header, payload: what is sent so is read as that frame, and the rest as the rest |
| Http2Fields.FieldOnTheWire | rpc/mux.go:846-893 | the text of the preface and one HEADERS frame with all of a block is a match iff the decoder, taking the block, emits a field of that name with a value that matches |
| Http2Fields.PassesOver | rpc/mux.go:861-892 | frames that decide nothing advance the decoder and have each SETTINGS answered until a write fails |
| Http2Fields.FirstDecisiveFrame | rpc/mux.go:877-891 | the first frame that names the field or ends the headers decides by its own fields; one SETTINGS was written for each one before it that was no acknowledgement |
| Http2Fields.BrokenRun | rpc/mux.go:862-885 | a failed read, write or decode means no match |
| Http2Fields.FragmentationIndependence | rpc/mux.go:877-891 | the verdict on a block is the same for every cut into fragments iff its first field of that name matches whenever any does |
| Http2Fields.SingleOccurrence | rpc/mux.go:853-860 | when the name occurs at most once in a block, any two cuts give the same verdict |
| AsyncCell.StepKeepsInv | instrument/probe/health.go:54-90 | every step keeps one token, a legal register history in which no call reads twice, check results written once each and in order, and the right value in the channel or in a reader's hands |
| AsyncCell.ReadsAreLinearizable | instrument/probe/health.go:84-89 | every returned call took effect exactly once in the history, between its call and its return, and returned the latest completed put |
| AsyncCell.ChecksFollowTicks | instrument/probe/health.go:60-81 | over every run: the results on record are those the check returned, in order; one check at the start and one for each tick; updates, calls, returns and cancellation are those of the steps |
| AsyncCell.ReadsReturnCheckResults | instrument/probe/health.go:56-64 | over every run: a call returned what the check returned the n-th time, where n updates came before it, and for n = 0 `ErrNoData`, which is not nil |
| AsyncCell.RunSince | instrument/probe/health.go:84-89 | positions are in real time: a call made, or returned, after a state has its position at or after that state's |
| AsyncCell.ReadsAreFresh | instrument/probe/health.go:60-89 | a call made after some steps returns a result at least as new as every update completed in them |
| AsyncCell.LaterCallsSeeLater | instrument/probe/health.go:84-89 | a call made after another has returned never sees an older update |
| AsyncCell.ResultGetsStored | instrument/probe/health.go:60-64 | a result in the updater's hands can be stored in at most three steps, none of them a new call's |
| AsyncCell.NextCheckGetsStored | instrument/probe/health.go:70-81 | at the `select`, a tick can bring another check, and any result of it into the channel |
| AsyncCell.CancelledUpdaterCanStop | instrument/probe/health.go:73-81 | once cancelled the updater can stop, without a tick |
| AsyncCell.ExitLosesNothing | instrument/probe/health.go:73-81 | the updater stops only after a cancellation, with everything the check returned put into the channel in order |
| AsyncCell.ReadsNeverGoBack | instrument/probe/health.go:84-89 | calls that do not overlap see updates in order |
| AsyncCell.PutBackIsFresh | instrument/probe/health.go:86-87 | a put-back leaves the latest value in the channel |
| AsyncCell.PutsNeverBlock | instrument/probe/health.go:60-64 | channel and hands hold one value in all, so every send finds room |
| AsyncCell.CallsNeverStick | instrument/probe/health.go:84-89 | while a call is open, a receive, put or return is possible that lowers a rank, without waiting for check, ticker or context |
| AsyncCell.ExitFreezesValue | instrument/probe/health.go:73-81 | after the updater has gone, every later read returns the last value |
| ErrorGroup.StepKeepsInv | syncer/sync.go:29-66 | every step keeps the agreement of wait group, `errOnce`, stored error, cancellation and the tasks' places |
| ErrorGroup.WaitReturnsFirstError | syncer/sync.go:43-49 | `Wait` returns nil iff all tasks returned nil, and otherwise the error of the task that won `errOnce`; all tasks are gone and the context is cancelled |
| ErrorGroup.WaitReturnsWhatFReturned | syncer/sync.go:43-66 | over every run: when `Wait` is back the `f` of every `Go` has returned; it returned nil iff all of them did, and otherwise what the `f` of the first task to enter `errOnce` returned |
| ErrorGroup.CancelledForAReason | syncer/sync.go:43-63 | over every run: the context is cancelled by its parent, after an error, or when all are done, and never otherwise; the parent's cancellation takes effect at once, and an error's before the task's `Done` |
| ErrorGroup.DoneComesAfterError | syncer/sync.go:54-65 | a failing task's `Done` comes after the error is stored and the context cancelled |
| ErrorGroup.ErrorIsStable | syncer/sync.go:57-63 | the stored error, the winner and what `Wait` returned never change |
| ErrorGroup.TasksNeverStick | syncer/sync.go:54-65 | a task whose `f` has returned, or the one it waits for in `errOnce`, can move, whether or not anybody is in `Wait` |
| ErrorGroup.WaitComesBack | syncer/sync.go:43-49 | when every `f` has returned and neither `Wait` nor a task can move any more, `Wait` is back |
| ErrorGroup.CallersAreFree | syncer/sync.go:51-66 | `f` can return anything; `Go` can be called before `Wait` and while a task is there; the parent can cancel at any time |
| ErrorGroup.WaitNeverSticks | syncer/sync.go:43-66 | when every `f` has returned, `Wait` or a task can move, and each move lowers a rank |
| HealthChecks.BasicHandler.AddLivenessCheck | instrument/probe/health.go:198-202 | sets the liveness check of that name and nothing else |
| HealthChecks.BasicHandler.AddReadinessCheck | instrument/probe/health.go:204-208 | sets the readiness check of that name and nothing else |
| HealthChecks.BasicHandler.CollectChecks | instrument/probe/health.go:210-221 | results and status depend on the outcomes only, not on the order of iteration |
| HealthChecks.BasicHandler.Handle | instrument/probe/health.go:223-251 | 405 for other methods; 200 iff all checks of all groups pass, 503 otherwise; the body only when asked for |
| HealthChecks.BasicHandler.LiveEndpoint | instrument/probe/health.go:190-192 | 200 iff all liveness checks pass, and 503 otherwise; "OK" or the error's text for each |
| HealthChecks.BasicHandler.ReadyEndpoint | instrument/probe/health.go:194-196 | 200 iff all readiness and liveness checks pass, and 503 otherwise; the names are the union, and a liveness text replaces a readiness text of the same name |
| HealthChecks.MergedIsLastText | instrument/probe/health.go:229-233 | a name is reported iff some group has it, with the text of the last group that does |

## Left out

- Read timeouts: `readTimeout` is zero throughout; with a deadline, later matchers see less of the stream.
- Custom matchers: the matchers are `Any`, pattern trees, the HTTP/2 preface and the HTTP/2 header fields.
- Routing.RpcMux.MatchWithWriters: leaves out the listener's bounded channel, which the protocol model has, and the writer given to matchers; how many SETTINGS writes succeed is a parameter of each field matcher, and what goes out on the connection is not modelled.
- `HTTP1`, `HTTP1HeaderField` and their like: their verdicts rest on `bufio` and `net/http`, which are not part of this model.
- The inside of HPACK and of frame parsing: a decoder that takes one byte at a time and emits at most one field on each, and a function of header and payload that yields a frame or refuses it; both are arbitrary. In a routing table their states are coded as byte strings.
- Sources that deliver without end or block for ever: a script is finite, so every matcher's call returns.
- Handler reads as steps of the protocol: a delivered connection's reader is left as handed over, and what reading from it gives follows from that.
- MuxTheorems.IntolerantReportStopsAccepting: the root listener is not modelled; that it accepts nothing once closed is the guard of the accepting step.
- In-place form of the protocols: the multiplexer, the cell and the group are states and steps rather than objects, so that every interleaving can be quantified over; `wg.Add` and the `go` statement after it are one step.
- `handleErr`: whether an accept error or an unmatched connection is tolerated is a free choice of the step, which takes in every error handler and every `net.Error`.
- `bytes.Buffer`: a sequence that is appended to and dropped; running out of memory is not modelled.
- `Match` during `Serve`, and more than one call of `Serve`: all listeners are registered first and `Serve` is called once.
- `Go` after `Wait` has returned, and more than one caller of `Wait`.
- Readers calling the endpoints while checks are added, `metricsHandler`, the concrete checks, and JSON output.
- Connection tracking, metrics, tracing, gRPC client and server set-up, the generated protocol code and the examples: wiring around libraries.
