# A model of the VPL jail system

The VPL jail system runs the programs of students for an e-learning server. This project states and proves what its
hardest parts do: the protocol by which its processes share a prisoner UID, the WebSocket endpoint, the message codecs,
the deletion of a prisoner's files and the buffer for program output. `dafny verify dfyconfig.toml` checks all of it.

## Contents

**Tasks.** Many processes share one record for each prisoner UID and a directory of ticket files, under one global lock
and one lock for each UID.

- `TaskRecord`: the record, its tickets and the updates of the setters.
- `TicketProtocol`: each locked block as one atomic action on ticket files and control directories; when tickets stay live.
- `TicketHistory`: what whole histories keep. `TaskFields`: each field is what was written to it last.
- `TicketService`: the converse of liveness: which tickets of a task have their files, and that those are accepted.
- `LockedProtocol`: the same blocks as code of single file operations between acquiring and releasing locks; processes
  are interleaved freely, and an exception or early return releases what is held.
- `LockedBlocks`: the lock discipline of the code; the file operations of a block amount to the whole block.
- `LockedRefinement`: the invariant of the processes and shared files that every single step keeps.
- `LockedSafety`: every interleaving amounts to a sequence of atomic actions; no deadlock; every operation ends.
- `LockedRuns`: steps of one process alone, and a run that leaves a lost ticket behind. `LockedAlone`: what each operation
  comes to when it is not interrupted.
- `LockedEntries`, `LockedMonitors`: who gets in with a ticket and who becomes a monitor, counted from the steps of processes.
- `TaskLifecycle`, `TaskTimes`: `getState` over one tenancy of a UID, with the processes that act on it; the time each gets.
- `ProcessMonitor`: the object with its fields, over the shared files; each method is one of the actions above.

**WebSocket.** `Utf8`, `Base64`, `WebSocketFrames` and `WebSocketEndpoint`: the UTF-8 gate, Base64, framing after RFC 6455
and the endpoint with its receive buffer, reassembly and close handshake. `WebSocketControl`: what it answers and sends.

**Messages.** `RequestMessage` has the node tree. `JsonStrings`, `JsonParser`, `JsonReader`, `JsonRpc`, `JsonIds` and
`JsonAnswers` model JSON; `XmlText`, `XmlParser`, `XmlReader` and `XmlRpc` model XML. The `Parser` modules give the grammar as
functions and prove that parsing undoes printing; the `Reader` modules are the parsers as they run, on mutable nodes, proved
to compute those functions. `JsonLayout`, `XmlUnits` and `XmlRequests` are about text as other programs write it, with white
space, entities and references; `JsonAccepts` and `XmlAccepts` about what is refused. `Decimal` and `Bytes` hold numbers and
bit operations.

**Others.** `RemoveTree` is the ownership-driven deletion, `OutputBuffer` the head-and-tail buffer.

## Findings

- Ticket files can name a task that does not exist, or that does not list them: the tickets of a new task are written
  under a second acquisition of the global lock, and its control directory may have been removed (or removed and taken by
  another process) since it was selected. `IssueKeepsIff` and `LiveIffClear` give the exact condition, `LostDirectory` and
  `TakenDirectory` a history for each way to miss it.
- A ticket of an open task can lack its file: when tickets drawn for one task are equal, or when a used number is drawn again
  for another task and the first task is cleaned. `ServedIffGentle` is exact, `SameTicketTwice` and `ForeignTicketLost` are
  instances. Tickets are long random numbers, so neither is likely.
- `getState` can move back from retrieve to compiling when the program file appears after the compiler has ended, which
  an update of the files of a task allows; `LateProgram` says exactly when, `LateProgramGoesBack` gives such a tenancy.
- CLEANING once set can be lost otherwise than by removal of the directory: by issuing tickets into a directory that was
  removed and taken by another task in between (`CleaningLasts`, with an instance in `LostMark`).
- The branch of `receive()` that closes an oversized, incomplete buffer never runs (`WaitingIsShort`).
- The size test of `addOutput` converts to a 32-bit integer, so a piece of 2^31 bytes would be kept whole (`SizeBound`).
  The program never adds one: its pieces are single reads of at most 256 KiB, for which the bound holds
  (`BatchSizeBound`).
- A JSON-RPC response, into which the id is inserted as it is, can be read back with its id exactly when the id holds
  neither a quote nor a backslash (`ResponseReadsBackIff`).
- The JSON parser accepts a comma behind the last item or member, and anything behind the message (`AcceptsOnly`,
  `MessageAccepted`).
- The comment above `sanitizeUTF8` speaks of U+FFFD; the code writes question marks, and so does the model.
- Text cleaned for XML need not be valid UTF-8: overlong forms, surrogates and values above U+10FFFF are kept, though the
  WebSocket refuses them. `CleanIsValidIff` says exactly when it is valid, `OverlongKept` gives an instance.

## Model

| member | source | states |
|---|---|---|
| TaskRecord.UpdatedKeepsTickets | src/processMonitor.cpp:638-661 | no setter touches the four tickets of a record or its cleaning mark |
| TicketProtocol.NewUidHasNoTicket | src/processMonitor.cpp:220-275 | while all tickets are live, a UID without control directory (the only kind that can be selected) is named by no ticket file |
| TicketProtocol.IssueKeepsIff | src/processMonitor.cpp:363-391 | writing the ticket files and then the configuration keeps every ticket live exactly when the control directory is there and no ticket file names the UID |
| TicketProtocol.OthersKeepLive | src/processMonitor.cpp:453-486 | every other locked block (ticket use, setters, passthrough ticket, marking, removal, selection) keeps every ticket live, in its role |
| TicketProtocol.LiveIffClear | src/processMonitor.cpp:357-446 | over every history: all tickets are live at every moment if and only if all tickets were issued in such clear states |
| TicketProtocol.CarefulRunsStayLive | src/processMonitor.cpp:1105-1138 | as long as no control directory is removed between its selection and the issue of its tickets, in every interleaving each ticket file names a task whose configuration exists, lists it and is not marked CLEANING |
| TicketProtocol.CarefulState | src/processMonitor.cpp:220-275 | in such histories every task being created has a control directory of its own, without configuration |
| TicketProtocol.LostDirectory | src/processMonitor.cpp:363-391 | a history in which the directory is removed in between and the tickets of a task that does not exist stay behind: the files are written before the configuration fails |
| TicketProtocol.TakenDirectory | src/processMonitor.cpp:363-391 | a history in which the UID is selected by a second process in between, whose tickets end up unlisted |
| TicketHistory.AcceptedAtMostOnce | src/processMonitor.cpp:461-475 | in every history a monitor or execution ticket is accepted at most as often as it was issued |
| TicketHistory.OneMonitor | src/processMonitor.cpp:694-704 | in every history at most one process becomes the monitor of a task, and it is the one the record names |
| TicketHistory.CleaningLasts | src/processMonitor.cpp:888-911 | in every history CLEANING once set stays set exactly as long as the control directory is not removed and no tickets are issued into it; until then the record does not change and no setter or passthrough ticket goes through |
| TicketHistory.LostMark | src/processMonitor.cpp:363-391 | a history in which a mark is lost without removal: the issue of another process overwrites the marked configuration |
| TicketHistory.CarefulCleaningLasts | src/processMonitor.cpp:1105-1138 | where no control directory is removed during creation the mark lasts exactly until the control directory is removed |
| TicketHistory.TaskIsItsOwnHistory | src/processMonitor.cpp:280-335 | the record of a task is what its own blocks, one at a time, make of it, whatever other tasks do meanwhile |
| TaskFields.FieldsAreLastWritten | src/processMonitor.cpp:638-719 | every field of a record is the value written to it last since its tickets were issued, or what it was created with: no update is lost and none reaches another field |
| TicketService.ServedIffGentle | src/processMonitor.cpp:363-391 | where no control directory is removed during creation: at every moment every open task has the files of its admin and passthrough tickets, and those of its monitor and execution tickets exactly until they are used, if and only if the tickets drawn for a task always differ and no cleaning takes a file of another task |
| TicketService.FirstPresentation | src/processMonitor.cpp:453-486 | in such histories every ticket of an open task is accepted when it is presented first, the admin and passthrough tickets always |
| TicketService.SameTicketTwice | src/processMonitor.cpp:363-372 | a history in which two tickets drawn for a task are equal and the admin file is overwritten |
| TicketService.ForeignTicketLost | src/processMonitor.cpp:888-911 | a history in which a used number is drawn again for another task and cleaning the first task removes the ticket of the second |
| LockedBlocks.CodeOrdered | src/lock.h:34-83 | every operation takes the global lock before a task lock, never two task locks, never one it holds, and works on tickets and configurations only under the locks they need |
| LockedBlocks.EffectsMakeTheBlock | src/processMonitor.cpp:895-911 | the file operations of a locked block, one after another, amount to the whole block |
| LockedBlocks.FoldCommutes | src/processMonitor.cpp:712-719 | a configuration written under its task lock commutes with the file operations of an unfinished block on another task |
| LockedBlocks.PlanStable | src/processMonitor.cpp:638-661 | completing a block leaves a block that another process has begun under other locks possible, with the same file operations |
| LockedRefinement.StepKeepsSound | src/lock.h:34-74 | every single instruction or file operation of any process keeps the invariant of the whole system |
| LockedSafety.Serializable | src/processMonitor.cpp:280-335 | in every reachable state of every interleaving of file operations, with the global lock free the shared files are the result of whole blocks done one at a time in lock order |
| LockedSafety.NoLostUpdate | src/processMonitor.cpp:638-718 | what a setter is about to write is its update applied to the record as it is at that moment; the record is not marked |
| LockedSafety.TicketsLiveWhenUnlocked | src/processMonitor.cpp:357-392 | in every run of file operations: all tickets are live throughout the completed blocks if and only if all were issued in clear states; then, whenever the global lock is free, every ticket file names an open task that lists it |
| LockedRuns.LostDirectoryRun | src/processMonitor.cpp:363-391 | a run of file operations after which, with all locks free, a ticket file names a task that does not exist |
| LockedSafety.CleaningLastsInRuns | src/processMonitor.cpp:888-911 | between two moments of a run with the global lock free a marked task keeps its record, unless its directory was removed or tickets were issued into it |
| LockedSafety.AcceptedOnceInRuns | src/processMonitor.cpp:461-475 | in every interleaving of file operations each issued one-time ticket is accepted at most once |
| LockedEntries.EnteredAtMostOnce | src/processMonitor.cpp:461-482 | in every interleaving, counted from the steps of the processes: at most as many operations that present a one-time ticket get behind the check of its task as times the ticket was issued |
| LockedAlone.OperationRuns | src/lock.h:34-83 | an operation that is not interrupted and finds its locks free does what its code says to the end, or to the first thing that fails, and has released its locks |
| LockedAlone.EnterRuns | src/processMonitor.cpp:453-486 | presenting a ticket without interruption fails exactly when the ticket is not accepted; its blocks are the removal of a one-time ticket and the registration of a monitor |
| LockedAlone.SingleBlocks | src/processMonitor.cpp:638-719 | setters, passthrough ticket and zombie cleaning come to their one block, a look to none |
| LockedAlone.CleanOutcome | src/processMonitor.cpp:883-957 | cleaning comes to marking, then removal if the processes could be stopped |
| LockedAlone.GetStateOutcome | src/processMonitor.cpp:577-602 | getState comes to a look at the configuration, and the cleaning of a task that is out of time |
| LockedAlone.CreateOutcome | src/processMonitor.cpp:220-391 | creating a task comes to the selection of its UID and then the issue of its tickets; directories made for other UIDs are given back |
| LockedMonitors.MonitorsByTicket | src/processMonitor.cpp:461-485 | in every interleaving in which tickets stay live whoever becomes a monitor has used the monitor ticket of the task |
| LockedMonitors.GoodTicketGetsIn | src/processMonitor.cpp:453-486 | in every reachable state with the locks free, under the conditions of ServedIffGentle, a process that presents a lasting or unused ticket of an open task and is not interrupted gets in |
| LockedSafety.OneMonitorInRuns | src/processMonitor.cpp:694-704 | in every interleaving of file operations at most one process becomes the monitor of a task |
| LockedSafety.NoDeadlock | src/lock.h:54-74 | in every reachable state with unfinished work some process can step |
| LockedSafety.NoSelfDeadlock | src/processMonitor.cpp:580-602 | no process asks for a lock it holds, for the global lock under a task lock, or for a second task lock, including getState calling cleanTask and a ticket leading to monitorize |
| LockedSafety.StepsAreBounded | src/processMonitor.cpp:883-957 | the steps of a process are bounded by the operations it began, so all of them come to an end |
| TaskLifecycle.AnswerMeans | src/processMonitor.cpp:577-633 | getState answers the state of files and processes, except for a task past its limits or not monitored in time, which is stopped and cleaned |
| TaskLifecycle.EventGoesForward | src/jail.cpp:301-341 | an event of the processes of a task (setters, outputs, program file, executor, death, time, cleaning, removal) takes its state back exactly when it is the program file appearing after a compilation that made none |
| TaskLifecycle.AnswersNeverGoBack | src/processMonitor.cpp:577-633 | within one tenancy of a UID successive answers of getState never move back in the order starting, compiling, beforeRunning, running, retrieve, stopped, unless the program file appears in between after a compilation that made none |
| TaskLifecycle.LateProgram | src/processMonitor.cpp:616-624 | the answers of getState before and after a change of the program file move back exactly when it appears after a non-interactive compilation that made none and the task is not out of time |
| TaskLifecycle.LateProgramGoesBack | src/processMonitor.cpp:616-624 | a tenancy in which getState answers retrieve and then compiling |
| TaskTimes.ProgramGetsItsTime | src/processMonitor.cpp:590-632 | from the registration of the program on, an open task is answered running exactly as long as its process lives, the limit described last plus 30 seconds have not passed since, and a monitor it should have comes within 10 seconds |
| TaskTimes.CompilationGetsItsTime | src/processMonitor.cpp:590-606 | from the registration of the compilation on, a task whose compiler lives and that has no runner is answered compiling for its limit plus 30 seconds, then stopped and cleaned |
| ProcessMonitor.ControlFiles.RemoveTickets | src/processMonitor.cpp:867-872 | removes exactly the named ticket files |
| ProcessMonitor.ControlFiles.CleanPrisonerFilesLocked | src/processMonitor.cpp:1105-1138 | marks the configuration, removes its tickets and the control directory (the removal action), the home directory at log levels up to debug, and what the user has in /tmp |
| ProcessMonitor.ProcessMonitor.ReadInfo | src/processMonitor.cpp:310-335 | loads all fields from the configuration; fails when it is missing or marked, after loading a marked one |
| ProcessMonitor.ProcessMonitor.WriteInfo | src/processMonitor.cpp:280-305 | writes all fields into the configuration; fails without control directory |
| ProcessMonitor.ProcessMonitor.SetRunner | src/processMonitor.cpp:638-647 | the SetRunner action with the pid of this process and the time, unless it holds a monitor ticket |
| ProcessMonitor.ProcessMonitor.SetCompiler | src/processMonitor.cpp:652-661 | the SetCompiler action, unless it holds a monitor ticket |
| ProcessMonitor.ProcessMonitor.Monitorize | src/processMonitor.cpp:694-704 | the Monitorize action for a monitor ticket; fails when there is a monitor |
| ProcessMonitor.ProcessMonitor.SetExtraInfo | src/processMonitor.cpp:712-719 | the SetExtraInfo action |
| ProcessMonitor.ProcessMonitor.GetLocalWebServer | src/processMonitor.cpp:844-853 | the address on record, else that of the file of the task, which is then recorded |
| ProcessMonitor.ProcessMonitor.GetHttpPassthroughTicket | src/processMonitor.cpp:821-839 | the ticket on record, else the first drawn that is new, issued by the passthrough action |
| ProcessMonitor.ProcessMonitor.MarkForCleaning | src/processMonitor.cpp:894-912 | the marking action, with the tickets of the record and of this object removed |
| ProcessMonitor.ProcessMonitor.CleanTask | src/processMonitor.cpp:883-957 | marking, then removal if all processes could be stopped; nothing without a UID |
| ProcessMonitor.ProcessMonitor.GetState | src/processMonitor.cpp:577-633 | the answer of TaskLifecycle.GetState for the files and processes as they are, and the cleaning it causes |
| ProcessMonitor.ProcessMonitor.SetCompilationOutput | src/processMonitor.cpp:789-798 | the compilation output is kept once, for an open task |
| ProcessMonitor.ProcessMonitor.SetExecutionOutput | src/processMonitor.cpp:803-817 | the execution output is kept once, beside a compilation output |
| ProcessMonitor.ProcessMonitor.SelectPrisoner | src/processMonitor.cpp:220-275 | selects the first candidate that has neither control nor home directory, as the selection action; exactly the candidates with only a home directory lose it and their entries in /tmp; otherwise it fails for a stated reason and the control files stay as they were |
| ProcessMonitor.ProcessMonitor.CandidatesAreTheRange | src/processMonitor.cpp:238-239 | whatever the try, the candidates are exactly the UIDs of the configured range, each for some random number |
| ProcessMonitor.ProcessMonitor.IssueTickets | src/processMonitor.cpp:363-391 | the issue action with the first tickets drawn that are all new; fails when the control directory is gone |
| ProcessMonitor.ProcessMonitor.Enter | src/processMonitor.cpp:453-492 | what presenting a ticket does to the files, and whether it is accepted |
| ProcessMonitor.LiveTicketEnters | src/processMonitor.cpp:453-492 | while all tickets are live a ticket is accepted exactly when its file is there (a monitor ticket only without a monitor), a one-time ticket never again, and all tickets stay live |
| Utf8.IsValidUtf8 | src/websocket.cpp:28-55 | decides validity |
| Utf8.SanitizeUtf8 | src/websocket.cpp:62-103 | computes the sanitised text |
| Utf8.ValidIffEncoding | src/websocket.cpp:28-55 | a text is accepted exactly when it is the concatenation of the UTF-8 encodings of some Unicode scalar values |
| Utf8.EncodingUnique | src/websocket.cpp:28-55 | those scalar values are unique |
| Utf8.SanitizedProperties | src/websocket.cpp:62-103 | the sanitised text is valid, of the same length, each byte the original or a question mark |
| Utf8.SanitizedFixpoints | src/websocket.cpp:62-103 | it equals the text exactly for valid ones, and sanitising twice is sanitising once |
| Utf8.SanitizedDetermined | src/websocket.cpp:62-103 | a character at the front is kept, and where none is one byte becomes a question mark, which determines the result for every string |
| WebSocketFrames.FrameSizeOf | src/websocket.cpp:138-186 | -1, -2 or the size, and its three parts |
| WebSocketFrames.DecisionStable | src/websocket.cpp:138-186 | a decision of frameSize never changes when bytes are appended |
| WebSocketFrames.ProperPrefixNeedsMore | src/websocket.cpp:138-186 | frameSize is -1 on every proper prefix of a well-formed frame |
| WebSocketFrames.WaitingIsShort | src/websocket.cpp:278-287 | an undecided buffer is shorter than the limit plus 14, so the oversize branch of receive() never runs |
| WebSocketFrames.DecodeFrameOf | src/websocket.cpp:197-237 | payload, FIN, type and leftover bytes of the front frame |
| WebSocketFrames.EncodeFrameOf | src/websocket.cpp:239-268 | the frame of a payload, with its length field |
| WebSocketFrames.ClientRoundTrip | src/websocket.cpp:197-237 | a masked client frame of any permitted kind followed by any bytes decodes to its payload and leaves exactly those bytes (RFC 6455, sections 5.2 and 5.3) |
| WebSocketFrames.StreamRoundTrip | src/websocket.cpp:239-268 | any concatenation of in-limit server frames is cut back into the same opcodes and payloads |
| WebSocketEndpoint.WebSocket.Receive | src/websocket.cpp:278-346 | one call of receive() on the whole state of the endpoint |
| WebSocketEndpoint.WebSocket.Send | src/websocket.cpp:348-353 | frames the payload, sanitised when it is text that is not valid UTF-8 |
| WebSocketEndpoint.WebSocket.Close | src/websocket.cpp:355-368 | one close frame with its status, unless one was sent |
| WebSocketEndpoint.WebSocket.CloseAndWait | src/websocket.cpp:370-383 | a close frame, then receive() until the peer closes or the polls are used up, then the socket is closed |
| WebSocketEndpoint.CuttingIsIrrelevant | src/websocket.cpp:278-346 | two ways of cutting the same bytes into socket reads give the same outputs, the same sent frames, the same state and leftover bytes |
| WebSocketEndpoint.DeliverIsDrain | src/websocket.cpp:278-346 | delivering in pieces is delivering at once and draining |
| WebSocketEndpoint.RunKeepsInvariant | src/websocket.cpp:278-383 | in every run outside base64 mode the reassembly buffer stays within the frame limit, a waiting buffer below limit plus 14, at most one close frame is sent, and every text frame sent has a valid UTF-8 payload |
| WebSocketEndpoint.TextIsValid | src/websocket.cpp:297-304 | every returned text message is valid UTF-8, and so is every text payload that is framed outside base64 mode |
| WebSocketEndpoint.MessageReassembled | src/websocket.cpp:291-323 | a fragmented message without control frames in between is judged as the concatenation of its pieces: returned, or closed with 1007 when it is text that is not UTF-8 |
| WebSocketControl.ControlStream | src/websocket.cpp:322-335 | over any stream of control frames, in both modes: each ping is answered by a pong with its data, in order, a close frame by status 1000 unless one was sent; the bytes behind are next |
| WebSocketControl.CloseAnswered | src/websocket.cpp:322-327 | a masked close frame sends status 1000 and "Bye", unless a close frame was sent, and closes the socket |
| WebSocketControl.ErrorCloses | src/websocket.cpp:336-341 | a refused size, a missing mask, a reserved bit or an unknown type sends status 1002 and closes the socket |
| WebSocketControl.RefusedIff | src/websocket.cpp:176-180 | an announced size is refused exactly when it is above 20 MiB, or a control frame is fragmented or above 125 bytes, or a close payload has one byte |
| WebSocketControl.LongFormRefused | src/websocket.cpp:154-175 | a size not written in its shortest form, or with its top bit set, is refused |
| WebSocketControl.LongMessageCloses | src/websocket.cpp:312-317 | a fragment that makes a message longer than 20 MiB sends status 1002 and closes the socket |
| WebSocketControl.InvalidTextCloses | src/websocket.cpp:297-309 | a text message that is not UTF-8 sends status 1007 and closes the socket |
| WebSocketControl.CloseSends | src/websocket.cpp:355-368 | closing sends an empty payload without a reason, status 1002 for "Error", status 1000 for others |
| WebSocketControl.SentIsRead | src/websocket.cpp:348-353 | what is sent is read by the peer with its type and data, text made valid; in base64 mode binary data arrives as text that decodes to it |
| WebSocketControl.Base64Received | src/websocket.cpp:230-235 | in base64 mode a text frame is returned decoded, as binary data, and anything that is not Base64 raises |
| WebSocketControl.Base64DataArrives | src/websocket.cpp:230-235 | binary data sent by a client in base64 mode arrives as it was |
| Base64.SetData | src/util.h:111-126 | one character sets its six bits in place, across two bytes when needed |
| Base64.DecodeSize | src/util.h:98-109 | the decoded size from the counts of symbols and padding |
| Base64.Decode | src/util.h:128-142 | the bit-offset writer computes the decoded bytes |
| Base64.Encode | src/util.h:144-165 | the encoding of section 4 of RFC 4648 |
| Base64.RoundTrip | src/util.h:128-165 | decoding undoes encoding for every byte string |
| Base64.JunkIgnored | src/util.h:98-142 | inserting characters that are neither symbols nor padding changes nothing |
| JsonStrings.EncodeJsonString | src/json.h:222-256 | the escaped text |
| JsonStrings.DecodeHexaUnicodeToUtf8 | src/json.h:262-311 | the bytes of a \u escape and the offset behind it |
| JsonStrings.DecodeJsonString | src/json.h:313-356 | the decoded text, or the error of a bad escape |
| JsonStrings.StringRoundTrip | src/json.h:222-356 | decoding undoes encoding for every byte string, wherever it stands in the message |
| JsonStrings.DecodesMeaning | src/json.h:313-356 | any well-formed string text decodes to what its units mean |
| JsonStrings.EscapesMeanUtf8 | src/json.h:262-356 | any spelling of Unicode scalar values as \u escapes, with surrogate pairs above U+FFFF (section 7 of RFC 8259), decodes to their UTF-8 encoding (section 3 of RFC 3629) |
| JsonStrings.EscapeTable | src/json.h:313-356 | the two-character escapes of section 7 of RFC 8259 stand for their characters, no other letter is accepted |
| JsonStrings.HexTable | src/json.h:263-311 | hexadecimal digits count in their order, in either case |
| JsonStrings.EncodedIsStandard | src/json.h:222-261 | what is written between quotes is a string of section 7 of RFC 8259: no bare quote, backslash or control character |
| JsonReader.Json.IgnoreWhiteSpaces | src/json.h:62-74 | the next offset that is not white space |
| JsonReader.Json.ProcessStringNode | src/json.h:136-155 | completes a string node and returns the offset behind it |
| JsonReader.Json.ProcessNode | src/json.h:157-197 | completes a node of any kind as the grammar says |
| JsonReader.Json.ProcessObjectNode | src/json.h:76-110 | completes an object with its members tagged by their decoded names |
| JsonReader.Json.ProcessArrayNode | src/json.h:112-134 | completes an array with its items |
| JsonReader.Json.ProcessRawData | src/json.h:202-208 | the root node |
| JsonParser.ParsePrinted | src/json.h:76-197 | wherever a compactly printed value stands, the parser returns its tree and exactly the end offset |
| JsonLayout.ParseWritten | src/json.h:53-197 | wherever a value is written with any white space between its tokens and any spelling of its strings, the parser returns a tree that stands for it and the offset behind it; a number is read up to its delimiter |
| JsonLayout.RootStandsFor | src/json.h:202-208 | a message with white space around and inside it is read as the value it is meant to be |
| JsonLayout.LeafMeans | src/json.h:25-45 | strings are read as what they mean, integers with white space behind them exactly when within 32 bits |
| JsonLayout.MemberFound | src/jsonrpc.h:138-144 | each member of a parsed object is found by what its name means |
| JsonAccepts.AcceptsOnly | src/json.h:76-197 | whatever the parser reads as a value is text of the grammar given, in which a list may end with a comma |
| JsonAccepts.MessageAccepted | src/json.h:202-208 | a message that is not refused starts with such text; what follows is not looked at |
| JsonRpc.RootShows | src/json.h:76-208 | parsing a printed value gives a tree of the same shape: tags are the keys, leaf spans the printed leaves, string leaves decode to the originals |
| JsonIds.ResponseReadsBackIff | src/jsonrpc.h:49-55 | for every result and id: the response parses, its result shows the value and its id member decodes to the id if and only if the id holds neither a quote nor a backslash |
| JsonRpc.WraperPrintsEnvelope | src/jsonrpc.h:49-61 | the response text is the canonical printing of its envelope exactly when the id needs no escape in the sense of the writer |
| JsonRpc.JsonRpc.RequestResponse | src/jsonrpc.h:78-87 | the response with the tickets and ports |
| JsonRpc.JsonRpc.GetResultResponse | src/jsonrpc.h:100-107 | the response with outputs and flags |
| JsonIds.ResponseRecovered | src/jsonrpc.h:138-144 | parsing a response whose id holds neither a quote nor a backslash recovers the id, and every member of the result by name |
| JsonAnswers.RequestAnswered | src/jsonrpc.h:78-87 | the answer to a request says each ticket and port under its name |
| JsonAnswers.ResultAnswered | src/jsonrpc.h:100-106 | the answer about a result says both outputs, and the flags as 1 or 0, under their names |
| JsonRpc.LeafRead | src/requestmessage.h:77-84 | strings are read as they were, integers exactly when within 32 bits |
| RequestMessage.TreeNode.Child | src/requestmessage.h:129-136 | the first child with a tag |
| RequestMessage.TreeNode.Members | src/jsonrpc.h:138-144 | the children by tag, later ones replacing earlier ones |
| RequestMessage.TreeNode.AddChild | src/requestmessage.h:116-118 | appends the tree of the child |
| RequestMessage.DistinctMembers | src/jsonrpc.h:138-144 | with distinct tags every child is found under its tag |
| RequestMessage.IntRoundTrip | src/requestmessage.h:77-84 | a written integer is read back exactly when it is within 32 bits |
| RequestMessage.IntOutside | src/json.h:28-35 | an integer above the largest is read as the largest, one below the smallest as its low 32 bits |
| Decimal.ItosRoundTrip | src/util.h:342-347 | reading back a written integer |
| XmlText.GetUtf8NbytesChar | src/util.h:991-1008 | length of a character, or minus the bytes to skip |
| XmlText.GetCleanUtf8 | src/util.h:1010-1026 | the cleaned text |
| XmlText.CleanTwice | src/util.h:1010-1026 | cleaning is idempotent |
| XmlText.CleanIffComplete | src/util.h:991-1026 | it leaves exactly the texts alone whose characters have all their continuation bytes, and yields only such |
| XmlText.CleanOnValid | src/util.h:991-1026 | it leaves alone what the UTF-8 gate of the WebSocket accepts |
| XmlText.CleanKeeps | src/util.h:991-1020 | exactly as many bytes as the first one announces, all continuing it, are kept |
| XmlText.CleanSkipsByte | src/util.h:991-1020 | a byte that announces no character, or more bytes than are left, is left out alone |
| XmlText.CleanSkipsCut | src/util.h:991-1020 | a character cut short is left out together with the byte that should have continued it |
| XmlText.CleanIsValidIff | src/util.h:991-1026 | cleaned text is valid UTF-8 exactly when every character kept is one that UTF-8 allows: no overlong form, no surrogate, none above U+10FFFF |
| XmlText.OverlongKept | src/util.h:991-1008 | an overlong form is clean though not valid UTF-8 |
| XmlText.EncodeXml | src/xml.h:111-134 | the cleaned text with the five entities |
| XmlText.DecodeXml | src/xml.h:136-168 | entities by name and number, or the error |
| XmlText.RoundTrip | src/xml.h:111-168 | decoding an encoded text gives the cleaned text, for every byte string |
| XmlUnits.DecodesMeaning | src/xml.h:136-173 | text is decoded exactly when it is made of bytes, the five entities and references by number, and then to what they stand for |
| XmlUnits.NumberMeans | src/xml.h:145-146 | a reference by number stands for the byte of that value |
| XmlUnits.EscapedSpells | src/xml.h:111-134 | the writer spells the five special characters by name and everything else as it is |
| XmlReader.Xml.NextTag | src/xml.h:42-60 | the next tag, none, or a message cut within one |
| XmlReader.Xml.ProcessNode | src/xml.h:61-86 | completes an element with its children up to its end tag |
| XmlReader.Xml.ProcessRawData | src/xml.h:90-102 | the root: the element of the second tag |
| XmlParser.ContentParses | src/xml.h:61-86 | printed content followed by its end tag is read as its trees, up to exactly behind the end tag |
| XmlParser.MessageShows | src/xml.h:61-102 | parsing a message gives a tree with the names, spans and nesting of its element |
| XmlAccepts.ContentReadIff | src/xml.h:61-85 | content is read exactly when it is nested elements with text between them, followed by its end tag |
| XmlAccepts.MessageAccepted | src/xml.h:90-105 | a message that is not refused has a first tag, a second one, its content and its end tag |
| XmlRpc.RequestResponse | src/xmlrpc.h:96-105 | the response with the tickets and ports |
| XmlRpc.WraperIsMessage | src/xmlrpc.h:43-79 | the response text is the printed response element |
| XmlRpc.GetStructMembers | src/xmlrpc.h:151-165 | the typed value of each member under its decoded name, or the error |
| XmlRpc.ResponseRecovered | src/xmlrpc.h:151-165 | parsing a response recovers every member through getStructMembers: strings up to cleaning, 32-bit integers exactly |
| XmlRequests.ReadCall | src/xmlrpc.h:20-31 | the data of a method call by name, or the error |
| XmlRequests.RequestRead | src/xmlrpc.h:20-31 | of a method call written with any text between its elements every item is read under what its name stands for, strings with all entities and numbers decoded |
| RemoveTree.FileSystem.RemoveDirContents | src/util.h:730-772 | removes exactly the entries below an open directory with an owned ancestor-or-self from it on, or all when forced, and counts them |
| RemoveTree.FileSystem.RemoveDir | src/util.h:885-918 | removes exactly the entries with an owned ancestor-or-self in the directory, or all when forced; the count plus the survivors are the original number |
| RemoveTree.EmptyAfter | src/util.h:749-757 | a directory about to be removed is empty by then |
| RemoveTree.Conservation | src/util.h:885-918 | removed and surviving entries are all entries, and the survivors are again a tree |
| OutputBuffer.Redirector.AddOutput | src/redirector.cpp:42-63 | appends, or keeps both ends around the marker, with the cut message the first time |
| OutputBuffer.Redirector.AddMessage | src/redirector.cpp:88-91 | appends a message of the system |
| OutputBuffer.HeadAndTailKept | src/redirector.cpp:42-63 | after any events the buffer is the whole output, or its first half limit, one marker and its last bytes, at least half a limit |
| OutputBuffer.MessagesAreTexts | src/redirector.cpp:42-63 | the message buffer holds the messages in order, with the cut notice at the first cut |
| OutputBuffer.OneNotice | src/redirector.cpp:57-60 | the notice is added exactly once when anything was cut, else never |
| OutputBuffer.CutTexts | src/redirector.cpp:47-58 | the marker and the notice name the limit as 10240K |
| OutputBuffer.SizeBound | src/redirector.cpp:46-46 | one piece keeps the buffer within twice the limit exactly when the sizes fit or their sum modulo 2^32 shows the excess |
| OutputBuffer.BatchSizeBound | src/redirector.cpp:132-198 | with pieces of one terminal read the bound always holds |
| OutputBuffer.HugePieceKept | src/redirector.cpp:46-46 | a piece of 2^31 bytes, larger than any the program adds, would be kept whole: its size reads as negative |

## Left out

- Sockets, poll, TLS, the opening handshake, PTYs, fork and exec, signals, namespaces and cgroups: bytes that arrive, the
  death of processes, whether all processes of a user could be stopped, and time are parameters or events.
- The text of configuration and ticket files, and regular expressions: a record is written and read whole. Values with `=`,
  `#` or line ends do not survive the text format.
- File operations that fail for other reasons than a missing or existing file, and the death of a process inside a locked block.
- Handles that outlive their tenancy are in the ticket protocol (anybody may mark or remove any UID at any time) but not in
  `TaskLifecycle`, which follows one tenancy.
- That a free UID is always found: each try of `selectPrisoner` draws a new random number. Random numbers are parameters;
  the loops that redraw tickets assume that a new one is drawn at last.
- Lock files: their names, their directory, interrupted system calls. A lock is owned or free.
- The wait of up to two seconds for an output file in `getState`: the file is there or not.
- The quotes and blanks trimmed from a presented ticket.
- `getResult` and `limitResultSize`: only that the output files are deleted is modelled (`TaskLifecycle`).
- The parts of `jail.cpp` beyond which process calls which operation, when; `vpl_monitor.py`; configuration, logging, HTTP.
- ProcessMonitor.ProcessMonitor.IssueTickets: one method for both constructors; the order of the two draws of each ticket is not modelled.
- WebSocketEndpoint.MessageReassembled: not for control frames between fragments, where the shared frame type of the source breaks
  section 5.4 of RFC 6455, nor in base64 mode.
- WebSocketEndpoint.WebSocket.CloseAndWait: each poll either finds bytes or not; the waiting time is not modelled.
- Base64.Decode: input whose padding outweighs its symbols raises an exception, modelled as None; sizes of 2^31 and more,
  where the source overflows `int`, are not.
- JsonStrings.DecodeHexaUnicodeToUtf8: the digits are read up to the first that is none; signs, blanks and `0x` prefixes that the
  stream of the source accepts inside the four digits end the number here. Lone surrogates follow the code.
- RequestMessage.IntRoundTrip: integers of more than 64 bits, and `double` members, are not modelled.
- JsonIds.ResponseRecovered: the request side (`processRoot` of JSON-RPC) is not modelled beyond `JsonLayout.MemberFound`.
- JsonAccepts.AcceptsOnly: which of the odd texts (a comma behind the last item, escapes of other letters) are then decoded
  is left to `JsonStrings.DecodesMeaning`.
- XmlUnits.DecodesMeaning: references of more than 64 bits overflow in the source; hexadecimal references read as 0 there and here.
- LockedEntries.EnteredAtMostOnce: an Enter operation counts once it is behind the check of its task, also when it is then
  refused as a second monitor.
- Registering as a monitor without presenting a ticket: no code of the source does it, and no operation here.
- XmlReader.Xml.ProcessNode: a tag without text, where the source reads a character at index -1, is an error; a child is added
  after it is completed, in the source before, which only an abandoned message could show.
- XmlRpc.ResponseRecovered: integers above the largest 32-bit one, written as `double` with loss, are not modelled.
- RemoveTree.FileSystem.RemoveDir: directories are listed once and nothing else changes the tree meanwhile; opening the trusted
  path of the parent is taken to succeed when it is a directory.
- `availableResponse`, `directRunResponse` and the one-member responses: the same pattern as the responses modelled.
