# Valyrium gateway and tunnel: a verified model

Valyrium is an OpenAI-compatible gateway in front of the `claude` CLI, with a
relay tunnel that lets it be reached from outside. This project models the parts
of it that are stateful and concurrent, and proves what they keep.

* **The tunnel's multiplexer.** `Frames` is the wire format, `Handshake` the token
  exchange, `Registry` the relay's choice of tunnel client. `Mux` is one end of a
  multiplexed connection as a state machine whose steps are the critical sections
  of the code; `MuxSafety` proves what an end keeps against any peer, `MuxHonest`
  and `MuxSystem` what two honest ends keep together over any interleaving,
  `MuxWrites` that what one application reads is what the other wrote, `MuxAnswers`
  what an end says and why it closes, `MuxLimits` and `MuxWrap` where those promises
  end, `MuxTraffic` that answering frames dies out. `MuxConn` is the connection and
  its streams as the objects the program keeps, every method tied to the steps of
  `Mux`; `MuxTransfer` relates whole calls and whole turns of the read loop to them,
  and `MuxTurns` says what a turn comes to for each kind of frame.
* **The tool-calling session table.** `Sessions` is the table as a state machine;
  registering calls and resolving one take two steps each, as they take two locks
  one after the other. `SessionInv`, `SessionTable` and `SessionTheorems` prove
  its invariants over all runs, `SessionCalls` what becomes of an announced call;
  `SessionObjects` is the manager and its sessions as objects.
* **Turns.** `Turns` relays the CLI's lines to session events and collects events
  into turns; `TurnLines` says what each turn says, in terms of its lines.
* **The semaphore** (`Semaphore`), **the resumable sessions** (`Lru`,
  `ResumeStores`, `Conversations`, `Prompts`, `Resume`) and **the usage ledger** (`Ledger`).

State machines and objects. Where goroutines interleave, the code's critical
sections are the steps of a state machine on values, and the theorems are about
all its runs. The classes hold the same state in the program's own form; each
method states its whole new state as a step, or a fixed sequence of steps, of the
machine, so that what is proved of runs is about the methods. A call that blocks
is modelled at the moment it no longer has to: which of the ready cases a `select`
takes is a parameter, and a method whose caller would still be waiting requires
that some case is ready. Fields marked `ghost`, and the logs `sent`, `seen`,
`handled`, `returned`, `uses`, `given`, `claims`, `arrivals` and `pops` in the
state machines, record history and decide nothing.

Reaping several sessions under one hold of the manager's lock is one step; the
interleavings in which calls on another session come in between are runs with
one reaping step per session, which the theorems about all runs cover.

A method that covers several critical sections (`Open`, `CloseStream`, `WriteStream`,
`ToolsCall`, `BeginRequest`, `DeliverResults`, `ReadTurn`) states what they do with
nothing in between; what holds whatever comes in between is proved of the steps.

Some methods require what the invariants give: that a queued payload is not empty,
for instance, is part of what `AccountsStep` keeps, and that a drained resolver
belongs to a claimed call, or that only a resolved call is about to leave the index,
is part of what `RunInv` keeps (`HalvesAreResolved`).

## Assumptions

* Random ids (sessions, tool calls, completions) are fresh, and a client learns a
  tool call's id only after its registration has returned
  (`internal/gateway/claudecli.go:427-430`).
* JSON encoding and SHA-256 are free of collisions: a fingerprint is what was
  digested. Canonical arguments, tool names and results are values that are
  compared and never looked into.
* A connection delivers bytes in order until it breaks. A broken or timed-out
  connection is a step that may happen at any time.
* Clocks, timers and the CLI process are inputs: "expired", "gives up after so many
  events" and "this line was read" are parameters of the step that depends on them.

## Where the code and its comments part

* `internal/gateway/session.go:250-251` says only unresolved calls are indexed.
  Between the two critical sections of a resolution an indexed call is already
  resolved (`ResolvedStillIndexed`), and only then (`IndexedIsUnresolved`).
* `ReapSuperseded` is said to return the number of sessions reaped
  (`internal/gateway/session.go:253`). It returns the number named, which counts
  a session already gone whose ids were indexed after it was reaped
  (`StaleIndex`). `SupersededCount` gives the exact condition.
* `Read` reports `io.EOF` from the closed-reads branch although payloads were given
  up, when its own end's connection was closed while frames were still being
  worked through (`IncompleteAfterConnClose`). `Completeness` gives the exact
  condition.
* The semaphore is meant to keep its permits. A `Release` that pops a waiter not
  yet parked drops one, with nobody cancelling (`DropsWithoutCancel`). `Safety`
  gives the exact condition for conservation.
* `systemPromptOf` is said to collect the system messages the way `BuildPrompt`
  does (`internal/gateway/resume.go:196-198`). An empty system message makes the
  difference (`SystemPromptsDiffer`); `SystemPromptsAgree` gives the exact condition.
* Nothing promises that the week's usage is within the month's or the year's, and it
  need not be; `WeekBounded` says when it is.
* The tunnel side's ids run out one Open before the relay's: its 2^31-th id is 0,
  which no OPEN may carry (`IdsWrap`, `ReopenAfterWrap`).
* The usage periods have no end: a day later than now, on a clock that was set back,
  counts in the week, the month and the year (`PeriodsAreWindows`).

## Model

| member | source | states |
|---|---|---|
| Frames.BigEndian | internal/tunnel/mux.go:121-137 | a four-byte field goes out most significant byte first |
| Frames.Layout | internal/tunnel/mux.go:121-137 | length, type, stream and payload are where the format puts them |
| Frames.DataOnTheWire | internal/tunnel/mux.go:56-66 | the bytes of a frame of each type |
| Frames.ValidFrames | internal/tunnel/mux.go:105-119 | which frames are refused, by the numbers of the format |
| Frames.RefusedOnTheWire | internal/tunnel/mux.go:141-169 | an oversized length is refused before its payload is read, an ill-formed frame after |
| Frames.DecodeEncoded | internal/tunnel/mux.go:121-169 | a frame written is read back, and exactly its bytes are consumed, whatever follows |
| Frames.EncodeDecoded | internal/tunnel/mux.go:141-169 | an accepted frame is valid and re-encodes to the bytes it was read from |
| Frames.TornFrame | internal/tunnel/mux.go:141-169 | no proper prefix of a frame decodes; an empty one is a clean EOF, any other an unexpected one |
| Frames.DecodeRun | internal/tunnel/mux.go:121-169 | frames back to back, cut anywhere in the next, come out as exactly those frames, and the end is clean only on a boundary |
| Frames.EncodeRun | internal/tunnel/mux.go:121-169 | a byte string ends cleanly if and only if it is the encoding of the frames read from it |
| Frames.EncodeAllInjective | internal/tunnel/mux.go:121-137 | different frame lists have different encodings |
| Frames.WriteFrame | internal/tunnel/mux.go:121-137 | an invalid frame writes nothing; a valid one its encoding, or a proper prefix when the connection breaks |
| Frames.ReadFrame | internal/tunnel/mux.go:141-169 | the frame or the error the bytes call for, and what is left unread |
| Handshake.Authenticate | internal/tunnel/relay.go:189-204 | answers AUTH_OK exactly to an AUTH frame with the token, and reads one frame and no more |
| Handshake.AuthenticateTo | internal/tunnel/tunnel.go:165-183 | succeeds exactly when its AUTH went out and an AUTH_OK came back, having read that frame and no more |
| Handshake.HandshakeBoundary | internal/tunnel/relay.go:185-204 | whatever both muxes go on to send, each starts reading on its peer's first frame; admission is token equality |
| Registry.LastRegisteredWins | internal/tunnel/relay.go:169-230 | over every run the registered tunnel is the latest one until it leaves, and every other registered mux is closed or about to be |
| Registry.InvStep | internal/tunnel/relay.go:210-230 | every step keeps that invariant |
| Registry.RelayServer.Swap | internal/tunnel/relay.go:211-214 | the registration step of the machine: the newcomer is registered last and owes the closing of the one it displaced |
| Registry.RelayServer.CloseReplaced | internal/tunnel/relay.go:216-219 | the closing step it owes |
| Registry.RelayServer.RegisterMux | internal/tunnel/relay.go:210-220 | both steps with nothing in between: the newcomer is in place and the one it displaced closed |
| Registry.RelayServer.UnregisterMux | internal/tunnel/relay.go:224-230 | the step of a client that leaves; a client that was replaced leaves the tunnel to its replacement |
| Registry.RelayServer.Tunnel | internal/tunnel/relay.go:232-236 | in a state that keeps the invariant, the last client to register, or nothing once it has left |
| MuxSafety.RunIsSafe | internal/tunnel/mux.go:345-405 | whatever frames the peer sends, over every run deliver never sends on a closed queue and every payload is accounted for |
| MuxSafety.SafeStep | internal/tunnel/mux.go:230-524 | every step keeps: outside the CLOSE handler every registered stream has its queue open, ids in the table match, the accept queue is bounded and holds each stream once |
| MuxSafety.AccountsStep | internal/tunnel/mux.go:445-517 | every step keeps: kept payloads are what Read returned plus its buffer plus the queue, and bytes are given up only once the stream or connection is closed at this end |
| MuxSafety.KeptOrLost | internal/tunnel/mux.go:508-517 | what deliver was handed is what was kept plus what was given up |
| MuxSafety.BufferBound | internal/tunnel/mux.go:46-54 | a stream holds at most 17 payloads of unread bytes, and the read loop one more |
| MuxAnswers.SentIsAsked | internal/tunnel/mux.go:315-382 | over every run, while up, an end has sent exactly the frames its application asked for and the answers it gave, in order |
| MuxAnswers.PongsAnswerPings | internal/tunnel/mux.go:376-377 | over every run, while up, the PONGs sent and the one owed are as many as the PINGs seen |
| MuxAnswers.ClosesHaveReasons | internal/tunnel/mux.go:363-404 | over every run, while up, the CLOSEs sent about a stream and the one owed are as many as the reasons: DATA for it while unknown, its refusal, its Close |
| MuxAnswers.NewlyOwed | internal/tunnel/mux.go:355-404 | the steps that make the loop owe a frame, and which frame |
| MuxAnswers.FirstCause | internal/tunnel/mux.go:302-313 | over every run a connection is closed by, and reports, the first failure it met |
| MuxAnswers.AcceptedInOrder | internal/tunnel/mux.go:385-404 | over every run and against any peer, the streams accepted and those waiting are those the peer opened, in its order, less those refused |
| MuxAnswers.RefusedWhenFull | internal/tunnel/mux.go:396-404 | a stream is refused exactly when 64 are waiting |
| MuxTurns.PingTurn | internal/tunnel/mux.go:376-377 | a PING is answered by a PONG and changes nothing else |
| MuxTurns.PongTurn | internal/tunnel/mux.go:378-380 | a PONG changes nothing |
| MuxTurns.AuthTurn | internal/tunnel/mux.go:381-383 | a handshake frame stops the loop and closes the connection |
| MuxTurns.ReopenTurn | internal/tunnel/mux.go:385-391 | an OPEN for a live stream closes the connection and touches no stream |
| MuxTurns.OpenTurn | internal/tunnel/mux.go:392-398 | any other gives a new stream the last of at most 64 places |
| MuxTurns.RefusalTurn | internal/tunnel/mux.go:399-404 | or is refused with a CLOSE and leaves no trace in the table |
| MuxTurns.DataTurn | internal/tunnel/mux.go:508-517 | DATA goes to the end of its own stream's queue |
| MuxTurns.EmptyDataTurn | internal/tunnel/mux.go:508-511 | empty DATA changes nothing |
| MuxTurns.StrayDataTurn | internal/tunnel/mux.go:363-370 | DATA for a stream that is not there is answered by a CLOSE |
| MuxTurns.CloseTurn | internal/tunnel/mux.go:371-375 | CLOSE closes the stream's queue and takes it out of the table |
| MuxTurns.StrayCloseTurn | internal/tunnel/mux.go:371-375 | for a stream that is not there it changes nothing |
| MuxTurns.WhenDelivered | internal/tunnel/mux.go:512-516 | when deliver's select can go on, and which way |
| MuxHonest.BodyConcat | internal/tunnel/mux.go:355-382 | the bytes framed for a stream before its first CLOSE, over two stretches of wire |
| MuxHonest.BodyOnlyOwn | internal/tunnel/mux.go:355-382 | frames of other streams never touch a stream's bytes |
| MuxHonest.IdAtInjective | internal/tunnel/mux.go:209-249 | the first 2^31 ids an end allocates are all different |
| MuxHonest.FreshId | internal/tunnel/mux.go:236-242 | Open's id names no stream the end has ever known |
| MuxHonest.HonestStep | internal/tunnel/mux.go:230-524 | given a frame an honest peer may send, every step keeps id parity, OPEN before DATA, one OPEN per id, and the bytes owed to every stream |
| MuxSystem.InvStep | internal/tunnel/mux.go:230-524 | one step of either end keeps the invariants of both ends and both wires |
| MuxSystem.ReachableInv | internal/tunnel/mux.go:345-405 | in every run of two honest ends, while ids last, neither reports a reopened stream or a stray handshake frame |
| MuxSystem.IdsByOpens | internal/tunnel/mux.go:209-242 | the k-th stream of the relay is 2k+1, of the tunnel client 2k+2 |
| MuxSystem.OddAndEven | internal/tunnel/mux.go:209-242 | in every reachable state the relay's streams are odd and the tunnel client's even, at both ends |
| MuxSystem.Conservation | internal/tunnel/mux.go:345-517 | for every stream not closed at its own end, bytes delivered, in hand and on the wire ahead of a CLOSE are in order what the peer framed for it before its first CLOSE; while the connection is up the delivered part is what was read, buffered and queued |
| MuxSystem.Completeness | internal/tunnel/mux.go:445-465 | at the closed-reads EOF Read has returned all of that if and only if nothing was given up, which is certain while the connection is up |
| MuxLimits.IncompleteAfterConnClose | internal/tunnel/mux.go:297-313 | a reachable state in which that EOF comes and the bytes were lost |
| MuxSystem.WaitingRead | internal/tunnel/mux.go:445-465 | a Read that must wait has returned everything but what the read loop holds and what is on the wire |
| MuxWrites.FramedIsWritten | internal/tunnel/mux.go:467-490 | over every run, the bytes framed for a stream before its first CLOSE are the chunks its application got across on it, in order |
| MuxWrites.ReadIsWritten | internal/tunnel/mux.go:445-490 | at the closed-reads EOF the reader has exactly the chunks the peer's application got across, if and only if nothing was given up |
| MuxWrites.ReadIsPrefix | internal/tunnel/mux.go:445-490 | at any moment while its stream and connection are open it has a first part of them |
| MuxWrites.WritesAreRead | internal/tunnel/mux.go:445-490 | whatever happens between the chunks of the peer's Writes, at that EOF the bytes read are a first part of the bytes written, and all of them if every chunk got across |
| MuxWrites.FlattenChunking | internal/tunnel/mux.go:478-487 | the chunks of a Write make up its bytes |
| MuxWrites.ChunksFit | internal/tunnel/mux.go:478-487 | no chunk is empty or over 65536 bytes, and all but the last have exactly that many |
| MuxWrap.IdsWrap | internal/tunnel/mux.go:236-242 | the id after 2^31 Opens is the first again, and the tunnel's 2^31-th is 0 |
| MuxWrap.Cycle | internal/tunnel/mux.go:230-249 | with the first stream live, one more can be opened, accepted, closed and forgotten by both ends, or its Open fails for its id 0 |
| MuxWrap.ReopenAfterWrap | internal/tunnel/mux.go:385-394 | on either side, one Open past 2^31 can make the peer report a reopened live stream, in a run with never more than two streams at an end: the bound is exact |
| MuxTraffic.WorkStep | internal/tunnel/mux.go:355-405 | every step of a read loop lowers the work in sight, from any state at all |
| MuxTraffic.TrafficDiesOut | internal/tunnel/mux.go:355-405 | without new application actions the read loops take no more steps than that work |
| MuxTraffic.TrafficFalls | internal/tunnel/mux.go:355-405 | between resting loops, twice the OPEN, DATA and PING frames plus the CLOSE and PONG frames on the wires strictly falls |
| MuxConn.Conn.constructor | internal/tunnel/mux.go:209-226 | the initial state of an end |
| MuxConn.Conn.CloseWithErr | internal/tunnel/mux.go:302-313 | the first cause sticks |
| MuxConn.Conn.WriteFrame | internal/tunnel/mux.go:315-343 | refuses an invalid frame, then a closed connection; a failed write closes the connection |
| MuxConn.Conn.AddStream | internal/tunnel/mux.go:237-242 | a new stream object, registered under its id |
| MuxConn.Conn.RemoveStream | internal/tunnel/mux.go:413-417 | removes by id, whichever object is there |
| MuxConn.Conn.BeginOpen | internal/tunnel/mux.go:237-242 | the critical section of Open: id allocation and registration |
| MuxConn.Conn.SendOpen | internal/tunnel/mux.go:244-247 | the OPEN goes out or the stream is to be withdrawn |
| MuxConn.Conn.AbortOpen | internal/tunnel/mux.go:244-247 | withdrawing it |
| MuxConn.Conn.Open | internal/tunnel/mux.go:230-249 | a closed connection opens nothing; otherwise the three steps in order, and a stream exactly if the OPEN went out |
| MuxConn.Conn.Accept | internal/tunnel/mux.go:252-259 | the longest-waiting offered stream, or nothing once the connection is closed |
| MuxConn.Conn.SignalClose | internal/tunnel/mux.go:494-497 | Close shuts its own signal first |
| MuxConn.Conn.UnlistClosed | internal/tunnel/mux.go:498 | then takes the stream out of the table |
| MuxConn.Conn.SendClose | internal/tunnel/mux.go:499 | then tells the peer |
| MuxConn.Conn.CloseStream | internal/tunnel/mux.go:494-502 | the three steps in order, once; a second Close does nothing |
| MuxConn.Conn.TakePayload | internal/tunnel/mux.go:454-458 | the next queued payload becomes the buffer |
| MuxConn.Conn.CopyOut | internal/tunnel/mux.go:447-451 | as many buffered bytes as fit are returned and leave the buffer |
| MuxConn.Conn.ReadStream | internal/tunnel/mux.go:445-465 | the next bytes, as many as fit, or which of the three ends was met, with the connection's first cause if it is down |
| MuxConn.Conn.WriteChunk | internal/tunnel/mux.go:478-484 | one chunk of a Write, as the step of the machine that the theorems about interleaved Writes are about |
| MuxConn.Conn.WriteStream | internal/tunnel/mux.go:467-490 | one DATA frame per chunk until the bytes run out or something is closed, and how many bytes it reports |
| MuxConn.Conn.Enqueue | internal/tunnel/mux.go:508-517 | deliver's send on a queue with room |
| MuxConn.Conn.GiveUp | internal/tunnel/mux.go:512-516 | deliver's other two cases |
| MuxConn.Conn.RemoteClosed | internal/tunnel/mux.go:522-524 | closes the queue, once |
| MuxConn.Conn.Offer | internal/tunnel/mux.go:396-398 | a new stream joins the accept queue if there is room |
| MuxConn.Conn.Withdraw | internal/tunnel/mux.go:399-404 | otherwise it is taken out of the table again |
| MuxConn.Conn.Reply | internal/tunnel/mux.go:363-377 | the one frame a received frame may call for |
| MuxConn.Conn.Receive | internal/tunnel/mux.go:355-405 | what one frame does up to the first point where the loop may wait |
| MuxConn.Conn.Settle | internal/tunnel/mux.go:355-405 | the rest of the loop's turn |
| MuxConn.Conn.ReadTurn | internal/tunnel/mux.go:345-383 | a whole iteration of the read loop on the bytes to come: one frame decoded and worked through, or the end of the connection |
| MuxTransfer.WriteFrames | internal/tunnel/mux.go:467-490 | the frames of a Write are non-empty, within the limit, and together the written prefix; a short count means something was closed, and at most one more chunk crossed |
| MuxTransfer.WriteFramed | internal/tunnel/mux.go:467-490 | a whole Write adds exactly its bytes to what the receiver is owed |
| MuxTransfer.SettledSafe | internal/tunnel/mux.go:355-405 | a whole turn keeps the safety invariants |
| MuxTransfer.TurnIsSafe | internal/tunnel/mux.go:345-383 | so does an iteration on any bytes whatever, and the loop is at rest or stopped after it |
| SessionTable.InvStep | internal/gateway/session.go:136-308 | every critical section keeps the index, the tables and the resolvers consistent |
| SessionTable.RunInv | internal/gateway/session.go:136-308 | so they are in every state of every run |
| SessionTheorems.LookupSound | internal/gateway/session.go:162-172 | a lookup that finds a session finds a live one that announced the call; live sessions never exceed the cap |
| SessionTheorems.QuiescentIndex | internal/gateway/session.go:178-227 | with nobody between two critical sections, the ids indexed to a live session are exactly its unresolved calls |
| SessionTheorems.IndexedIsUnresolved | internal/gateway/session.go:211-227 | an indexed call of a live session is unresolved if and only if no resolution of it is between its two sections |
| SessionTheorems.HalvesAreResolved | internal/gateway/session.go:218-225 | a call whose index entry is still to be taken out is resolved |
| SessionTheorems.ResolverUsedOnce | internal/gateway/session.go:211-221 | an unresolved resolver is empty, so a send neither blocks nor meets a closed channel; one send or one close in all |
| SessionTheorems.UsesStick | internal/gateway/session.go:211-299 | over any further run a used resolver keeps its one use, and only its own receive drains it |
| SessionTheorems.ParkedReceives | internal/gateway/mcpserver.go:183-217 | a parked tools/call gets the first result given for its id, before or after the claim, or the closed signal of a reaped session |
| SessionTheorems.ReapedIsFinal | internal/gateway/session.go:178-184 | a reaped session has no unresolved call, stays reaped, and is never given another |
| SessionTheorems.ClaimsAreFifo | internal/gateway/session.go:231-243 | over every run the claims for a pair of name and arguments are a prefix of its announcements, each taken once |
| SessionTheorems.ResolveFrame | internal/gateway/session.go:211-227 | a result changes the one call it names in the one session it is given to, and otherwise nothing |
| SessionTheorems.SupersededFrame | internal/gateway/session.go:254-274 | a live session is reaped if and only if a named id finds it and it is not the one kept; the others and their index entries are untouched |
| SessionTheorems.SupersededClears | internal/gateway/session.go:254-274 | afterwards every named id finds nothing or the kept session |
| SessionTheorems.SupersededCount | internal/gateway/session.go:253-274 | the count returned is the number reaped if and only if no named id is left over from a session already gone |
| SessionTheorems.StaleIndex | internal/gateway/session.go:198-204 | a reachable table with an index entry for a dead session |
| SessionTheorems.ResolvedStillIndexed | internal/gateway/session.go:218-225 | a reachable table in which an indexed call is resolved and naming it reaps its session |
| SessionCalls.PendingIsAnnounced | internal/gateway/session.go:178-196 | over every run a session's calls are the uses announced on it while alive, in order, with their names, arguments and ids |
| SessionCalls.ClaimsTakeUses | internal/gateway/session.go:231-243 | over every run the k-th claim for a pair took the k-th use announced with it |
| SessionCalls.AnnouncedIsClaimed | internal/gateway/session.go:186-243 | a tools/call after an announcement takes the first use with its name and arguments |
| SessionCalls.UnannouncedIsNot | internal/gateway/session.go:231-243 | and finds nothing for a pair that was not announced |
| SessionCalls.ResolveDelivers | internal/gateway/session.go:211-221 | the first result for an unresolved call is what its channel holds |
| SessionCalls.ReapShuts | internal/gateway/session.go:288-296 | a reaped session's unresolved calls are told so, the others keep what they have |
| SessionObjects.DeliversFirst | internal/gateway/server.go:691-695 | an unresolved call is answered with the first result a request has for its id |
| SessionObjects.Session.ClaimPendingCall | internal/gateway/session.go:231-243 | claims the first announced unclaimed match, if any |
| SessionObjects.SessionManager.CreateSession | internal/gateway/session.go:136-154 | a new live session, or none at the cap |
| SessionObjects.SessionManager.GetSessionByToolCallID | internal/gateway/session.go:162-172 | the live session the index names |
| SessionObjects.SessionManager.AnnounceFirst | internal/gateway/session.go:178-196 | a reaped session takes no calls; otherwise they are appended in order |
| SessionObjects.SessionManager.AnnounceSecond | internal/gateway/session.go:198-202 | the calls are indexed to the session, dead or alive |
| SessionObjects.SessionManager.ResolveFirst | internal/gateway/session.go:211-221 | the first result fills the resolver; an unknown or resolved id does nothing |
| SessionObjects.SessionManager.ResolveSecond | internal/gateway/session.go:223-225 | the id leaves the index |
| SessionObjects.SessionManager.Claim | internal/gateway/mcpserver.go:168-173 | one try to claim, which changes nothing if there is nothing to claim |
| SessionObjects.SessionManager.Answer | internal/gateway/mcpserver.go:183-217 | a result, an error or a parked call, never both outcomes |
| SessionObjects.SessionManager.ToolsCall | internal/gateway/mcpserver.go:162-217 | a try and its answer |
| SessionObjects.SessionManager.FindContinuation | internal/gateway/server.go:462-481 | the trailing tool messages, and the session of the first of them that finds one |
| SessionObjects.ReferencedToolCallIDs | internal/gateway/server.go:486-499 | exactly the non-empty ids the history mentions |
| SessionObjects.SessionManager.BeginRequest | internal/gateway/server.go:282-294 | a request reaps exactly the live sessions its history names and does not continue |
| SessionObjects.DeliveredNet | internal/gateway/server.go:691-695 | after a list of results each unresolved call it names holds the first one for its id and has left the index, and nothing else changed |
| SessionObjects.SessionManager.DeliverResults | internal/gateway/server.go:691-695 | every result is given to the resumed session, in order, through both sections, with that net effect |
| SessionObjects.SessionManager.ReapSessionLocked | internal/gateway/session.go:282-308 | one live session is reaped and leaves the table and the index; a dead one is no change |
| SessionObjects.SessionManager.Sweep | internal/gateway/session.go:108-131 | a session stays exactly if it has not been inactive for longer than the tool timeout, with a call waiting, or the idle timeout |
| SessionObjects.SessionManager.ReapSuperseded | internal/gateway/session.go:254-274 | reaps the sessions named by an indexed id, save the one kept, and counts those named |
| SessionObjects.SessionManager.Close | internal/gateway/session.go:316-325 | reaps every session |
| Turns.SessionStream.RelayLine | internal/gateway/claudecli.go:385-458 | the events of one line, and the calls it registers |
| Turns.SessionStream.Relay | internal/gateway/claudecli.go:377-472 | all events of a run, a run_end of its own if no result line came, then the channel is closed |
| Turns.SessionStream.CollectTurn | internal/gateway/server.go:579-650 | takes events up to the earliest end of a turn, the interrupt or the closed channel, and reports what those events say |
| Turns.TakeEvent | internal/gateway/server.go:587-637 | one event's part in the outcome, and whether the turn ends with it |
| Turns.Unended | internal/gateway/server.go:585-646 | a turn that does not end reports why: the timer or the client, after so many events, or the closed channel |
| Turns.CallsRelayed | internal/gateway/claudecli.go:419-434 | every registered call is in the events, once and in order |
| Turns.StreamEnds | internal/gateway/claudecli.go:435-472 | the channel always carries a run_end, and the calls before it are those announced before the first result line |
| Turns.TurnsTile | internal/gateway/server.go:579-637 | up to the first run_end turns neither overlap nor leave anything out, each ends as early as it can, only the last with the run |
| Turns.RunIsTiled | internal/gateway/server.go:579-650 | so for any lines whatever the turns tile the run and hand out every announced call once in order |
| Turns.CollectAll | internal/gateway/server.go:579-650 | CollectTurn called again and again returns the outcomes of exactly those turns, so none meets a closed channel |
| TurnLines.TextConcat | internal/gateway/server.go:593-602 | text and reasoning are what the events carry, run together in order |
| TurnLines.ModelIsLast | internal/gateway/server.go:603-606 | the model of a turn is the one named last |
| TurnLines.ReasonIsLast | internal/gateway/server.go:608-633 | its stop reason is the last given |
| TurnLines.UsageIsLast | internal/gateway/server.go:608-633 | and so is its usage |
| TurnLines.TurnOver | internal/gateway/server.go:579-637 | when a turn is over, by its events |
| TurnLines.CallsAreUses | internal/gateway/claudecli.go:419-431 | the calls registered are the tool uses announced, in order, each with its name, input and id |
| TurnLines.LinesSay | internal/gateway/claudecli.go:385-434 | the events of a stretch of lines say what the lines say |
| TurnLines.RunSession | internal/gateway/claudecli.go:377-472 | relay and turns together: the lines fall into stretches, one for each outcome, whose text, reasoning, model, stop reason, usage and calls are those of its lines; the last says how the run ended, by its result line or the lack of one |
| Semaphore.Safety | internal/gateway/server.go:47-94 | over every run held plus available plus dropped is the size, nobody waits while a permit is available, grants follow arrivals, and nothing is dropped if and only if every popped waiter was parked |
| Semaphore.InvStep | internal/gateway/server.go:60-94 | every step keeps that |
| Semaphore.HeldAreGiven | internal/gateway/server.go:60-94 | over every run the permits held are those given at once and those handed over, less those given back |
| Semaphore.ReleaseGives | internal/gateway/server.go:80-94 | a release serves the first in the queue if parked, and otherwise nobody |
| Semaphore.CancelledGetsNone | internal/gateway/server.go:72-77 | over every run whoever gives up waiting is not handed a permit afterwards |
| Semaphore.LostWaiter | internal/gateway/server.go:84-90 | a waiter popped before it was parked is never granted a permit |
| Semaphore.DeadForever | internal/gateway/server.go:80-94 | with every permit dropped nothing is held again |
| Semaphore.DropsWithoutCancel | internal/gateway/server.go:66-90 | four steps without a cancellation that leave a semaphore of one dead and a waiter parked |
| Semaphore.FifoSemaphore.BeginAcquire | internal/gateway/server.go:60-70 | a permit at once, or the last place in the queue |
| Semaphore.FifoSemaphore.ReleasePermit | internal/gateway/server.go:80-94 | the first waiter is popped and gets the permit only if parked; with none the permit is available |
| Lru.RunRefines | internal/gateway/resume.go:40-83 | over every run the store lists exactly the max most recently touched distinct keys, latest first, each with the id last stored under it |
| Lru.StepRefines | internal/gateway/resume.go:40-83 | every Get and Put keeps that |
| Lru.OrderIsRecency | internal/gateway/resume.go:40-83 | over every run the keys are in the order in which operations last stored or found them |
| Lru.WhatIsStored | internal/gateway/resume.go:40-83 | a Put that stores, or a Get that finds, comes first with its id; any other changes nothing |
| Lru.TouchesAre | internal/gateway/resume.go:40-83 | the touches are the Gets that find and the Puts that store |
| Lru.KeptIff | internal/gateway/resume.go:58-83 | a touched key is kept if and only if fewer than max different keys have been touched since |
| ResumeStores.ResumeStore.constructor | internal/gateway/resume.go:27-36 | an empty store, of 32 entries unless a positive bound is given |
| ResumeStores.ResumeStore.Get | internal/gateway/resume.go:40-54 | the stored id of a key that is there, which moves to the front |
| ResumeStores.ResumeStore.Put | internal/gateway/resume.go:58-83 | an id replaced in place or a new entry pushed and the last ones dropped; empty keys and ids change nothing |
| ResumeStores.ResumeStore.Trim | internal/gateway/resume.go:75-82 | the list is cut to the bound and the map to the keys left |
| ResumeStores.ResumeStore.Len | internal/gateway/resume.go:85-92 | list and map have the same size, within the bound |
| Conversations.ReadText | internal/gateway/openai.go:103-131 | the text of a message, or none if any part is not text |
| Conversations.JoinNonEmpty | internal/gateway/resume.go:182-194 | the non-empty parts joined as strings.Join would |
| Conversations.IsResumableConversation | internal/gateway/resume.go:130-140 | no tool message, no tool calls, all text |
| Conversations.SplitMeans | internal/gateway/resume.go:146-180 | a split, and the want of one, in terms of the roles and texts of the messages |
| Conversations.SplitResumeTurn | internal/gateway/resume.go:146-180 | the prefix through the last reply and the text of nothing but user messages after it, exactly when there is such a split |
| Conversations.SplitOnce | internal/gateway/resume.go:146-180 | there is at most one such split |
| Conversations.ResumeFingerprint | internal/gateway/resume.go:98-123 | the key of model, effort, roles and texts, or none for unreadable content |
| Conversations.SameKey | internal/gateway/resume.go:98-123 | keys are equal if and only if roles, texts, model and effort are |
| Conversations.SystemPromptOf | internal/gateway/resume.go:199-218 | the non-empty system texts joined, or the default |
| Conversations.BuildPrompt | internal/gateway/openai.go:133-226 | accepts exactly readable conversations of known roles that do not end with the assistant, with the joined system texts and the turns in order under the names of their calls |
| Prompts.PartsConcat | internal/gateway/openai.go:112-128 | text parts are run together in order, and one that is not text spoils them all |
| Prompts.JoinConcat | internal/gateway/resume.go:182-194 | joining keeps the order and puts one separator between |
| Prompts.SystemConcat | internal/gateway/openai.go:148-154 | the system texts are those of the messages, in order |
| Prompts.NoSystem | internal/gateway/openai.go:206-209 | a request without system messages gets the default prompt |
| Prompts.TwoSystems | internal/gateway/resume.go:199-218 | two system texts are set apart by an empty line |
| Prompts.UnreadableSystem | internal/gateway/resume.go:205-208 | an unreadable one gives way to the default prompt |
| Prompts.TurnsSnoc | internal/gateway/openai.go:155-191 | what a message adds to the transcript, by its role, field by field |
| Prompts.NameOfLast | internal/gateway/openai.go:169-185 | a result goes under the name of the last call made with its id |
| Prompts.NameOfNone | internal/gateway/openai.go:182-185 | and one that answers no call under none |
| Prompts.AcceptedIff | internal/gateway/openai.go:133-204 | a request is accepted exactly when every message is well formed and the last that is not an instruction is a user's, a tool's or calls a tool |
| Conversations.SystemPromptsAgree | internal/gateway/resume.go:196-218 | the two ways to a system prompt agree if and only if there is at most one system message or none is empty |
| Conversations.SystemPromptsDiffer | internal/gateway/openai.go:206-209 | a request on which they differ |
| Resume.Server.PlanResumeTurn | internal/gateway/server.go:516-538 | what is planned for a request, given what the store holds, and what that does to the store |
| Resume.Server.RecordResumableSession | internal/gateway/server.go:543-556 | what recording a completion does to the store |
| Resume.HitIsRecorded | internal/gateway/server.go:516-538 | over every run a hit names the session last recorded for a conversation of the same roles, texts, model and effort |
| Resume.RecordedIsHit | internal/gateway/server.go:540-556 | over every run, while its key is kept and not overwritten, a recorded conversation sent back with its reply and more user text resumes that session with exactly the new text |
| Resume.NotYetEvicted | internal/gateway/resume.go:75-82 | fewer than max later events evict nothing |
| Resume.HitIsAccepted | internal/gateway/server.go:307-320 | resuming never lets in a request that replaying its history would have rejected |
| Ledger.YearsClosed | internal/gateway/usage.go:192-213 | the days before a year, by the rule for leap years |
| Ledger.MonthsTable | internal/gateway/usage.go:192-213 | the days before each month |
| Ledger.WeekdaysRepeat | internal/gateway/usage.go:199-204 | weekdays repeat every 400 years |
| Ledger.KnownDays | internal/gateway/usage.go:199-209 | known weekdays, and a Sunday that the week of the next day leaves out |
| Ledger.KnownWindows | internal/gateway/usage.go:192-213 | which of six known days count in which period on a known Monday |
| Ledger.WeekFromMonday | internal/gateway/usage.go:199-209 | the week is the days from its Monday on |
| Ledger.SumConcat | internal/gateway/usage.go:231-241 | totals add up, tokens in, tokens out and cost each for itself |
| Ledger.SumSingle | internal/gateway/usage.go:231-241 | and a request counts for what it used |
| Ledger.CalendarOrder | internal/gateway/usage.go:192-213 | day numbers order civil days as the calendar does |
| Ledger.PeriodsAreWindows | internal/gateway/usage.go:192-213 | a day counts in a period if and only if it lies in its window: that day, from Monday of that week on, from that month on, from that year on |
| Ledger.PeriodsOrdered | internal/gateway/usage.go:192-245 | for usage never negative, current is at most week and month, month at most ytd, all of them at most all |
| Ledger.WeekBounded | internal/gateway/usage.go:199-212 | the week is bounded by the month, or the year, for every log if and only if that period began on a Monday or in an earlier week |
| Ledger.RecordBuckets | internal/gateway/usage.go:177-182 | adding a request to its day's bucket gives the buckets of the longer log |
| Ledger.LogOf | internal/gateway/usage.go:88-108 | every ledger file is the ledger of some log |
| Ledger.ReplayKeeps | internal/gateway/usage.go:56-187 | over any records, closes, failed saves, restarts and stores that come up disabled, the ledger is that of exactly the requests recorded while enabled that a save covered before each later restart |
| Ledger.NothingLost | internal/gateway/usage.go:110-141 | while every file is read and every save succeeds that is every request |
| Ledger.CloseSavesAll | internal/gateway/usage.go:284-292 | a close that saves makes up for every save that failed while the store was up |
| Ledger.SameSums | internal/gateway/usage.go:217-245 | the buckets of a log determine its period totals |
| Ledger.UsageStore.Open | internal/gateway/usage.go:56-84 | a store takes over the file, or is disabled if it cannot read or write it |
| Ledger.UsageStore.Flush | internal/gateway/usage.go:284-292 | closing writes the ledger out, unless the store is disabled |
| Ledger.UsageStore.RecordUsageOn | internal/gateway/usage.go:164-187 | the request is added to its day, an unreported cost as zero; a disabled store records nothing |
| Ledger.UsageStore.Aggregate | internal/gateway/usage.go:217-245 | for whatever log the ledger is that of, each total is the sum over the requests whose day lies in the period |
| Ledger.UsageStore.AddTo | internal/gateway/usage.go:231-241 | one day's usage is added to the periods it counts in |

## Left out

- TLS, ALPN, autocert, dialling, listening, deadlines, keepalive timing and the
  reconnect backoff: library I/O; a timeout or a drop is a step that closes the
  connection.
- `pipe` and `servePublic`: copying between a public connection and a stream.
- Behaviour after `Relay.Close`, and reads of a stream its own end has closed:
  the code promises nothing definite there.
- Spawning and killing the CLI, its pipes and signals: the process is its lines, and
  the step that reaps a session kills it.
- HTTP routing, SSE, the dashboard, metrics text, authorization, response bodies,
  response-format prompts, model and effort resolution, finish reasons.
- JSON parsing and serialization: lines, messages and arguments are already parsed,
  and a tool's name is already stripped of its server prefix.
- The rendered text of a transcript and the instructions that go with it: the
  prompt is the list of its turns.
- Floating-point rounding of costs (reals here), overflow of token sums, time zones
  and daylight saving (civil day numbers here), the year 0 and years past 9999.
- Pending tool calls are values in their session's list and not objects of their
  own; the references the code shares between that list and its map by id are the
  position in the list.
- A session's `LastActivity`: how long ago each was active is an input of Sweep.
- MuxConn.Conn.ReadStream: a Read that waits is modelled at the moment a case is
  ready; MuxSystem.WaitingRead says what it has returned until then.
- MuxConn.Conn.WriteStream: what a Write does with nothing between its chunks, as do
  MuxTransfer.WriteFrames and MuxTransfer.WriteFramed; the module MuxWrites is about
  chunks with anything in between.
- MuxTransfer.WriteFrames: see MuxConn.Conn.WriteStream.
- MuxTransfer.WriteFramed: see MuxConn.Conn.WriteStream.
- SessionObjects.SessionManager.ToolsCall: the clock that bounds the tries before the
  last one; a try that claims nothing is a Claim step that changes nothing.
- SessionObjects.SessionManager.DeliverResults: requires that no named call is between
  the two sections of its registration, as a client knows an id only after the second.
- Turns.SessionStream.CollectTurn: the channel already holds every event of the run;
  when each arrives is not modelled, only after how many a request gives up.
