# Verified model of the Seestar telescope proxy

The proxy sits between many client apps and one telescope. It shares a single
control connection by rewriting JSON-RPC ids, fans binary image frames out to
every viewer, answers discovery, ping and DNS packets that reach it through a
tunnel, records sessions and replays them, and streams a traffic log to a
dashboard. This project models those parts in Dafny and proves what they promise.

`dafny verify dfyconfig.toml` checks everything.

## How the model is laid out

**The control multiplexer.** `Multiplexer.dfy` is a state machine. One `Action`
is one indivisible step of one task: a client's read loop, its writer, the
heartbeat, the upstream writer, or one of any number of upstream readers (a
reader can outlive the connection it was started for). `Enabled` says when a task
can step (a held lock or a full queue blocks it), `Next` gives the state after
the step, and `Run` and `Reachable` range over every interleaving. What the
telescope says, what hooks decide, what hooks inject and when sockets die are
arguments of actions, so all of it is arbitrary. The state also carries a history
of what happened to each remapped id. On top of it:

- `MultiplexerInvariants.dfy`: lock discipline, index bounds, capacities.
- `Conservation.dfy`: every id is in exactly one place, its history is the one
  that leads there, and no queue gets a second line about it.
- `Orphans.dfy`: no pending entry is forgotten; what is settled stays settled.
- `StaleRequests.dfy`: when a settled request is still sent.
- `Heartbeats.dfy`: when a heartbeat precedes the handshake.
- `Forwarding.dfy`: what the telescope hears of one client, and in which order.
- `Progress.dfy`: a measure that every step of the proxy's own reduces, and a
  step of that kind enabled in every reachable state that is not at rest.
- `Transparency.dfy`: a run of the shared connection, seen by one client, is a
  run of a private connection.
- `Capacity.dfy`, `StaleAnswers.dfy`: the cap of 1,024 and the variant that breaks
  it; what a drain leaves in the upstream queue.
- `ControlState.dfy`: the shared fields as a class whose critical sections carry
  out the steps of the state machine.

**Streams.** `LineFraming.dfy` (control lines in both directions), `Frames.dfy`
(image frames) and `FrameFanOut.dfy` (the lossy ring). A buffered reader over an
arbitrary chunking refines a function of the whole byte stream.

**Packets.** `Checksum.dfy`, `TunnelPackets.dfy`, `IcmpEcho.dfy` and `Dns.dfy`.

**Smaller machines.** `RecordReplay.dfy`, `LogRing.dfy` and `Discovery.dfy`.

`Prelude.dfy` and `Json.dfy` hold shared vocabulary and the id helpers.

## What the proofs found

- A request registered before the first connection is up is drained with
  "telescope reconnecting" and yet stays in the upstream queue, is sent, and its
  answer is broadcast under the remapped id (`StaleAnswers`). In general a settled
  request is still sent exactly if it is on its way already
  (`StaleRequests.SettledIsSentExactly`), and a late answer to it is never routed to
  a client (`Orphans.LateAnswerIsBroadcast`).
- Heartbeats are promised only after the handshake, but a beat queued before a
  reconnect is written on the new connection before the telescope says anything
  (`Heartbeats.BeatComesFirst`), and a reader that outlived its connection sets the
  handshake flag of the next one (`Heartbeats.OldReaderCompletesHandshake`). When a
  beat precedes the first word of its connection is `Heartbeats.BeatWithoutWordExactly`.
- The id counter starts at 100,000 (`src/control.rs:60`); the documentation says
  10,000. The model follows the code.
- `parse_discovery_request` slices `udp[8..udp_len]` without checking that the UDP
  length is at least 8, so such a packet panics (`TunnelPackets.CrashesExactly`).
- DNS answers are built with the discovery builder, so they leave from port 4720.
- An ICMP request whose header length field says three or four words is answered with an
  address overwritten by the message (`IcmpEcho.ShortHeaderBreaksReply`).
- Frames are replayed in the order of the digits of their index
  (`RecordReplay.ReplayFollowsDigits`), which is the recording order exactly up to
  10,000 images. With 10,001 the last one is replayed between frames 999 and 1,000
  (`RecordReplay.LastFrameJumpsAhead`).
- A log number is taken before the lock, so of two racing pushes the older can be
  overtaken. If a tick comes between them it is never streamed
  (`LogRing.RacingPushIsOvertaken`); if none does, the stream sends them in the wrong
  order and the newer one twice, because the cursor follows the last ring entry and
  not the largest number (`LogRing.RacingPushIsRepeated`). The pushes in flight can do
  no harm exactly if there is at most one and it holds the newest number
  (`LogRing.RacesAreHarmlessExactly`).
- The discovery bridge answers its own broadcasts without end exactly if the info it
  started from is itself a scan request without `result` and `code`
  (`Discovery.NoEchoLoopExactly`); and while it waits for real info, a first response
  from the telescope whose `result` is neither object nor null panics its loop
  (`Discovery.PanicsExactly`).

## Model

| member | source | states |
|---|---|---|
| Json.RestoreUndoesRemap | src/protocol.rs:51-92 | For an id of any non-null JSON type, rewriting it to a number makes the message route by that number, changes nothing else, and restoring the original id gives back the very message. |
| Json.SameButForId | src/protocol.rs:82-92 | Two messages with equal ids that agree once ids are erased are equal. |
| MultiplexerInvariants.StepKeepsInv | src/control.rs:352-517 | Every step of every task keeps the lock discipline (a refusing client or the drain, never both), the client and reader indices, and the capacities of the pending map and all queues. |
| MultiplexerInvariants.ReachableInv | src/control.rs:128-254 | Those invariants hold in every reachable state, for any number of clients and any interleaving. |
| Conservation.StepMoves | src/control.rs:461-517 | Every step moves an id from the one place where it is to the one place `Move` names, and no other part of the state keeps a copy. |
| Conservation.StepSends | src/control.rs:352-381 | Everything a client was ever told after a step is what it was told before plus the one line the step sends, minus the unsent lines of a queue dropped with its receiver. |
| Conservation.StepTellsOnce | src/control.rs:698-732 | A step leaves at most one line about an id on a client's queue, and only the one its outcome calls for. |
| Conservation.ExactlyOnePlace | src/control.rs:461-517 | Conservation: in every reachable state every id is in exactly one of unused, heartbeat, held before insertion, pending, carried by a reader, refused, answered, drained, withdrawn; its recorded history is the one that leads there. |
| Conservation.NoSecondReply | src/control.rs:702-732 | No remapped request ever gets two lines, on one queue or on two, whatever duplicates the telescope sends and however often it reconnects. |
| Conservation.ReplyIsTold | src/control.rs:702-732 | The other half: in every reachable state a client whose queue is open and whose request was answered or refused was told exactly one line about it, the right one; no full queue drops it. |
| Conservation.RoutingSafety | src/control.rs:698-732 | Against an arbitrary telescope, a line the reader put on a client's queue carries the telescope's fields under the id of a request which that same client sent and had registered under the id the telescope used. |
| Conservation.NeverTargeted | src/control.rs:669-755 | In every reachable state a line with an event key, without a usable id, with an id below 100,000 (as hooks inject), an id not given out, or a heartbeat's id changes no entry, reader or client; it is broadcast, unless it has an event key or an id and the hook holds it back. |
| Orphans.NoOrphan | src/control.rs:164-254 | In every reachable state the very request behind a pending id, rewritten and otherwise unchanged, is about to be enqueued by its client, in the upstream queue, or written on the current connection, or there is no live connection; this includes a message popped and lost on a write error. |
| Orphans.DrainSettles | src/control.rs:192-206 | Once a drain has begun, a pending entry is in every later state still waiting in that drain or settled by the reconnect error, by nothing else. |
| Orphans.DrainTellsExactly | src/control.rs:196-205 | The drain gives a client its reconnect error exactly if its reply queue is open and not full; otherwise the error is dropped. |
| Orphans.FinishedForGood | src/control.rs:702-732 | A settled request stays settled in the same way in every continuation of the run. |
| Orphans.LateAnswerIsBroadcast | src/control.rs:733-750 | However much later, an answer to a settled request touches no queue, entry or reader, and is broadcast exactly if the hook lets it through. |
| Progress.ProgressRelieves | src/control.rs:210-254 | Every step the proxy can take by itself, sockets accepting bytes, strictly reduces a natural-number load. |
| Progress.SomebodyMovesOn | src/control.rs:480-500 | In every state within the invariants that is not at rest some such step is enabled: the overflow branch holds the lock while it waits for its own queue, whose drainer never takes the lock. |
| Progress.NoDeadlock | src/control.rs:352-381 | From every reachable state runs of such steps are bounded by the load, and one that cannot be continued ends with the lock free, every queue worked off and every task idle. |
| Capacity.PendingWithinCap | src/control.rs:475-500 | In every reachable state at most 1,024 requests are pending. |
| Capacity.SplitExceedsAnyCap | src/control.rs:475-479 | Checking and inserting under two separate lock acquisitions has, for every number, a run that reaches exactly that many pending entries. |
| StaleAnswers.StaleAnswerIsBroadcast | src/control.rs:192-206 | The concrete run: for every request with an id and every answer to it, the client gets the reconnect error, the request is written all the same, and its answer is broadcast. |
| StaleRequests.SettledIsSentExactly | src/control.rs:192-241 | In every reachable state a request already refused, answered, drained or withdrawn can still be written to the telescope, hooks injecting no id of the proxy's kind, if and only if the upstream task runs and a client still carries the request to the upstream queue or a message with its id is there. |
| StaleRequests.ProgressWrites | src/control.rs:210-254 | From every state within the invariants, the proxy's own steps write whatever is on its way to the telescope. |
| StaleRequests.SilentIsNeverWritten | src/control.rs:461-517 | An id given out that nothing on its way carries is written in no continuation. |
| Forwarding.StepKeeps | src/control.rs:503-526 | Every step keeps the marks of the upstream queue and of everything written true to the messages of a client, in the order it issued them. |
| Forwarding.TelescopeHearsInOrder | src/control.rs:210-241 | Over every run, whatever hooks, connections and other clients do, the marked messages of a client written to the telescope are messages it issued, each at most once and in that order: notifications unchanged, requests unchanged once their own id is restored; and unless hooks inject ids of the proxy's kind, every request of the client that was written is marked. |
| Heartbeats.BeatBeforeHandshakeExactly | src/control.rs:140-159 | In every reachable state before the handshake, a heartbeat can be written while the telescope says nothing on any connection, if and only if the upstream task runs and a beat started under an earlier handshake still waits with the heartbeat task or in the upstream queue. |
| Heartbeats.BeatWithoutWordExactly | src/control.rs:186-189 | In every reachable state with a live connection, a heartbeat can be written on that connection without a further word over it, if and only if the shared handshake flag is set already, a beat of an earlier handshake waits, or a reader of an earlier connection still lives. |
| Heartbeats.OldReaderCompletesHandshake | src/control.rs:644-648 | A concrete reachable state with no beat waiting, in which the reader of the first connection completes the handshake of the second. |
| Heartbeats.BeatComesFirst | src/control.rs:186-189 | A concrete run in which a beat of the last connection is the first message on the next one, which has said nothing. |
| Transparency.StepAuthentic | src/control.rs:461-471 | Every step keeps that whatever carries an id, in a client task, the upstream queue or on the wire, says exactly what the request of that id said. |
| Transparency.StepLinks | src/control.rs:698-732 | Every fair step of the proxy, projected onto one client, keeps the private connection in step with the place of every id. |
| Transparency.Simulates | src/control.rs:461-517 | The projection of every fair run from a linked state is a run of a private connection. |
| Transparency.Transparent | src/control.rs:698-732 | For every fair run with any other clients using any ids, equal ones included, a private connection has a run in which the client sends exactly its requests and gets exactly the lines it was told, in order: its own ids, all other fields unchanged, each request answered at most once. The telescope gets the client's messages, notifications included, in the order it sent them. |
| ControlState.ControlState.Remap | src/control.rs:461-463 | Carries out the request step: a fresh id, a message that routes by it, and the original recoverable from the forwarded one. |
| ControlState.ControlState.Admit | src/control.rs:480-500 | One critical section for check and insertion: it is the register step or, at the cap, the refuse step with the overflow error. |
| ControlState.ControlState.TakeRoute | src/control.rs:669-755 | Carries out the receive step for either verdict of the hook: removes the entry an answer matches and restores its id, or leaves the map alone and broadcasts unless the hook holds the line back. |
| ControlState.ControlState.Drain | src/control.rs:192-206 | Empties the map, each entry once, with that entry's own reconnect error for that entry's own client. |
| ControlState.DrainIsRun | src/control.rs:192-206 | Whatever order the map is drained in, it is a run of the state machine after which the drain can end. |
| LineFraming.SplitIsExact | src/control.rs:614-617 | The lines and the partial rest of a stream, joined with newlines, are the stream. |
| LineFraming.SplitContinues | src/control.rs:600-617 | Splitting a stream cut at any point is splitting the first part and going on from its rest alone. |
| LineFraming.LineBuffer.Feed | src/control.rs:600-617 | One read and the inner loop produce the newline split of buffer and read, and leave its rest in the buffer. |
| LineFraming.ReadConnection | src/control.rs:585-768 | For every chunking into reads of at most 32,768 bytes the lines are those of all bytes read, the loop stops early exactly on a partial line over 1,000,000 bytes, and the buffer never exceeds 1,032,768 bytes. |
| LineFraming.LinesBounded | src/control.rs:757-768 | No accepted line is as long as 1,032,768 bytes, so a partial line beyond the maximum does not survive a read. |
| LineFraming.ShortLinesNeverOverflow | src/control.rs:757-768 | If every line and the rest have at most 1,000,000 bytes, no chunking causes a disconnection. |
| LineFraming.ReadLineLimited | src/control.rs:535-561 | In whatever pieces the stream arrives: the next segment if it fits the limit, otherwise more than the limit of its beginning; the rest stays unread, and the buffer exceeds the limit by at most one fill. |
| LineFraming.ReadClient | src/control.rs:384-400 | The accepted lines are a function of the bytes alone: the segments before the first over 1,048,576 bytes; accepted, rejected and unread bytes together are the stream. |
| LineFraming.AcceptedIsLongest | src/control.rs:393-400 | The accepted segments are a prefix of all segments, all within the limit, and the next one, if any, is over it. |
| LineFraming.SegmentsSpell | src/control.rs:535-561 | Cutting a stream into segments loses and duplicates no byte. |
| Frames.FramesAreExact | src/imaging.rs:222-291 | The frames cut from a stream and the leftover are, byte for byte, the stream. |
| Frames.FramesAreWhole | src/protocol.rs:31-44 | Every frame cut has exactly the length its header says and at most 50,000,000 payload bytes. |
| Frames.LeftoverIsNoFrame | src/imaging.rs:222-291 | What is left over does not begin with a further frame. |
| Frames.FramesInFront | src/imaging.rs:222-291 | Any sequence of whole frames, followed by anything, is cut into exactly those frames first. |
| Frames.FramesOnlyGrow | src/imaging.rs:222-291 | Bytes that arrive later never change the frames already complete. |
| Frames.ReadExact | src/imaging.rs:224-242 | Fills a buffer from any chunking or fails exactly if the stream is too short; consumes just those bytes. |
| Frames.ReadImaging | src/imaging.rs:222-291 | For every chunking the reader broadcasts exactly the frames of the byte stream, up to the first size above 50,000,000. |
| FrameFanOut.ClientSeesWholeFrames | src/imaging.rs:312-330 | Over every run of reads, mid-frame disconnections, reconnects and lags, a client's bytes are a prefix of a concatenation of whole broadcast frames, in order and without repetition; one it passed over is missing only if 32 newer ones were broadcast. |
| FrameFanOut.BroadcastIsFaithful | src/imaging.rs:222-291 | Over every run each connection's frames are a prefix of the frames of its bytes, all of them once its reader has caught up, broadcast in order and each exactly once. |
| FrameFanOut.KeepingUpMissesNothing | src/imaging.rs:38-38 | A client that never has more than 32 unread frames gets every frame since it subscribed. |
| Checksum.FoldIsResidue | src/wireguard/tunnel_discovery.rs:110-114 | Folding the carries yields the residue modulo 65,535, with zero only for zero. |
| Checksum.AccumulatorSuffices | src/wireguard/tunnel_discovery.rs:217-231 | The 32-bit sum holds the sum of any data of a given number of words exactly if there are at most 65,537 of them. |
| Checksum.ChecksumMakesSound | src/wireguard/tunnel_discovery.rs:217-231 | RFC 1071: for data of up to 131,074 bytes (the range of the 32-bit sum) with a zeroed 16-bit field at any even offset, writing the computed checksum there makes the folded sum all ones. |
| Checksum.SoundChecksumsAgree | src/wireguard/tunnel_discovery.rs:217-231 | Two checksums that make the same words sound are equal or the two one's-complement zeros. |
| Checksum.InternetChecksum | src/wireguard/tunnel_discovery.rs:217-231 | The word loop with its odd last byte and its 32-bit sum computes the checksum function. |
| Checksum.IpChecksum | src/wireguard/tunnel_discovery.rs:94-115 | The loop that skips bytes 10 and 11 computes the Internet checksum of the header with that field zeroed. |
| TunnelPackets.BuildDiscoveryResponse | src/wireguard/tunnel_discovery.rs:50-91 | Writing the packet in place gives header, UDP header and payload laid out as the format prescribes. |
| TunnelPackets.ResponseFits | src/wireguard/tunnel_discovery.rs:50-91 | Every built packet has the given addresses, destination port and payload, source port 4720, and length fields truncated to 16 bits. |
| TunnelPackets.ResponseHeaderSound | src/wireguard/tunnel_discovery.rs:75-77 | The header checksum of every built packet is sound, for every payload. |
| TunnelPackets.LengthFieldsConsistent | src/wireguard/tunnel_discovery.rs:50-91 | The IP total length is right exactly for payloads of at most 65,507 bytes, the UDP length exactly up to 65,527. |
| TunnelPackets.BuildThenParse | src/wireguard/tunnel_discovery.rs:12-45 | Parsing a built packet ignores it exactly if it does not go to port 4720, gives back sender, port 4720 and payload exactly if it does and the payload has at most 65,527 bytes, and panics exactly if the truncated UDP length is below 8. |
| TunnelPackets.CrashesExactly | src/wireguard/tunnel_discovery.rs:12-45 | Among all tunnel packets exactly those to port 4720 with a UDP length below 8 crash the handler, whatever their size and content. |
| TunnelPackets.EmptyLengthCrashes | src/wireguard/tunnel_discovery.rs:39-43 | A packet of 28 bytes with a UDP length of zero, between any addresses, is such a packet. |
| TunnelPackets.DiscoveryAnswersRequester | src/wireguard/tunnel_discovery.rs:119-150 | For device info of every size the answer goes to the requester's address and port with the whole info and a sound header; its length fields are right exactly up to 65,507 and 65,527 bytes; and what the parser makes of the answer itself is given for each case. |
| IcmpEcho.HandleIcmpEcho | src/wireguard/tunnel_discovery.rs:156-214 | Answers exactly the echo requests to the telescope's address, rewriting a copy in place. |
| IcmpEcho.EchoReplyIsCorrect | src/wireguard/tunnel_discovery.rs:156-214 | For every accepted request the reply is correct (both checksums sound, addresses exchanged, type reply, every other byte unchanged) if and only if the header allows it: at least five words, options or not; or one or two words that are sound by themselves; or three or four words such that the message region, addresses exchanged, already begins with zero and carries its own checksum. |
| IcmpEcho.HeaderChecksumSurvives | src/wireguard/tunnel_discovery.rs:194-202 | If the request's header checksum was sound, the recomputed one equals it up to the two zeros. |
| IcmpEcho.ShortHeaderBreaksReply | src/wireguard/tunnel_discovery.rs:172-211 | Every request with a header length of three or four words over an address that does not begin with zero gets an incorrect reply. |
| Dns.ParseQueryName | src/wireguard/dns.rs:16-52 | The loop terminates and computes the lower-cased dotted name of the scanned labels and the offset after type and class, or fails where the scan does. |
| Dns.ScanOfEncode | src/wireguard/dns.rs:16-52 | Labels encoded anywhere in a message are scanned back with the exact end offset. |
| Dns.EncodeOfScan | src/wireguard/dns.rs:16-52 | Whatever was scanned is what stands there, encoded: the parser invents nothing. |
| Dns.QuestionOfEncode | src/wireguard/dns.rs:16-52 | A query for any list of non-empty labels, with any header, type, class and tail, parses to the lower-cased dotted name and exact end. |
| Dns.BuildDnsResponse | src/wireguard/dns.rs:75-117 | Appends id, flags, the copied question, the pointer record and the address, or fails where parsing does. |
| Dns.ResponseKeepsQuestion | src/wireguard/dns.rs:75-117 | Parsing the response gives the same name, labels and end as parsing the query. |
| Dns.ScanAgreesWithStandard | src/wireguard/dns.rs:16-52 | The parser agrees with the name decoding of section 4.1.4 of RFC 1035 exactly if all labels have at most 63 bytes. |
| Dns.AnswerNamesQuestion | src/wireguard/dns.rs:100-102 | The answer's 0xC00C pointer decodes, by that standard, to the labels that were asked for, exactly if all of them have at most 63 bytes. |
| Dns.DnsAnswersClient | src/wireguard/dns.rs:126-186 | An intercepted query is answered from the server address it was sent to, to the port it came from, question kept, the telescope's address in the answer, header sound, source port 4720; the IP length is right exactly for answers of at most 65,507 bytes, the UDP length exactly up to 65,527. |
| RecordReplay.Recorder.RecordFrame | src/recorder.rs:102-126 | An image frame is stored unchanged under the next index and its kind, anything else is skipped; the frame count stays preview plus stack count. |
| RecordReplay.RecordAll | src/recorder.rs:102-126 | Recording a whole stream into an empty directory leaves exactly the files of its image frames. |
| RecordReplay.NamesFollowIndices | src/recorder.rs:117-117 | Below 10,000 file names sort in index order, whatever the kinds. |
| RecordReplay.NamesSorted | src/recorder.rs:117-117 | The names in index order are sorted exactly for at most 10,000 images. |
| RecordReplay.SortedIsUnique | src/replay.rs:88-104 | A set of names has only one sorted enumeration, so the order of the directory scan does not matter. |
| RecordReplay.NamesFollowDigits | src/recorder.rs:117-117 | For any two distinct indices the names sort by the digits of the indices, the end of a number coming after every digit, whatever the kinds. |
| RecordReplay.ReplayFollowsDigits | src/replay.rs:88-104 | For every live stream, however long, the replay broadcasts each image once, byte for byte, in the digit order of its index. |
| RecordReplay.ReplayOrderIsUnique | src/replay.rs:88-104 | There is only one digit order of the indices below a number. |
| RecordReplay.IndexOrderExactly | src/recorder.rs:117-117 | Index order is digit order exactly up to 10,000. |
| RecordReplay.ReplayImaging | src/replay.rs:186-230 | Broadcasts the readable files that hold at least a header, in listing order. |
| RecordReplay.ReplayRepeatsRecording | src/replay.rs:186-230 | For every live stream: the sorted listing is the recording order exactly up to 10,000 images, and then the replay is those images, byte for byte and in order. |
| RecordReplay.LastFrameJumpsAhead | src/replay.rs:88-104 | With 10,001 images the replay is exactly the first 1,000, then the last one, then the others. |
| LogRing.Metrics.PushLog | src/metrics.rs:99-124 | The ring holds the last min(n, 100) of n entries, numbered consecutively. |
| LogRing.Metrics.LogSince | src/metrics.rs:217-225 | The entries from a number on, or all of them. |
| LogRing.SseStream.Tick | src/dashboard.rs:636-642 | A tick sends exactly the entries between cursor and now that the ring still holds, and moves the cursor to now. |
| LogRing.StreamIsFaithful | src/dashboard.rs:617-642 | Over every run of pushes and ticks a stream sends entries in order, without repetition and with the right text, and misses exactly the evicted ones: entry q is sent if and only if the first tick after its push found at most q + 100 entries pushed. |
| LogRing.CompleteUnlessLate | src/dashboard.rs:617-642 | Hence it has sent all entries up to its cursor exactly if no tick came after more than 100 pushes. |
| LogRing.OvertakenIsLost | src/dashboard.rs:636-642 | With numbers taken before the lock, whatever happens next, nothing below the cursor is sent from now on. |
| LogRing.PollsShowRingExactly | src/dashboard.rs:636-642 | In every reachable state of racing pushes whose stream is in order so far, any number of further ticks and nothing else keep it in order, repeat nothing and show the whole ring, if and only if the unsent ring entries have numbers from the cursor on and stand in increasing order. |
| LogRing.RacesAreHarmlessExactly | src/metrics.rs:105-123 | In every such state: in whatever order the pushes in flight are appended, and wherever ticks come between, every tick shows the ring in order and whole, if and only if moreover at most one push is in flight and its number is at or after the cursor and above every unsent entry. |
| LogRing.UninterruptedPush | src/metrics.rs:99-124 | The second half of a push that holds the next number in order is the one-step push, whatever other pushes have begun. |
| LogRing.UninterruptedPoll | src/dashboard.rs:636-642 | On a ring in order a poll is the tick. |
| LogRing.AppendsInOrderAreOneStep | src/metrics.rs:105-123 | However pushes overlap, a run whose appends come in number order has the ring, cursor and stream of the one-step pushes. |
| LogRing.RacingPushIsOvertaken | src/metrics.rs:105-123 | Two racing pushes with a tick between them leave entry 0 in the ring and never sent. |
| LogRing.RacingPushIsRepeated | src/dashboard.rs:636-642 | Two racing pushes before the first tick are sent in the wrong order, and the next tick sends entry 1 again. |
| Discovery.DiscoveryBridge.HandlePacket | src/discovery.rs:137-238 | One turn of the receive loop sends and caches what the bridge step says, for every datagram. |
| Discovery.AnswersNeverTrigger | src/discovery.rs:163-183 | From a harmless start every response sent over every packet sequence is one the loop ignores, and any result in it carries the proxy's ip. |
| Discovery.NoEchoLoopExactly | src/discovery.rs:163-183 | Over every packet sequence no answer can trigger another, if and only if the startup info is not itself a scan request without result and code. |
| Discovery.EchoStorm | src/discovery.rs:196-209 | If it is, n echoes of the bridge's own broadcast produce n further answers, for every n. |
| Discovery.ScanAsInfoStorms | src/discovery.rs:63-73 | Startup accepts a bare scan request as device info, and n echoes then produce n answers. |
| Discovery.CacheChangesAtMostOnce | src/discovery.rs:164-180 | Over every packet sequence the cache changes at most once, and from then on the info is real or the loop has panicked. |
| Discovery.Settled | src/discovery.rs:164-180 | Once the info is real the flag never falls and the cache never changes. |
| Discovery.PanicsExactly | src/discovery.rs:164-180 | Over every packet sequence the running loop panics if and only if its info is not real yet and the first scan response from the telescope has a result that is neither object nor null. |
| Discovery.NumberResultPanics | src/discovery.rs:167-170 | A response whose result is the number 0 is such a response. |
| Discovery.StartupPanicsExactly | src/discovery.rs:63-65 | Startup panics exactly on info with such a result. |
| Discovery.ConfiguredIsSafe | src/discovery.rs:386-415 | A configured identity starts the bridge safely, keeps its serial number and carries the proxy's ip; no packet sequence replaces it, if and only if the serial number is not "proxy". |

## Left out

- The Lua engine of `src/hooks.rs`: hooks are an arbitrary decision in each request and receive step, and injection is a step of its own.
- JSON text: messages are values; printing and parsing are taken to be inverse, and unparsable lines, which the code skips, are not steps. `set_json_rpc_id` works on the value in place; the model returns a new value, which captures no aliasing.
- The 64-bit wrap of the id counter, the 32-bit wrap of the frame counter and the 64-bit bound of a routed id: all are natural numbers here.
- Tokio channels: modelled as FIFO queues with the code's capacities, and a broadcast ring that skips to the oldest retained item on lag. This is an assumption.
- Delivery of control broadcasts to the individual clients: the model records what is broadcast, not who lags.
- Timeouts, sleeps and liveness of reply delivery: only safety and the conditional no-deadlock property are claimed, since a client that stops reading can stall others.
- Transparency.Transparent: the fair runs exclude refusals and drains of the observed client's requests and the loss of its socket, because a private connection has none of them; broadcast lines, which every client's socket also gets, are not part of the private connection.
- Orphans.NoOrphan: when the upstream task has ended for good there is no later drain, and entries of clients that do not withdraw stay pending.
- IcmpEcho.EchoReplyIsCorrect: a message of more than 131,074 bytes, which no IPv4 packet can hold, is not covered.
- TunnelPackets.DiscoveryAnswersRequester: whether the payload is a scan request is a parameter.
- Dns.ParseQueryName: names are bytes with ASCII lower-casing; the code decodes labels lossily as UTF-8 and lower-cases Unicode, which agrees on ASCII labels.
- RecordReplay.ReplayRepeatsRecording: file operations succeed, the frames directory starts empty, and sorting is assumed to produce the sorted listing.
- LogRing.Metrics.PushLog: takes the number and appends in one step, as does StreamIsFaithful; the two-step push is a machine of its own, characterised by PollsShowRingExactly.
- `record_control` and `replay_control`: control lines are appended to a file and replayed in file order, with nothing to decide.
- Client lines towards the telescope in `src/imaging.rs`: they use the same limited line reader.
- `src/wireguard/mod.rs`, `src/wireguard/netstack.rs`, `src/wireguard/bridge.rs`, `src/tailscale/` and the raw pipe mode: they rest on foreign network stacks or copy bytes.
- `src/wireguard/keys.rs`, `src/wireguard/qr.rs`, `src/ntp.rs`, `src/transparent.rs`, `src/bin/`, `src/config.rs`, and the pages and rates of `src/dashboard.rs`: key files, rendering, clocks and settings.
