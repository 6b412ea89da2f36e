# A verified model of an AVR TCP/IP and HTTP stack

A small network stack in C for AVR microcontrollers answers ARP, ICMP echo, TCP and HTTP out of one
shared packet buffer. `int` and `short` have 16 bits, `long` has 32. Handlers wait for packets inside
handlers, so packet handling is mutually recursive. This project models four parts of it in Dafny and
proves what they promise.

- **TCP engine** (`TcpTypes`, `TcpSpec`, `TcpSteps`, `TcpEngine`). `TcpEngine.Stack` is the engine as it
  works: the connection table, the shared buffer, the wait and dispatch loops, connecting, sending,
  closing, and callbacks that close and send in turn. Each method is proved against value-level steps of
  the table, keeps one invariant (`TcpSpec.Inv`) and promises its waiting callers what may have changed
  (`TcpSpec.Leads`). Termination is by (sending callbacks left, slots not closing, phase of the call,
  waits left, rounds of a send left). `TcpTheorems` draws the conclusions, `TcpRuns` states them for every
  program and for one send, and `TcpWitness` exhibits, as chains of these steps, the runs in which the
  code does not do what one would expect.
- **HTTP** (`HttpSpec`, `HttpChunks`, `HttpRoundTrip`, `HttpOutput`, `HttpEngine`, `HttpOverlap`,
  `HttpServer`, `HttpClient`, `HttpTable`, `HttpWitness`). The parsers as functions and, in `HttpEngine`,
  as the code has them, one byte at a time into fixed buffers; the printers with the truncation of
  `snprintf`; the round trips between the two; who owns the single HTTP listener; and both senders, whose
  rows are read from memory that the parser writes while they wait. `HttpOverlap` says which data does that,
  `HttpWitness` runs the servers and the client into it.
- **Checksums and packets built in place** (`Checksum`, `Frame`, `Link`).
- **ARP cache** (`Arp`).

`Util` and `Addresses` hold words, bytes and the helpers of `src/util.c`.

## How the outside appears

- The Ethernet controller is an arbitrary function from polls to frames, and a log of what was sent.
  A frame is shorter than the buffer, has at least 60 bytes, and if it is a TCP segment for this
  station its lengths lie inside it and its option list is well formed (`LinkLayer.Station.WellFormed`).
  Nothing is assumed about flags, order, loss, repetition or contents.
- `NET_BUFFER_SIZE` is any number from 70 to 32767, the table has 1 to 254 slots, the HTTP limits are
  1 to 255.
- The application is a function from the number of a callback call to what that call does: it closes
  connections and sends on established ones, in any order, with any timeouts below 65535. Any finite number of
  callback calls may send. `TcpOnNewConnection` only decides.
- The data of `TcpSendData` is memory of the caller, an arbitrary function from polls to bytes: it is read
  again for every segment, and what is sent again may differ from what was sent (src/tcp.c:493).
- A connection that `TcpConnect` is still opening in a fresh slot has segment size 0, and a send on it
  cuts empty segments (src/tcp.c:480-507). It goes on for as long as they are acknowledged; the model
  follows it for `World.patience` rounds, which may be any number, and marks the send that is still going
  round then.
- A delay is one poll; a timeout is a count of polls.
- Beneath HTTP, TCP is a transport: a segment carries the bytes that stand in memory when it is sent, any
  number of them arrive, any wait may bring the acknowledgement, and in each wait any steps of the
  connection table and any data of any connection may come, which the parser then reads and may answer
  before the wait ends. `HttpTable` shows that each step of the table in `TcpEngine` is one step of the
  machine in `HttpServer`, or none; `TcpRuns.SendReliably` is what the engine promises for one send.

## Where a theorem has a condition

Some things the code is meant to do, it does not always do. The branch at fault is recorded where it is
taken, in the history of the slot or in the marks of the table, and the theorem is proved for everything
that was spared. Every mark has its cause outside (`TcpSpec.Marked`, `TcpSpec.Caused`), so each theorem also
holds for every run under a condition on frames and callbacks alone (`TcpTheorems.Unspoiled`), and a run
shows the failure. Where the branch decides, the result is an if-and-only-if.

- **Callbacks come in matched groups.** A SYN for the pair that `TcpConnect` is opening makes it a passive
  open too (src/tcp.c:579), while `TcpConnect` goes on and never looks at the state again (src/tcp.c:451,
  460). A slot keeps its groups *if and only if* `TcpConnect` never ended on it while it was ESTABLISHED
  (`LifecycleOfSlot`, `OpenKeepsLifecycleIff`); what was lost so is lost for good (`WaitKeepsLifecycleIff`).
  Run: `SimultaneousOpenBreaksLifecycle`. Cause: a bare SYN from an address and port that was dialled, to
  the port it was dialled from (`CrossedBefore`).
- **One slot answers to a packet.** This is so *if and only if* no two live records are twins
  (`OneConnectionPerPacketIff`), only `TcpConnect` writes twins, and what it writes is a twin *if and only
  if* the record is not `Apart` from the live ones (`OpenKeepsUnambiguousIff`). Run: `PairOpenedTwice`.
  Causes: such a SYN, or a `TcpConnect` that has gone through all 16384 dynamic ports.
- **Every send ends.** A part is empty *if and only if* the segment size is 0 (`TcpEngine.Stack.TcpSendNext`),
  and then the slot is still being opened (`TcpSteps.SizelessIsOpening`), which takes such a SYN. Run:
  `EndlessSend`, in which after any number of rounds the send is where it was.
- **Data arrives exactly once**, unless an OnConnect polled (`StirredBefore`): its wait reads other frames into
  the packet buffer, and the handler goes on with what it finds there (src/tcp.c:601-625). The branch at fault
  is a delivery out of such a buffer (`exact`). Run: `ForeignBytesDelivered`. The converse fails: when the peer
  then sends that very byte, all that was delivered is right (`StaleMayBeRight`).
- **A sequence number stands for one byte**, unless a `TcpSendData`, which looks at the state of its slot only
  (src/tcp.c:489), goes on after the slot was closed and reused, or sends a part again after its memory changed
  (`alone`). Runs: `SendOutlivesItsConnection`, `PartSentAgain`. The converse fails: in both runs the bytes
  differ *if and only if* the second byte, which is a parameter, is another one than the first. Causes: a
  FIN or a callback closed a connection (`HungBefore`), or a caller changed its memory (`LooseBefore` for
  callbacks, the mark `loose` for the main program).

Two more concern HTTP, whose buffers are shared between parser and printer. Here the condition on a
single chunk is exact, and it is on the bytes.

- A response goes out as printed as long as the client's data is harmless: it is awaited, and nothing of
  it gets into the URL, in whose buffer the rows are printed. In every parser state that a response can
  meet, that is so *if and only if* the bytes are the beginning of a method in capitals, at most ten, or
  such a method with an empty URL behind it and a rest that is awaited, or, once that URL is over, awaited
  (`HttpOverlap.HarmlessIff`, `InterruptingStays`). Every response and refusal moves the state to
  START_REQUEST before it is sent (src/http.c:191), so a late line break is answered by a 400 in the
  middle of the response (`HttpWitness.LateBreakRun`), and a pipelined request overwrites the row that is
  being sent (`HttpWitness.PipelinedRun`). Both run the server from an empty table and end with a client
  that has got something else than a prefix of the response.
- A request goes out as printed as long as no byte of a status code has come
  (`HttpClient.AnswerTouchesIff`); an early refusal overwrites the row, and the server gets a digit of its own
  status in place of the first byte of the method (`HttpWitness.EarlyRefusalRun`).

## What else the proofs brought to light

- Data is located after the acknowledgement has overwritten the header, so `OnIncomingData` gets the
  payload of every acceptable segment with a data offset if and only if that offset is 5.
- A stored TCP checksum of 0xFFFF is always refused, although it can be a correct one.
- A body longer than its Content-Length is completed or not depending on where TCP cuts it. This is the
  only thing chunking can change.
- The length checks before a response row is printed allow for the text but not for the terminating
  zero: with a five-digit number exactly at the limit the last byte of the row is lost.
- The ARP cache overwrites the row with the largest use counter, despite the variable name
  `minUseCacheId` (src/arp.c:204). Agreement with what was learned last does not depend on it. What
  is learned is the link address of whoever answers; the protocol address in the reply is not looked
  at (src/arp.c:215-221).
- README.md:251 says that data caught by a synchronous wait never reaches `OnIncomingData`; the wait
  passes it to the handler all the same (src/tcp.c:377-379), and the model follows the code.

## Model

| member | source | states |
|---|---|---|
| TcpTheorems.ExactlyOnceInOrder | src/tcp.c:570-625 | In every run in which no bare SYN came from an end that was dialled to the port it was dialled from, and no OnConnect had anything to close or to send, over a network that loses, repeats and reorders the segments of one stream shorter than 2^32 bytes: what OnIncomingData was given on a connection is a prefix of that stream, and the next expected number counts it (mod 2^32) |
| TcpTheorems.Unspoiled | src/tcp.c:570-627 | Every slot is spared, in all senses, and every send ends, unless frames or callbacks gave the cause: a bare SYN from a dialled end to the port it was dialled from, an OnConnect that had something to close or to send, a FIN or a callback that closed a connection, memory that changed while it was sent |
| TcpTheorems.Unmarked | src/tcp.c:421-627 | What spoiled a slot is marked where it happened: a SYN that hit the slot being opened, an OnConnect that polled, a close by a FIN or a callback, a part sent again with other bytes, a twin written by TcpConnect |
| TcpTheorems.SendsEnd | src/tcp.c:478-507 | A send goes round without end only if such a SYN came, and only for as long as acknowledgements come: one that is still going round after any number of rounds has had more acknowledgements than that |
| TcpTheorems.DeliveryOfSlot | src/tcp.c:570-625 | The same for every single connection that was spared: no SYN hit its slot while it was being opened, and nothing was delivered to it out of a buffer used again, whatever callbacks did; the stream begins right after the SYN of the peer |
| TcpTheorems.SeenIsPrefix | src/tcp.c:237-244 | Frames accepted under the expected number, one after the other, concatenate to a prefix of the stream they were cut from |
| TcpTheorems.DuplicateIsOnlyAcknowledged | src/tcp.c:617-625 | A segment whose number lies among the bytes already delivered, whenever it comes again, is acknowledged and changes nothing, whatever callbacks ran since |
| TcpTheorems.ReliableSend | src/tcp.c:470-509 | When the acknowledgement of an honest peer equals the send sequence, the peer holds exactly everything written: nothing is missing, doubled or altered |
| TcpTheorems.SenderUnlessClosed | src/tcp.c:470-509 | Every established connection can be relied on for sending, in every run in which no such SYN came, no FIN and no callback closed a connection, and no caller changed the memory it sent from |
| TcpTheorems.HeldIsPrefix | src/tcp.c:470-509 | At every moment a peer that takes bytes only from transmitted segments holds a prefix of the written stream, whatever was cut, retransmitted or acknowledged late |
| TcpTheorems.SameNumberSameByte | src/tcp.c:486-504 | Two segments sent on a connection never carry different bytes under one sequence number, unless a send outlived an earlier connection of the slot or a part was sent again from memory that had changed |
| TcpTheorems.EndToEnd | src/tcp.c:359-625 | With this code at both ends of such a network, and the handshake between them: both streams begin at number 3, the receiver callback has a prefix of what the sender wrote, every acknowledgement is honest, and once the receiver expects the send sequence both are equal |
| TcpTheorems.NetworkStreams | src/tcp.c:166-214 | A network that only delivers transmitted frames, perhaps padded, is for the receiver a peer that streams what was written |
| TcpTheorems.CallbackLifecycle | src/tcp.c:550-613 | In every run in which no bare SYN came from an end that was dialled to the port it was dialled from, the callbacks of every slot match (OnConnect OnIncomingData* OnDisconnect)* with at most one unfinished group, and a group is open exactly while the slot is ESTABLISHED, even when callbacks disconnect and send |
| TcpTheorems.LifecycleOfSlot | src/tcp.c:550-613 | At every moment that holds of a slot if and only if TcpConnect never ended on it while it was ESTABLISHED |
| TcpTheorems.OpenKeepsLifecycleIff | src/tcp.c:445-461 | TcpConnect, whether it succeeds or gives up, keeps the callbacks of its slot in groups if and only if the slot is not ESTABLISHED when it ends: the guard that is missing before lines 451 and 460 |
| TcpTheorems.WaitKeepsLifecycleIff | src/tcp.c:359-388 | Whatever is received, closed or sent while a call waits, a slot has its callbacks in groups afterwards if and only if it had before: what was lost is never regained |
| TcpTheorems.DyeingSlotsAreKept | src/tcp.c:396-413 | Every call that waits returns with the DYEING slots it found; they are owned by pairwise different closes under way, at most as many as there are slots |
| TcpTheorems.OneConnectionPerPacket | src/tcp.c:293-351 | At most one live slot answers to any packet, unless a bare SYN came from a dialled end to the port it was dialled from, or TcpConnect has gone through all dynamic ports |
| TcpTheorems.OneConnectionPerPacketIff | src/tcp.c:293-332 | No two slots answer to one packet if and only if no two live records agree in ports and addresses; for two that do, there is a packet to which both answer |
| TcpTheorems.OpenKeepsUnambiguousIff | src/tcp.c:421-451 | Taking a slot, filling in its link address and completing the open: each keeps all live records different if and only if the record it writes differs from the other live ones, which the code does not check |
| TcpTheorems.LivePacketStaysInItsSlot | src/tcp.c:325-351 | A packet of a live connection allocates no slot, and its handling leaves every other connection as it is up to the point where a callback runs or a close waits |
| TcpTheorems.ReactionStays | src/tcp.c:570-627 | What a packet does to its slot it does to no other, up to the point where a callback runs or a close waits |
| TcpRuns.Run | src/network.c:31-38 | Every program of turns, opens, sends and closes, from initialisation, over every supply of frames and with every application, ends with: no close under way; matched callbacks; what was delivered a prefix of the stream of the peer; what an honest peer holds a prefix of what was written; an unambiguous table - each unless something marked happened that is at fault, and each mark has a cause in the frames, the callbacks, and what the program itself dialled and sent. Sends on a connection without segment size are followed for any given number of rounds |
| TcpRuns.SendReliably | src/tcp.c:470-509 | One call of TcpSendData, if its connection is not closed meanwhile, nothing else is sent on it, and the memory does not change: an honest peer then holds at most what was written before and the data, whatever the result; and when the call returns 1, the stream of a peer that acknowledged honestly has grown by exactly the data |
| TcpRuns.PromisesKept | src/tcp.c:570-627 | The invariant and no close under way give all of these promises, from the marks and their causes |
| TcpRuns.StillSender | src/tcp.c:470-509 | A send that nothing disturbed, from memory that did not change, leaves a connection on which sending can be relied on |
| TcpWitness.CallbackSeesPayloadIffNoOptions | src/tcp.c:617-625 | In every valid world, the slice a handler passes on is the payload of every acceptable segment of a data offset if and only if that offset is 5: the data is located after the answer has overwritten the header |
| TcpWitness.OptionsSeen | src/tcp.c:617-625 | For every larger offset, an acceptable frame of at least 60 bytes of which the callback is given another byte than was sent |
| TcpWitness.SummedFields | src/tcp.c:222-229 | The frames of the witnesses have the fields they are built from, correct checksums and at least 60 bytes |
| TcpWitness.SimultaneousOpenBreaksLifecycle | src/tcp.c:570-602 | A SYN, an ACK and a SYN-ACK of the peer that TcpConnect is dialling: OnConnect is called twice in a row |
| TcpWitness.ForeignBytesDelivered | src/tcp.c:598-625 | Steps from the empty table after which a byte of one connection has been delivered as data of another, because OnConnect closed the first while the handshake of the second was handled |
| TcpWitness.StaleMayBeRight | src/tcp.c:598-625 | Such a delivery need not be wrong: when the second peer then sends that byte under that number, what was delivered is a prefix of whatever it streams, and still the slot is marked |
| TcpWitness.SendOutlivesItsConnection | src/tcp.c:488-504 | Steps from the empty table after which two segments of one connection have gone out under one number with different contents, the second being any byte: a send went on after its connection was closed and opened again. IP identifiers are arbitrary |
| TcpWitness.PartSentAgain | src/tcp.c:486-504 | The same without any close, because the memory of the caller changed between a transmission and its repetition; the slot is marked if and only if the bytes differ |
| TcpWitness.EndlessSend | src/tcp.c:478-507 | A SYN and an ACK of the peer that TcpConnect is dialling, and an OnConnect that sends: after any number of empty segments, each acknowledged by the same frame, the send is where it was |
| TcpWitness.PairOpenedTwice | src/tcp.c:421-434 | Steps from the empty table after which one packet matches two slots, because a peer connected to the port that TcpConnect uses next |
| TcpSpec.PhaseMeans | README.md:153-183 | The running phase of a callback trace is unbroken exactly when every call follows one it may follow |
| TcpSpec.ClosingBounded | src/tcp.c:396-413 | Nested closes own different slots, so their depth is at most TCP_MAX_CONNECTIONS |
| TcpSpec.InnermostClose | src/tcp.c:396-413 | The innermost close owns a DYEING slot |
| TcpSpec.AcksGrow | src/tcp.c:359-388 | The acknowledgements that came are counted: their number never falls, and grows past every poll that brought one |
| TcpSpec.CutFromSteady | src/tcp.c:482-493 | Parts cut one after the other from memory that does not change are a prefix of it |
| TcpSpec.StaysOutOfClosing | src/tcp.c:359-388 | A slot that is not closing is not found closing after a wait |
| TcpSpec.LeadsTransitive | src/tcp.c:359-388 | What a call may rely on over one wait it may rely on over many |
| TcpSpec.FirstMatch | src/tcp.c:325-332 | The first slot whose ports and addresses match the packet |
| TcpSpec.FirstEmpty | src/tcp.c:309-317 | The first free slot |
| TcpSteps.AnnouncedMssFits | src/tcp.c:347-349 | Whatever segment size the peer announces, the one used is at least 1 and at most TCP_MAX_SEGMENT_SIZE |
| TcpSteps.NotedStep | src/tcp.c:570-579 | Remembering that a SYN hit the slot being opened keeps the invariant; the SYN came from the end that was dialled, to the port it was dialled from |
| TcpSteps.AcceptStep | src/tcp.c:333-350 | Opening a slot for a SYN keeps the invariant, the table unambiguous, and every other slot |
| TcpSteps.AwaitingStep | src/tcp.c:579-597 | Dropping, refusing or answering a SYN keeps the invariant and every other slot |
| TcpSteps.EstablishStep | src/tcp.c:598-602 | Completing a passive handshake keeps the invariant: one more OnConnect, both streams empty; what OnConnect then does costs the slot nothing yet, and is marked if it polls |
| TcpSteps.DeliverStep | src/tcp.c:617-625 | Delivering the expected segment keeps receiver, trace and expected number in step; only a delivery out of a buffer that was used again marks the slot |
| TcpSteps.BeginCloseStep | src/tcp.c:550-562 | Starting a close keeps the invariant and takes a slot no other close owns |
| TcpSteps.EndCloseStep | src/tcp.c:411-412 | Ending the innermost close keeps the invariant |
| TcpSteps.CloseLeads | src/tcp.c:550-562 | A whole close, with all that happened inside it, leaves every other slot as a wait may leave it |
| TcpSteps.DyeingStep | src/tcp.c:604-613 | A closing slot may move its sequence numbers without harm |
| TcpSteps.BeginOpenStep | src/tcp.c:421-434 | Taking a slot for TcpConnect keeps the invariant; a record that is the twin of a live one is marked |
| TcpSteps.ApartIff | src/tcp.c:421-451 | Writing a live record into a table without twins keeps it so if and only if the record is apart from the others |
| TcpSteps.TwinCaused | src/tcp.c:421-434 | A record that TcpConnect writes is a twin only if a bare SYN came from the dialled end to that port, or all dynamic ports have been used |
| TcpSteps.RewriteCaused | src/tcp.c:435-451 | The records that TcpConnect writes later, with the link address and on success, have the same causes |
| TcpSteps.AbortOpenStep | src/tcp.c:459-461 | Giving the slot back keeps the invariant; if the slot was ESTABLISHED, it has lost its callback order for good |
| TcpSteps.EndOpenStep | src/tcp.c:445-453 | Completing an active open keeps the invariant: one more OnConnect and both streams empty, or, if the slot was ESTABLISHED already, the callback order lost for good |
| TcpSteps.WriteStep | src/tcp.c:482-487 | Cutting the next part keeps every segment sent a slice of the written stream |
| TcpSteps.TransmitStep | src/tcp.c:492-496 | So does sending the part again; with other bytes it marks the slot, and memory that changes has caused it |
| TcpSteps.CutStep | src/tcp.c:482-487 | The step of TcpSendData before it sends touches no other slot |
| TcpSteps.StrayStep | src/tcp.c:482-487 | A send that goes on after its connection was closed keeps the invariant and marks the slot, and a FIN or a callback has caused it |
| TcpSteps.WriteNowhereStep | src/tcp.c:482-487 | A send on a slot that is not established moves only its send sequence, and keeps the invariant |
| TcpSteps.StuckStep | src/tcp.c:478-507 | Giving up on a send that still goes round keeps the invariant, since a SYN has crossed and more acknowledgements came than rounds |
| TcpSteps.SizelessIsOpening | src/tcp.c:482-485 | An established connection without segment size is still being opened |
| TcpSteps.SenderFacts | src/tcp.c:470-487 | An established connection has a send sequence that counts the written bytes and a usable segment size |
| TcpSteps.SegmentIsSlice | src/tcp.c:492-496 | The frame built for a part carries it under the sequence number of its place in the stream |
| TcpEngine.Stack.constructor | src/tcp.c:72-77 | All slots free, no callback made, the ARP cache empty, and the invariant established |
| TcpEngine.Stack.TcpGetEmptyConnectionId | src/tcp.c:309-317 | The first free slot, or the invalid id exactly when there is none |
| TcpEngine.Stack.TcpFindConnection | src/tcp.c:325-332 | The first slot the packet belongs to, or the invalid id exactly when there is none |
| TcpEngine.Stack.TcpGetMaxSegmentSize | src/tcp.c:347-349 | The announced segment size, the maximum for none or zero, never more; for an option list that does not end, only the bounds |
| TcpEngine.Stack.TcpOpenSlot | src/tcp.c:333-350 | The slot is filled from the SYN; everything else stays |
| TcpEngine.Stack.TcpGetConnectionId | src/tcp.c:325-351 | The live slot of a packet with the table untouched, or a slot opened for a bare SYN, or none |
| TcpEngine.Stack.TcpSendAck | src/tcp.c:237-244 | The expected number moves exactly for the expected segment, an acknowledgement of the new number goes out either way, and the payload in the buffer survives |
| TcpEngine.Stack.TcpHandleSyn | src/tcp.c:579-597 | A SYN is accepted, dropped or refused as the application decides, with exactly the answer that calls for |
| TcpEngine.Stack.TcpAnswerSyn | src/tcp.c:594-595 | The slot awaits its handshake and exactly one SYN-ACK goes out |
| TcpEngine.Stack.TcpRefuse | src/tcp.c:586-592 | A rejected SYN is answered by an ICMP error that quotes the start of the SYN itself |
| TcpEngine.Stack.TcpHandlePayload | src/tcp.c:614-625 | Data goes to the application once, under the expected number, as it stands in the buffer, also after OnConnect has waited and the buffer holds another frame; anything else is only acknowledged |
| TcpEngine.Stack.TcpDeliver | src/tcp.c:617-625 | One callback call with these bytes, and nothing else if the callback does nothing |
| TcpEngine.Stack.TcpHandleData | src/tcp.c:603-625 | FIN, data or neither: table, callbacks and frames sent are those of the reaction function, on the frame that came or on whatever the buffer holds |
| TcpEngine.Stack.TcpHandleFin | src/tcp.c:604-613 | A FIN closes an open connection, is acknowledged on a closing one, and hides the data behind it |
| TcpEngine.Stack.TcpShut | src/tcp.c:550-562 | The connection leaves ESTABLISHED before its one OnDisconnect, and is gone when the call returns |
| TcpEngine.Stack.RunCallback | src/tcp.c:550-562 | Callbacks that close and send, in any order and nested in one another, also on a connection without segment size, keep the invariant and what the waiting callers rely on; one in which no action closes an established connection or sends on one changes nothing, every other one polls |
| TcpEngine.Stack.TcpDisconnect | src/tcp.c:550-562 | Succeeds exactly for an established slot, which then has one more OnDisconnect and is free; otherwise nothing changes |
| TcpEngine.Stack.TcpSendFin | src/tcp.c:397-411 | At least one FIN goes out first, and the loop ends after at most timeout + 1 waits |
| TcpEngine.Stack.TcpClose | src/tcp.c:396-413 | FIN under the old send sequence, acknowledgement under the next; the slot is freed and its close is no longer under way |
| TcpEngine.Stack.TcpTakeAwaited | src/tcp.c:374-379 | An awaited segment that carries data or FIN is also handled as a received one; whatever an awaited SYN-ACK carries, nothing more comes of it |
| TcpEngine.Stack.TcpTakeRest | src/tcp.c:377-379 | The nested handler leaves table and buffer alone when the slot is still being opened |
| TcpEngine.Stack.TcpNoteNumber | src/tcp.c:374-376 | The number of an awaited SYN-ACK is noted in the record, and nothing else |
| TcpEngine.Stack.TcpWaitPacket | src/tcp.c:359-388 | Success means the awaited packet of this connection came with a correct checksum, flags, sequence number and acknowledgement; all other packets were handled on the way |
| TcpEngine.Stack.EthWaitPacket | src/ethernet.c:125-148 | Ends after at most 10 (timeout + 1) polls; a packet returned has the type asked for and our address, and is still in the buffer |
| TcpEngine.Stack.NetHandleIncomingPacket | src/network.c:40-71 | Whatever the packet is, handling it terminates and keeps the invariant and what waiting callers rely on; a packet that is not TCP leaves the table as it is |
| TcpEngine.Stack.TcpHandleIncomingPacket | src/tcp.c:570-627 | Terminates for every supply of frames, sends on a connection without segment size being followed for any given number of rounds; table, callbacks and frames sent are those of the reaction function until a callback closes or sends something or a close waits, and a connection it closes is closed when it returns |
| TcpEngine.Stack.TcpHandleSlot | src/tcp.c:578-625 | The same once the slot is known |
| TcpEngine.Stack.TcpHandleHandshake | src/tcp.c:598-625 | The ACK of a passive handshake and whatever it carries with it |
| TcpEngine.Stack.TcpEstablish | src/tcp.c:598-602 | ESTABLISHED with the acknowledged number before OnConnect is called; an OnConnect that will poll is marked |
| TcpEngine.Stack.NetHandleNetwork | src/network.c:31-38 | One turn of the main loop keeps the invariant, and without a TCP packet changes nothing but the count of polls |
| TcpEngine.Stack.TcpSendPart | src/tcp.c:488-504 | The first transmission is byte for byte the segment of the part; success on the same incarnation means the peer acknowledged everything sent, and each success takes an acknowledgement of its own |
| TcpEngine.Stack.TcpTransmit | src/tcp.c:492-496 | Every (re)transmission goes out under the number of its part with the bytes that the memory holds then; bytes other than the part mark the slot |
| TcpEngine.Stack.TcpNoteSent | src/tcp.c:492-496 | A segment that carries the part is a slice of the written stream; one that carries other bytes, or goes out on a later connection of the slot, is marked with its cause |
| TcpEngine.Stack.TcpCut | src/tcp.c:482-487 | The send sequence moves by the part, which is within the segment size |
| TcpEngine.Stack.TcpSendNext | src/tcp.c:478-507 | One part is cut from the memory as it stands, noted as written, and sent until acknowledged or given up; it is empty if and only if the segment size is 0, and is acknowledged then only on a slot that is still being opened |
| TcpEngine.Stack.TcpSendOnce | src/tcp.c:488-504 | One turn of the inner loop: the part goes out when due, as the memory holds it then, and still stands at its place in the stream after the wait, whatever was sent inside |
| TcpEngine.Stack.TcpAwaitAck | src/tcp.c:497-503 | One wait, after which the part still stands; success counts one more acknowledgement |
| TcpEngine.Stack.TcpSendData | src/tcp.c:470-509 | For every timeout below 65535, also inside callbacks, and for memory that may change: the parts it cut are within the segment size, follow one another through the memory, and exactly they were appended to the written stream; success means they cover all of the data and, if nothing else was sent on the connection, that the peer acknowledged everything; no other slot is disturbed. Parts are nonempty and the send ends unless its slot is still being opened; there it is followed for any given number of rounds and then marked |
| TcpEngine.Stack.TcpSendAll | src/tcp.c:478-508 | The outer loop, over (bytes left, empty rounds left): it is abandoned only after more empty rounds than the given number, each of them acknowledged |
| TcpEngine.Stack.ArpWhoIs | src/arp.c:189-231 | The lookup as the cache model has it, although other packets are handled while the reply is awaited |
| TcpEngine.Stack.TcpSendSyn | src/tcp.c:439-459 | A SYN goes out first, and at most timeout + 1 waits follow; success means the SYN-ACK of the right acknowledgement came |
| TcpEngine.Stack.TcpBeginOpen | src/tcp.c:421-434 | The record of the new connection, and the rotation of the local port through 49152 to 65535; what was dialled is noted |
| TcpEngine.Stack.TcpAbortOpen | src/tcp.c:459-461 | The slot is free again |
| TcpEngine.Stack.TcpNameSlot | src/tcp.c:435-438 | The link address is filled in; if that makes the record a twin of a live one, that is marked |
| TcpEngine.Stack.TcpFinishOpen | src/tcp.c:447-451 | The peer's number plus one, its segment size as read from the buffer, an acknowledgement, then ESTABLISHED |
| TcpEngine.Stack.TcpResolve | src/tcp.c:435-441 | The link address is filled in and the SYN takes one sequence number |
| TcpEngine.Stack.TcpHandshake | src/tcp.c:442-461 | Established by a real SYN-ACK, or the slot given back |
| TcpEngine.Stack.TcpConnect | src/tcp.c:421-461 | Success: the first free slot is a fresh established connection to the pair asked for with one OnConnect; failure: that slot is free; either way every other slot is as a wait may leave it |
| Frame.PayloadLength | src/tcp.c:85-116 | The 16-bit signed length computation gives the length of the payload of every well-sized segment |
| Frame.PseudoHeaderSum | src/tcp.c:156-158 | The region and start value the code sums give the same sum as RFC 793's pseudo header followed by the segment |
| Frame.TcpAcceptsIsStandard | src/tcp.c:222-229 | Verification accepts a well-sized packet if and only if the standard's pseudo-header test sums to 0xFFFF and the stored field is not 0xFFFF |
| Frame.TcpGetOptionPosition | src/tcp.c:252-268 | On any well-formed option list: the first option of the kind, or 0 |
| Frame.FirstOptionMeans | src/tcp.c:252-268 | 0 exactly when no option has the kind, otherwise an option of the kind that none of it precedes |
| Frame.HeadTcp | src/tcp.c:222-268 | Bytes behind the received frame change neither acceptance, options nor data |
| LinkLayer.SegmentPayload | src/tcp.c:166-214 | Every packet TcpSendPacket builds yields its payload back at the receiver and passes the standard checksum test |
| LinkLayer.StoredTcpChecksum | src/tcp.c:201-212 | Storing the checksum of the zeroed packet makes it acceptable |
| LinkLayer.StoredIpChecksum | src/ip.c:90-96 | The same for an IP header, which then sums to 0xFFFF |
| LinkLayer.Link.PacketReceive | src/network.c:31-36 | The frame lies at the start of the buffer, the rest of the buffer is as before |
| LinkLayer.Link.EthGenerateHeader | src/ethernet.c:58-63 | Destination, own address and type, nothing else written |
| LinkLayer.Link.IpGenerateHeader | src/ip.c:61-97 | All fields of RFC 791 in place, the header sums to 0xFFFF, the identifier advances modulo 2^16, no byte outside the header changes |
| LinkLayer.Link.TcpSetSequence | src/tcp.c:124-134 | Both numbers in network order, nothing else written |
| LinkLayer.Link.TcpSetPort | src/tcp.c:142-148 | Both ports in network order, nothing else written |
| LinkLayer.Link.TcpChecksum | src/tcp.c:156-158 | The checksum over addresses, header and data with protocol and length |
| LinkLayer.Link.TcpPutOptions | src/tcp.c:168-183 | Data offset 6 and the segment size option on a SYN, data offset 5 otherwise |
| LinkLayer.Link.TcpSendPacket | src/tcp.c:166-214 | The frame handed to the controller is, byte for byte, the segment of the connection record with both checksums correct, odd or even data, SYN or not; without SYN the payload area of the buffer is untouched |
| LinkLayer.Link.TcpVerifyChecksum | src/tcp.c:222-229 | Leaves the buffer as it was and answers exactly whether the packet is acceptable |
| LinkLayer.Link.ArpPacketIsArp | src/arp.c:150-161 | Type, opcode and our address |
| LinkLayer.Link.ArpGeneratePacket | src/arp.c:100-118 | The RFC 826 body with our addresses as the sender; the opcode is left alone |
| LinkLayer.Link.ArpSendPacket | src/arp.c:125-180 | One 42-byte ARP packet with all its fields; for a reply the requester is read before it is overwritten |
| LinkLayer.Link.IcmpGeneratePacket | src/icmp.c:67-78 | Type, code and a checksum that makes the message sum to 0xFFFF; the data is untouched |
| LinkLayer.Link.IcmpSendReply | src/icmp.c:117-133 | Exactly echo requests are answered, the data unchanged, the message correct for up to 255 data bytes |
| LinkLayer.Link.IcmpSendUnreachable | src/icmp.c:140-149 | The payload is the first min(total length, 28) bytes of the refused IP packet as received, and both checksums are correct |
| Checksum.SoftwareChecksum | src/ethernet.c:92-113 | For every buffer and 16-bit length the 32-bit accumulator never overflows, both loops end, and the result is the complement of the folded sum |
| Checksum.FoldIsOnesSum | src/ethernet.c:106-110 | Folding the wide sum at the end is RFC 1071's addition with an end-around carry after every word |
| Checksum.Sum16IsOnesComplement | src/ethernet.c:92-113 | The result is the one's complement of RFC 1071's sum, an odd byte padded with zero |
| Checksum.Sum16Negates | src/ethernet.c:92-113 | The result is minus the sum modulo 65535 |
| Checksum.StoredChecksumVerifies | src/ethernet.c:92-113 | Recomputing after the result was stored in a zeroed even field gives 0 |
| Checksum.RecomputeVersusTest | src/tcp.c:222-229 | Recompute-and-compare agrees with the receiver's test of RFC 1071 except for a stored 0xFFFF |
| Arp.RunAgrees | src/arp.c:189-231 | Over every run of lookups from ArpInit the live rows have distinct addresses and agree with the plain map of what was learned last |
| Arp.HitIsLastLearned | src/arp.c:189-214 | A hit returns the address most recently learned |
| Arp.LookupAgrees | src/arp.c:189-231 | One lookup keeps the agreement, whichever row is overwritten |
| Arp.RepeatedLookupHits | src/arp.c:189-231 | A lookup repeated right after a success hits, with the same answer |
| Arp.AgedAgrees | src/arp.c:194-207 | Ageing and the saturating +2 never make a row stale or two rows live for one address |
| Arp.ArpCache.constructor | src/arp.c:85-92 | All rows free |
| Arp.ArpCache.Search | src/arp.c:194-210 | The first live row of the address is used, all others age, and the row chosen for overwriting is the one with the largest counter |
| Arp.ArpCache.Store | src/arp.c:219-224 | The row now holds the address; a free row starts with counter 2 |
| Arp.ArpCache.WhoIs | src/arp.c:189-231 | Table and answer after a whole lookup |
| Util.ParseLong | src/util.c:43-61 | Succeeds exactly on nonempty digit strings, with the decimal value modulo 2^32 although number and weight both wrap |
| Util.DecimalFront | src/util.c:43-61 | Reading right to left with growing weights is reading left to right |
| Util.Digits | src/http.c:218 | The printed digits of a number have that decimal value |
| Util.DigitsLength | src/http.c:195-206 | A 16-bit number prints in at most five digits, in five exactly from 10000 on |
| Util.LongBytes | src/tcp.c:124-134 | The four stored bytes read back as the number |
| HttpChunks.ResponseChunkingInvariant | src/http.c:396-437 | Fed in any chunks, a response leaves the state, the stored fields and the first error that it leaves when fed at once, a cut at the end of the header included |
| HttpChunks.ResponseChunkingIff | src/http.c:396-437 | That holds for all cuts of a stream if and only if no more bytes follow the header than it announces |
| HttpChunks.ExcessCut | src/http.c:431-434 | The cut that shows it: an overlong body completes when cut after the announced bytes and never when it comes at once |
| HttpChunks.RequestChunkingInvariant | src/http.c:662-717 | Fed in any chunks, a request is awaited, refused with a status, or served, as when it is fed at once |
| HttpChunks.RequestChunkingIff | src/http.c:662-717 | That holds for all cuts if and only if the body is no longer than announced, or the method has no body |
| HttpChunks.ExcessRequestCut | src/http.c:700-705 | The cut that shows it |
| HttpChunks.ServedByLastChunk | src/http.c:709-717 | The application is called at most once, and by the last chunk |
| HttpChunks.ScanResponseAppend | src/http.c:399-412 | The header loop over two pieces is the loop over the first and then, if the header goes on, over the second |
| HttpChunks.ScanRequestAppend | src/http.c:663-677 | The same for requests |
| HttpRoundTrip.ResponseRoundTrip | src/http.c:187-227 | The bytes of a response, in any chunks, parse to END_MESSAGE with the same code, message and body, and the header rows followed by Content-Length, for CRLF, LF and CR |
| HttpRoundTrip.RequestRoundTrip | src/http.c:502-554 | The bytes of a request, in any nonempty chunks, reach the application exactly once, with the last chunk, with the same method, URL, rows and body |
| HttpRoundTrip.RunAllRows | src/http.c:137-179 | All nonempty rows are stored with their raw breaks and none of them ends the header |
| HttpRoundTrip.RunStoredRows | src/http.c:137-179 | The same with the Content-Length row behind them |
| HttpRoundTrip.BlankLineInResponse | src/http.c:137-166 | A blank line ends the header for LF, CR and CRLF alike and leaves the rest for the body |
| HttpRoundTrip.BlankLineInRequest | src/http.c:137-166 | The same in a request |
| HttpRoundTrip.LengthRowFound | src/http.c:461-494 | Behind rows that do not mention it, the printed Content-Length row is found and its value cut out exactly |
| HttpRoundTrip.ValueOfRow | src/http.c:461-494 | The value of the first row with a name is what was printed behind colon and space |
| HttpRoundTrip.DigitsParse | src/http.c:417-425 | ParseLong inverts the printed length |
| HttpRoundTrip.RunStatusRow | src/http.c:313-367 | The printed first row brings the parser to the header rows with code and message read back |
| HttpRoundTrip.TakeRequestRow | src/http.c:236-291 | The printed first row brings the parser to the header rows with method and URL read back |
| HttpRoundTrip.ScanOfResponse | src/http.c:398-412 | Fed at once, the header of a response ends in the right place with everything stored |
| HttpRoundTrip.ScanOfRequest | src/http.c:663-677 | The same for a request |
| HttpOutput.ResponseIsCompleteIff | src/http.c:193-218 | A response that passes the length checks goes out untruncated if and only if a five-digit code or length is not exactly at the limit, where the checks forget the terminating zero |
| HttpOutput.RequestIsCompleteIff | src/http.c:509-542 | The same for a request, whose first row is never truncated |
| HttpOutput.PrintedResponseRoundTrip | src/http.c:187-227 | What HttpSendResponse really prints is read back by the response parser, in any chunks |
| HttpOutput.PrintedRequestRoundTrip | src/http.c:502-554 | What HttpSendRequest really prints is read back by the request parser, in any chunks |
| HttpOutput.RefusalRoundTrip | src/http.c:236-304 | The status of a refusal reaches the client as an empty response |
| HttpOutput.Print | src/http.c:206-208 | The C string in the buffer after snprintf is the text cut to one less than the limit |
| HttpOutput.CharsCat | src/util.c:69-72 | The text so far followed by the new one |
| HttpEngine.HttpMessage.PutChar | src/http.c:102-112 | Leading breaks are dropped, a full buffer refuses, otherwise the byte is appended |
| HttpEngine.HttpMessage.PutData | src/http.c:120-128 | The part of the chunk behind the header is appended to the body |
| HttpEngine.HttpMessage.ParseHeader | src/http.c:137-179 | One byte of the header sub-machine; the terminating zero is written in bounds and the body starts empty |
| HttpEngine.HttpMessage.ParseHeaderValue | src/http.c:461-494 | The value in the first row with the name, or none |
| HttpEngine.HttpMessage.CutAtBreak | src/http.c:487-492 | The value stops before the first break |
| HttpEngine.HttpResponse.ParseResponseHeader | src/http.c:313-373 | One byte of a response: state, stored fields and error as specified, every write in bounds for every byte stream |
| HttpEngine.HttpResponse.ParseCode | src/http.c:327-347 | The code digits, in the status buffer, are parsed at the space; more than 65535 is an error |
| HttpEngine.HttpResponse.ParseStatusMessage | src/http.c:349-367 | The message is stored with its terminating zero in bounds |
| HttpEngine.HttpResponse.ParseRow | src/http.c:369-371 | A header row byte goes through the shared sub-machine; the stored status message survives |
| HttpEngine.HttpResponse.ScanHeader | src/http.c:398-412 | The header loop stops behind the end of the header or at the first error |
| HttpEngine.HttpResponse.ParseResponse | src/http.c:396-437 | One chunk of a response: result and whole state as specified |
| HttpEngine.HttpResponse.ContentLength | src/http.c:415-426 | The announced length, 0 when it is absent, malformed or too long |
| HttpEngine.HttpResponse.ParseResponseBody | src/http.c:414-435 | The body grows by the rest of the chunk and is complete exactly at the announced length |
| HttpEngine.HttpRequest.constructor | src/http.c:606-622 | An accepted connection starts an empty request |
| HttpEngine.HttpRequest.ParseRequestHeader | src/http.c:236-304 | One byte of a request: taken, or refused with the right status; every write in bounds for every byte stream |
| HttpEngine.HttpRequest.ParseVerb | src/http.c:242-262 | Upper-case letters up to the limit, then a terminating zero in bounds |
| HttpEngine.HttpRequest.ParseUrl | src/http.c:264-277 | The URL up to the limit |
| HttpEngine.HttpRequest.ScanHeader | src/http.c:663-677 | The header loop stops behind the end of the header or at the first refusal |
| HttpEngine.HttpRequest.OnIncomingData | src/http.c:662-717 | One chunk: more is awaited, a status is sent, or the application is called with what is stored |
| HttpEngine.HttpRequest.ReadBody | src/http.c:679-711 | HEAD, GET and OPTIONS are served without a body, others exactly at the announced length |
| HttpEngine.HttpRequest.IsBodyless | src/http.c:680 | The comparison of the stored C string is the comparison of the method |
| HttpEngine.HttpRequest.ContentLength | src/http.c:683-699 | 411 without a length, 400 for a malformed one, 413 for one that is too long |
| HttpSpec.StoredIsText | src/http.c:245 | A text stored with its terminating zero is that text for the C string functions |
| HttpSpec.FirstIndex | src/http.c:463 | The first occurrence, as strstr finds it |
| HttpSpec.UpToBreakStops | src/http.c:487-492 | The value is the longest prefix of the row without a break |
| HttpClient.Client.SendRequest | src/http.c:509-554 | As long as no byte of an answer was written into the status buffer, the server is sent nothing but a prefix of the printed request, all of it when every send succeeds; when an answer up to its first digit comes before anything has arrived, the server gets that digit first; nothing at all when a length check fails |
| HttpClient.AnswerTouchesIff | src/http.c:313-347 | The first chunk of an answer is written over the request row if and only if it reaches a byte of the status code |
| HttpClient.EarlyRefusalOverwritesRow | src/http.c:327-347 | An early refusal changes the row that is being sent |
| HttpClient.Client.OnIncomingData | src/http.c:645-652 | Data of the server is parsed into the status buffer; as long as nothing of an answer has been stored there, the buffer is as it was |
| HttpClient.Client.TcpSendData | src/tcp.c:470-509 | Each segment carries the bytes that stand in memory when it is sent; the bytes that arrive are the ones passed in as long as the answer stays out of the buffer, and begin with the digit of an answer that came before them |
| HttpClient.Client.TcpSendRound | src/tcp.c:488-504 | One segment and the wait behind it, after which the buffer is what it was or the answer has touched it |
| HttpClient.Client.SendFirst | src/http.c:530-533 | The request row goes out first; an answer that comes before it has arrived changes its first byte |
| HttpClient.Client.PrintRequestRow | src/http.c:523-528 | The row assembled in the status buffer is the request row, and it fits |
| HttpClient.Client.PrintLengthRow | src/http.c:542 | The length row is printed over whatever the buffer holds |
| HttpServer.ListenerOwnership | src/http.c:606-744 | Over every run from HttpInit the listener is free exactly in state NO_REQUEST, and a slot is on the HTTP port between acceptance and its disconnect callback exactly when it is the owner |
| HttpServer.RunKeeps | src/http.c:606-744 | Every run keeps the ownership invariant, established connections that were not closed, and the order of owners |
| HttpServer.StepKeeps | src/http.c:606-744 | So does every single step |
| HttpServer.SynKeeps | src/http.c:606-622 | A SYN of any port, accepted, dropped or refused, keeps ownership |
| HttpServer.CloseKeeps | src/http.c:729-744 | The disconnect callback of the owner frees the listener; of any other slot, it does not |
| HttpServer.RunLeavesClosing | src/tcp.c:396-413 | The slot of a close under way stays DYEING through whatever is handled inside |
| HttpServer.ClosedIsPassed | src/http.c:729-744 | Once the connection of a request is closed, the listener is free or belongs to a connection accepted later |
| HttpOverlap.HarmlessIff | src/http.c:236-299 | In every parser state that a response can meet, data of the client is harmless - awaited, and nothing of it in the URL buffer where the rows are - if and only if its bytes are the beginning of a method in capitals, at most ten with those before, or such a method, an empty URL and a rest that is awaited; or, once the empty URL is over, if and only if they are awaited |
| HttpOverlap.InterruptingStays | src/http.c:236-299 | Those are all such states: harmless data leads from one of them to another |
| HttpOverlap.MethodIff | src/http.c:242-262 | The same inside a method, byte by byte |
| HttpOverlap.UrlStays | src/http.c:264-299 | Behind the method, what has been stored of the URL stays, and once the URL is over nothing is added |
| HttpOverlap.LateBreakIsRefused | src/http.c:242-262 | A line break behind a body, which comes while the response goes out, is refused with 400 |
| HttpOverlap.PipelinedRequestOverwritesRow | src/http.c:264-277 | The beginning of a next request is awaited and overwrites the first byte of the row that is being sent |
| HttpWitness.LateBreakRun | src/http.c:187-227 | A server from its start, one connection, one request and a line break that comes when the first row has arrived: the client gets the row and then a second header, which is no prefix of the response |
| HttpWitness.PipelinedRun | src/http.c:187-227 | The same server, and the beginning of a next request that comes before the first row has arrived: the client gets the row with another first byte, which is no prefix of the response |
| HttpWitness.Respond | src/http.c:581-598 | What the client gets for every chunk that comes while the first row goes out: the row as far as it had arrived, and behind it the refusal or the row as the URL left it |
| HttpWitness.EarlyRefusalRun | src/http.c:509-554 | A client, and a server that answers before it has got anything: the first byte it gets is a digit of its own status, which is no prefix of the request |
| HttpServer.WiredAtOnce | src/http.c:187-227 | A row that had all arrived, or whose connection is closed behind it, has reached the client as it stood |
| HttpServer.WiredInTwo | src/http.c:187-227 | A row that arrives in two pieces, with data of the client between them, has in its second piece what the URL left of it |
| HttpServer.ReachedFollows | src/tcp.c:488-504 | Bytes that reach a client count for its connection and for no later one in the same slot |
| HttpServer.Server.OnNewConnection | src/http.c:606-622 | On the HTTP port a connection is accepted exactly when the listener is free, and then owns it |
| HttpServer.Server.Wait | src/tcp.c:359-388 | Whatever is handled in a wait - steps of the table, data of any connection, requests parsed and answered inside - keeps ownership and what has reached every client; the rows being sent stand unless data of their client strikes, and what a client has got it has got; if one chunk comes and nothing behind it, the state, the rows and the refusal are those of the parser |
| HttpServer.Server.Perform | src/tcp.c:359-388 | So does every single thing that happens |
| HttpServer.Server.TcpDisconnect | src/tcp.c:550-562 | An established connection has had its disconnect callback when this returns |
| HttpServer.Server.TcpSendData | src/tcp.c:470-509 | Each segment carries the bytes that stand in memory when it is sent: on the connection the call began on, the peer gets a prefix of the data unless its own data strikes meanwhile, all of it on success unless the slot went to another connection; if one chunk strikes, exactly the bytes that the parser left in the buffer |
| HttpServer.Server.TcpSendRounds | src/tcp.c:478-507 | The rounds of a send one after the other: what has reached the client at the end is what they have sent |
| HttpServer.Server.TcpSendRound | src/tcp.c:488-504 | One round keeps that, or ends the send |
| HttpServer.Server.Carry | src/tcp.c:488-504 | One segment and the wait behind it, after which the rows are what they were or the data of the client has struck |
| HttpServer.Server.WaitBehind | src/tcp.c:488-504 | A segment reaches its client, and the wait behind it |
| HttpServer.Server.SendResponseHeader | src/http.c:187-227 | The client gets a prefix of both printed rows and the headers unless its own data strikes, all on success; a row that is too long sends nothing; failure and an empty body close the connection; if one chunk strikes in the first row, the client has got that row as the chunk left it |
| HttpServer.Server.SendResponse | src/http.c:581-598 | Outside request handling nothing happens; otherwise the client gets a prefix of the printed response unless its own data strikes, all of it on success; in every case its connection is closed and the listener passed on; if one chunk strikes in the first row, the client has got that row as the chunk left it |
| HttpServer.Server.OnIncomingData | src/http.c:645-717 | The chunk is awaited, refused with a status or handled, as the parser specification has it, also inside the wait of another answer; a refusal sends its client a prefix of the printed refusal and nothing else, behind what it had; after a refusal or a handler the connection is closed and the listener no longer its own; other connections are left alone |
| HttpServer.Server.Read | src/http.c:662-717 | The parser takes a chunk as specified; one that is refused or handled strikes, and unless one strikes the rows stand |
| HttpServer.Server.Refuse | src/http.c:709-717 | A refusal closes the connection, and what reaches its client is a prefix of the printed refusal, all of it when nothing happens meanwhile |
| HttpServer.Server.OnIncomingRequest | src/http.c:709-717 | The handler runs once, and a connection it leaves open is closed |
| HttpTable.TableRefinesRun | src/tcp.c:421-627 | Whatever sequence of changes the engine makes to its table, the listener machine makes a run whose slots, and their numbers of closed connections, are those of the table at the end |
| HttpTable.OwnerOverTheTable | src/http.c:606-744 | Hence over every such run from empty tables, a slot of the engine is on the HTTP port, past its SYN and not closing, exactly when it is the owner of the listener |
| HttpTable.ChangeRefines | src/tcp.c:421-627 | Every single change - a SYN accepted, dropped or refused, its ACK, a close and its end, an active open, its success and its failure, everything else - is one step of the listener or none |
| HttpTable.ArrivalRefines | src/tcp.c:579-597 | A SYN that the engine accepts, drops or refuses as the listener decides is that step of the listener |
| HttpTable.OpenRefines | src/tcp.c:421-461 | So are the slot that TcpConnect takes, on a dynamic port, and its success or failure, on a slot no SYN has hit |
| HttpTable.EndRefines | src/tcp.c:396-413 | So are the beginning of a close, with its disconnect callback, and its end |
| HttpTable.QuietSteps | src/tcp.c:470-625 | Polls, calls, deliveries and sends are no steps of the listener |
| HttpTable.QuietWrites | src/tcp.c:435-451 | Nor are numbers and link addresses, and a SYN that is answered again |

## Left out

- TcpReceiveData: its return value, its second acknowledgement from a rewritten header and its endless wait at timeout 0; deliveries are counted at the callback, which its waits reach through TcpWaitPacket.
- TcpEngine.Stack.TcpSendData: a send on a connection without segment size that is acknowledged for ever never ends in the code; the model follows it for World.patience rounds, any number, and then abandons and marks it. Inside a call the memory is a function of the poll, so it changes only when something is polled.
- TcpEngine.Stack.RunAction: a callback sends only on an established connection (TcpSendData called elsewhere moves the send sequence and returns 0), does not call TcpConnect, and from some callback call on callbacks send no more; without that bound, callbacks that answer each other's acknowledgements could nest for ever.
- TcpEngine.Stack.TcpGetMaxSegmentSize: when TcpConnect reads the option from a buffer that a nested wait has used again, an option list that does not end counts as empty.
- TcpTheorems.Unspoiled: the conditions on frames and callbacks are sufficient, not necessary: which run with a cause takes the branch at fault depends on every frame that follows.
- TcpTheorems.DeliveryOfSlot: the condition on the slot is sufficient, not necessary, as TcpWitness.StaleMayBeRight shows.
- TcpTheorems.SameNumberSameByte: the condition on the slot is sufficient, not necessary: different sends may have sent the same bytes, as TcpWitness.SendOutlivesItsConnection shows for b' equal to 7.
- TcpTheorems.ExactlyOnceInOrder: the stream of segments with options in their header is not the one the callback sees.
- TcpTheorems.ReliableSend: speaks of the connection on which the send began; nothing is claimed about who acknowledged.
- TcpRuns.SendReliably: callbacks that send on the same connection during the call interleave their parts with it; the contract then promises nothing about the order, nor does it for memory that changes during the call.
- TcpWitness.SendOutlivesItsConnection: this and the other TcpWitness runs are chains of the steps that the methods of the engine are proved against, not executions of TcpEngine.Stack; between the frames a chain names, nothing else is polled.
- HttpChunks.ServedByLastChunk: assumes that TCP delivers no empty chunk and, for a method without a body, that nothing follows the header.
- HttpServer.Server.TcpSendData: the transport beneath HTTP is not derived from TcpEngine.Stack.TcpSendData; its segments are whatever new bytes arrive, without sizes and numbers.
- HttpServer.Server.Carry: bytes that have arrived are not sent again.
- HttpServer.Server.OnIncomingRequest: the application answers from memory of its own, at once or not at all; it does not wait on its own before it answers.
- HttpServer.ListenerOwnership: no client request is in progress, the server port is below 49152, and no SYN hits a connection that TcpConnect is opening.
- HttpTable.ChangeRefines: compares slots and their numbers of closed connections; phase and request counters are those of HttpServer alone, and no SYN hits a connection that TcpConnect is opening. That the changes listed are all that the methods of TcpEngine make is their contracts, not a statement of its own.
- HttpWitness.Respond: one chunk, in the wait behind the first row, and everything sent afterwards arrives.
- HttpClient.Client.TcpSendData: the same transport as the server's.
- HttpClient.Client.SendRequest: stops where the response is awaited; the client's waiting loop, its failure messages and the sharing of one message record between client and server are not modelled.
- LinkLayer.Link.IcmpSendReply: no claim about the checksum beyond 255 data bytes, because the length parameter has one byte.
- Timeouts of 65535, with which the wait counters would wrap before they exceed the timeout.
- Data in a FIN segment, RST, the closing states of the standard, and when acknowledgements arrive.
- Malformed TCP options, IP headers with options, fragments, total lengths beyond the frame.
- Bodies that overrun the data buffer: the parsers are specified for chunks whose bytes fit into it.
- UDP, the ENC28J60 driver, the other protocols' callbacks behind HTTP, pin setup, real time and the examples.
- Which ARP row is evicted is specified as the code does it; nothing is claimed about use.
