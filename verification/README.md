# Verified model of the qmux session layer and of virtual host routing

This project models, in Dafny 4.11, the parts of the Teleport service that carry every byte of a
tunnelled connection, and proves what they promise.

**The session layer** (`session/`, `codec/`). One transport carries many duplex channels, after the
connection protocol of RFC 4254 (sections 5.1 to 5.3). A channel has an id from a table that reuses
slots, credit on the sending side, a receive window and a linked-list queue on the other, and a
handshake of open, EOF and close.

* `Bytes.dfy`, `Codec.dfy`: integers of fixed width, the wire format, packets on a byte stream.
* `Window.dfy`, `Buffer.dfy`, `ChanList.dfy`: credit, the byte queue over a linked list, the id table.
* `ChannelSpec.dfy`, `WriteSpec.dfy`, `SessionSpec.dfy`: a channel end and a session end as values:
  what each call and each incoming message does, and what holds of them against any peer whatever.
* `PacketSpec.dfy`, `PeerRuns.dfy`: what one packet from any peer leads to, told from its bytes and the fields; what
  applications get out of Open and Accept over every run against any peer.
* `Channel.dfy`, `Session.dfy`: the objects. Their methods update the source's fields, and each is
  proved to do to the object's value what the functions above say.
* `LinkSpec.dfy`, `SystemSpec.dfy`, `Runs.dfy`: two session ends joined by two lossless FIFO wires.
  The steps of this system are those functions; the theorems in `Runs.dfy` are about every run.
* `CloseRule.dfy`: why a rule for applications is needed in those runs, and when the code keeps it by itself.

**The ClientHello reader** (`go-vhost/tls.go`, `go-vhost/shared.go`). A TLS connection is read until its
ClientHello (sections 6.2.1 and 7.4.1.2 of RFC 5246, section 3 of RFC 6066) is known, and must then look unread.

* `HelloSpec.dfy`: what unmarshal makes of any byte string. `HelloFormat.dfy`: the format, and the round
  trip. `HelloConverse.dfy`: what is true of any accepted input. `ClientHello.dfy`: the object and its loops.
* `RecordSpec.dfy`: records and fragmentation. `HelloReader.dfy`: the growing block and the record reader.
* `SharedConn.dfy`: the tee, the buffer and the replaying connection.

**The virtual host registry** (`go-vhost/mux.go`): `HostNames.dfy` for the lookup, `Registry.dfy` for
Listen and Close.

## The grain of the two-sided system

Some claims are false at a finer grain, so it is part of what is claimed:

* `handleOpen` is one step. The code queues the channel (session.go:194) before it sends the confirm
  (session.go:196); an application that used the channel in between would send first.
* `newChannel` and the rest of `Open` up to sending its message are one step; receiving the answer is another.
* One iteration of Write, reserving credit and sending a packet, is one step. Read is two: taking bytes off
  the queue, and granting them back (channel.go:115 and 118); between them the bytes are `owed`.
* Where a call waits (no credit, nothing to read, an empty inbox to accept from, no answer to an open) the
  step is not enabled. Where a loop waits, at a full inbox, is a state: the open has been taken off the wire and
  its channel registered, and the Accept that makes room queues it and sends the confirm.
* An application gets a channel from Accept or from Open's answer, and uses it only then.
* It runs no iteration of Write after its own Close or CloseWrite, of a Write under way either (the rule
  `Usage`). The code checks sentEOF only on entry to Write, and never sentClose. `CloseRule.dfy` shows what
  happens otherwise: after Close the peer's whole session ends, after CloseWrite its EOF is not final.
* No table reaches 2^32 slots (`Fits`). `ChanTable.IdsResolve` shows that ids stop resolving there.
* A Read of the transport fills its slice, or fails because the stream ends: `readPacket` uses plain Read.

The fields `linkOf` and `endOf` of a host and the tags of packets record which opening a channel and a
packet belong to. They are history: no step looks at them.

Facts against any peer (`SessionSpec`, `PacketSpec`, `PeerRuns`) need, of these rules,
only the grain of a step and the last: they hold for every byte stream and every order of loop turns and steps of calls,
the iterations that a Write under way runs after CloseWrite or Close included. There a loop can also wait
at a full message queue; the receive that makes room completes the send (`SessionSpec.WaitEnds`). The
methods of `Sessions.Session` are those steps on the objects, and in the runs of the two-sided system each step
of a side is one of them (`Runs.SidesAreSessions`).

## Where the code and its promises differ

* "No data may be sent after this call" (channel.go:77, mux/api.go:30) is left to the caller of Close.
  `CloseRule.WriteAfterClose` says exactly when it holds of a Write begun afterwards, `CloseRule.WriteUnderWay`
  of one already under way, and `CloseRule.LateWriteBreaksSession` what it costs.
* "CloseWrite signals the end of sending data" (channel.go:69, mux/api.go:33), but a Write already under way goes
  on: `CloseRule.WriteUnderWay` again says exactly when not, `CloseRule.DataAfterEof` is a run in which
  a Read returns EOF and a later one a byte.
* "Write writes len(data) bytes" (channel.go:84), but `min` truncates the length to 32 bits: `ChannelSpec.MinExact`
  says when that is right, `WriteSpec.WritesAll` when a Write can do its work, and `WriteSpec.LongWriteStalls` how
  far it gets with 2^32 bytes or more.
* A server_name list gives its length in bytes (section 3 of RFC 6066); unmarshal takes that number for
  the number of names, and does not stop at the end of the extension. With a host_name in the list this
  does no harm; `HelloFormat.RoundTrip` says exactly when it does none, `HelloFormat.OtherNameRefused` is a
  well-formed hello that is refused.
* Supported curves and points are not reset by unmarshal, unlike the other extension fields: a message
  object used twice can keep those of the first hello. `HelloConverse.Reuse` says exactly when it does not,
  `HelloConverse.CurvesKept` gives an input.
* A ClientHello whose first record holds fewer than 4 bytes of it is refused: `RecordSpec.Fragmented` and, for an input,
  `RecordSpec.ShortFirstRecord`.
* The tee keeps copying into its buffer after a Read has dropped that buffer: `SharedConns.Replay` says
  exactly when bytes are lost, `SharedConns.LateTee` gives a run.

## Model

| member | source | states |
|---|---|---|
| `Runs.NoErrors` | Teleport_Service/localPackages/session/session.go:158-202 | On every run of two session ends over lossless FIFO wires, the packet at the head of a wire reaches no error return of `onePacket`, `handle`, `handleData` or `handleOpen`: it is handled, or is an open and the inbox is full, where the loop comes to a wait |
| `Runs.LoopsGoOn` | Teleport_Service/localPackages/session/session.go:137-156 | On every run neither loop ever stops, panics or waits at a message queue: it reads, or waits to put a channel into an inbox that is full |
| `Runs.SidesAreSessions` | Teleport_Service/localPackages/session/session.go:80-202 | In every reachable state each enabled step of a side equals the step of a session on its own whose stream is the bytes on the other wire: same channels, table, inbox and loop state, same bytes sent |
| `Runs.NoOpenFailures` | Teleport_Service/localPackages/session/session.go:182-187 | On every run, no OpenFailure is ever in flight: `handleOpen` never refuses an open made by this code |
| `Runs.OpenSucceeds` | Teleport_Service/localPackages/session/session.go:102-120 | On every run, each outbound channel that Open has not returned has no answer so far or a confirm, never a failure or an early close, also when the other side closed it at once; with the confirm, the two channel ends name each other's ids |
| `Runs.IdsNeverConfused` | Teleport_Service/localPackages/session/channel.go:186-192 | On every run, each message anywhere in flight names an id held at its receiver by the channel of the same opening: reuse of freed ids is safe, also when closes cross |
| `Runs.RemovedIsSilent` | Teleport_Service/localPackages/session/channel.go:132-145 | A channel that has received Close is in no slot of the table, and no application call on it sends anything |
| `Runs.StreamIntact` | Teleport_Service/localPackages/session/channel.go:85-128 | The "ordered, reliable" stream of `mux/api.go:21`: in each direction of each channel, bytes written = bytes read, then bytes pending, then payloads in flight, in order |
| `Runs.EofIsFinal` | Teleport_Service/localPackages/session/channel.go:114-128 | When Read returns EOF, every byte the far end ever wrote has been read, and on every continuation of the run the far end writes no more |
| `Runs.EndIsTold` | Teleport_Service/localPackages/session/channel.go:71-82 | In every reachable state an end has sent EOF or Close if and only if the other end knows it or the message that tells it is in flight; and an application's Close was sent |
| `Runs.EofComes` | Teleport_Service/localPackages/session/channel.go:114-128 | After the far end's CloseWrite or Close, with all it sent delivered and read, a Read of a non-empty slice does not wait: it returns EOF, and the bytes read are all that were written |
| `Runs.CloseCompletes` | Teleport_Service/localPackages/session/channel.go:186-192 | Once either end has sent Close and nothing is in flight, both ends are closed and in no slot of their tables |
| `Runs.OpenCompletes` | Teleport_Service/localPackages/session/session.go:89-120 | With nothing of an opening in flight, and no loop waiting for room for its channel, both ends exist and each has the other's id |
| `Runs.FinishedForever` | Teleport_Service/localPackages/session/channel.go:71-82 | An end that has ended its write side, or has closed or been closed, keeps its history of written bytes on every continuation |
| `Runs.CreditConserved` | Teleport_Service/localPackages/session/channel.go:147-157 | Sender's window + data in flight + unread bytes + bytes read and not yet granted back + grants in flight + the grant of a confirm its side waits to send: the whole channel window until the receiver has sent Close, and at most that afterwards; before the open arrives, it carries the whole grant |
| `Runs.CreditComesBack` | Teleport_Service/localPackages/session/channel.go:198-215 | Before that Close, a writer at zero credit is owed some (data in flight, unread, or read and not yet granted back, or a grant on its way or waiting to be sent), and at quiescence the full window is back |
| `Runs.WaitingWriteIsOwed` | Teleport_Service/localPackages/session/util_window.go:47-68 | A Write that waits is owed what wakes it: credit, as in the row above, or the peer's Close on its way |
| `Runs.WireDecodes` | Teleport_Service/localPackages/codec/decoder.go:38-98 | The bytes of each wire decode to exactly the messages sent, in order, so a run over messages is a run over byte streams |
| `Runs.ReachableInv` | Teleport_Service/localPackages/session/session.go:89-202 | The invariant over links, tables, inboxes and wires holds in every reachable state, seen from either side |
| `SystemSpec.ActKeeps` | Teleport_Service/localPackages/session/session.go:89-202 | Each single step of either side keeps that invariant |
| `SystemSpec.HeadFindsItsChannel` | Teleport_Service/localPackages/session/session.go:168-178 | The channel that `getChan` returns for an arriving packet is the one its sender meant |
| `LinkSpec.AppStep` | Teleport_Service/localPackages/session/channel.go:71-128 | Each application call on one end keeps order, credit, stream and closing of the link it belongs to |
| `LinkSpec.Arrives` | Teleport_Service/localPackages/session/channel.go:181-251 | Whatever is first in flight is addressed to the other end's id, is handled without an error there, keeps the link, and removes the channel exactly if it is Close |
| `LinkSpec.OpenArrives` | Teleport_Service/localPackages/session/session.go:189-201 | Handling an open, where the inbox has room, establishes the link with the confirm on its way |
| `CloseRule.WriteAfterClose` | Teleport_Service/localPackages/session/channel.go:77-111 | "No data may be sent after this call" holds of a Write call begun after Close, whatever credit arrives while it waits, if and only if the write side was ended or the window is closed: Write does not look at sentClose |
| `CloseRule.WriteUnderWay` | Teleport_Service/localPackages/session/channel.go:69-111 | A Write already under way when Close or CloseWrite is called sends no more data, whatever credit arrives, if and only if the window is closed |
| `CloseRule.LateWriteBreaksSession` | Teleport_Service/localPackages/session/channel.go:77-111 | A concrete run of both sides, with one write after Close, that ends with a packet on which its receiver's loop stops with "invalid channel", dropping every channel: why the runs above keep that rule |
| `CloseRule.DataAfterEof` | Teleport_Service/localPackages/session/channel.go:69-111 | A concrete run of both sides, with an iteration of Write after CloseWrite, in which a Read returns EOF and, one packet later, a Read returns a byte |
| `SessionSpec.AnyPeerSafe` | Teleport_Service/localPackages/session/channel.go:147-157 | For a new session, any byte stream, and any order of loop turns and application steps, waits of the loop at full Go channels and iterations of Write after CloseWrite or Close included: myWindow + unread bytes + bytes read and not yet granted back = channelWindowSize for every channel (so the comment's no-overflow claim holds and at most 2^21 bytes are buffered), bytes sent + remoteWin + forfeited credit = accepted grants, and no step closes a channel twice or sends on a closed message queue |
| `SessionSpec.ClosedForGood` | Teleport_Service/localPackages/session/channel.go:159-169 | Over every such run a channel that was closed is not closed again, and its message queue is only drained: nothing is put there afterwards |
| `SessionSpec.WaitEnds` | Teleport_Service/localPackages/session/session.go:189-201 | A loop that waits at a full inbox or a full message queue goes on after one receive: what waited is queued last, a waiting open is confirmed, and the loop reads on where it was |
| `SessionSpec.WaitLasts` | Teleport_Service/localPackages/session/session.go:194 | No other call ends such a wait or takes bytes off the stream |
| `SessionSpec.LoopExit` | Teleport_Service/localPackages/session/session.go:137-147 | Where the loop stops with an error the table is emptied, exactly the channels that were in it are closed, and the others are untouched |
| `SessionSpec.ReceiveSound` | Teleport_Service/localPackages/session/session.go:159-202 | No decoded message from any peer breaks the balances, the table or the capacities of the Go channels, or causes a panic; and where handling it comes to a wait, what it waits for is full and not closed |
| `SessionSpec.CloseEachRuns` | Teleport_Service/localPackages/session/session.go:145-147 | Closing the channels that `dropAll` returns closes each of them, once, and no other |
| `PacketSpec.StopsExactly` | Teleport_Service/localPackages/session/session.go:141-178 | A packet that is no open stops the loop, with every channel dropped, if and only if it names an id in no slot, is data over the holder's limit or window, credit past 32 bits, an answer to an open not made here, or a confirm whose packet size is not in 9 to 2^31; with "invalid channel" exactly for the first; it makes the loop wait exactly if it is such an answer and its queue is full; otherwise the loop reads on |
| `PacketSpec.OpenIsAnswered` | Teleport_Service/localPackages/session/session.go:182-202 | No open stops the loop; it is refused, by a failure naming its sender's id, if and only if its packet size is below 9 or above 2^31; otherwise one more channel, in the least free slot, has the sender's id, limit and credit, goes last into the inbox and is confirmed, or the loop waits with it at a full inbox |
| `PacketSpec.StopsAtEnd` | Teleport_Service/localPackages/session/session.go:162-166 | A stream that begins with no packet stops the loop and drops every channel |
| `PeerRuns.OpenedIsConfirmed` | Teleport_Service/localPackages/session/session.go:102-120 | Whatever the peer sends, over every run: Open returns a channel only if it is one opened here whose peer sent a confirm with a packet size in range (and, if that was the one answer, the channel has the confirmed id and size); the first answer is never of another kind than confirm or failure; and an opener that was sent a failure is in no slot |
| `PeerRuns.AnswerTells` | Teleport_Service/localPackages/session/session.go:102-120 | The first packet for an opener without an answer decides its Open: a valid confirm opens it, a failure refuses it and frees its slot, a Close or what stops the loop closes it early, anything else leaves it waiting |
| `PeerRuns.AcceptsInOrder` | Teleport_Service/localPackages/session/session.go:80-87 | Over every run against any peer, the channels handed out by Accept, then those in the inbox, then the one the loop waits with, are exactly the channels the peer opened, each once, in the order in which their opens arrived |
| `FlowWindow.AddRejectsExactlyOverflow` | Teleport_Service/localPackages/session/util_window.go:19-36 | `add` rejects exactly the grants whose true sum passes 2^32-1, although it computes with wrapping addition; an accepted grant is never truncated |
| `FlowWindow.CreditConserved` | Teleport_Service/localPackages/session/util_window.go:19-68 | Over any events: granted = window + spent + forfeited, and credit is forfeited only after closing |
| `FlowWindow.Window.AddCredit` | Teleport_Service/localPackages/session/util_window.go:19-36 | `add` as a method on the fields refines the window as a value |
| `FlowWindow.Window.ReserveCredit` | Teleport_Service/localPackages/session/util_window.go:47-68 | `reserve`, with what arrives while it waits as a parameter, hands out exactly what the window as a value does |
| `FlowWindow.ReservesMost` | Teleport_Service/localPackages/session/util_window.go:47-68 | `reserve` hands out all that is wanted or all there is, takes just that off the window, and reports EOF exactly on a closed one |
| `ChannelSpec.MinExact` | Teleport_Service/localPackages/session/util.go:3-8 | `min` is the smaller number if and only if its second argument fits 32 bits or its truncation is still no smaller than the first |
| `ChannelSpec.ChunkProgress` | Teleport_Service/localPackages/session/channel.go:90-108 | A granted iteration of Write sends one well-formed packet within the peer's limit, a prefix of the data, non-empty if and only if the remaining length is no multiple of 2^32 and the limit is not zero; it is as long as `min` allows or uses up the credit |
| `WriteSpec.WriteSendsPrefix` | Teleport_Service/localPackages/session/channel.go:85-111 | The payloads a Write sends are data[:n] in order, and it returns without error and without waiting if and only if n = len(data) |
| `WriteSpec.WriteEnds` | Teleport_Service/localPackages/session/channel.go:84-111 | After CloseWrite a Write returns EOF at once; otherwise it returns EOF only on a closed window, and is left waiting only without credit on an open one |
| `WriteSpec.WriteRecords` | Teleport_Service/localPackages/session/channel.go:85-111 | The history of written bytes grows by exactly the payloads sent |
| `WriteSpec.WritePackets` | Teleport_Service/localPackages/session/channel.go:90-104 | Every packet of a Write is well formed, names the peer's channel and keeps its payload limit |
| `WriteSpec.WriteBounded` | Teleport_Service/localPackages/session/channel.go:90-108 | For data shorter than 2^32 bytes and a limit of at least 1, each packet holds at least a byte, so there are at most n of them |
| `WriteSpec.WritesAll` | Teleport_Service/localPackages/session/channel.go:84-111 | A Write can write all of its data, given credit in time, if and only if the write side is open and, unless there is none, the data is shorter than 2^32 bytes, the peer's limit is not zero and the window is not closed |
| `WriteSpec.LongWriteStalls` | Teleport_Service/localPackages/session/util.go:3-8 | Of data of 2^32 bytes or more, a Write never writes more than the low 32 bits of its length, and never ends without an error |
| `ByteQueue.Buffer.Write` | Teleport_Service/localPackages/session/util_buffer.go:40-47 | Appends to the queue that the linked list represents; the list stays acyclic from head to tail |
| `ByteQueue.Buffer.Eof` | Teleport_Service/localPackages/session/util_buffer.go:51-56 | Marks the end and leaves the queue |
| `ByteQueue.Buffer.Read` | Teleport_Service/localPackages/session/util_buffer.go:60-93 | Removes from the queue exactly the prefix it copies, min(len, queued) bytes across any number of elements; EOF exactly when drained and closed; waits exactly when drained and open; its loop ends |
| `ChanTable.AddRefinesMap` | Teleport_Service/localPackages/session/util_chanlist.go:16-27 | `add` binds exactly the least id that is not bound |
| `ChanTable.RemoveRefinesMap` | Teleport_Service/localPackages/session/util_chanlist.go:39-45 | `remove` unbinds the id and nothing else |
| `ChanTable.IdsResolve` | Teleport_Service/localPackages/session/util_chanlist.go:30-37 | Every slot of a full table answers to its own id if and only if the table is shorter than 2^32 |
| `ChanTable.LengthIsPeak` | Teleport_Service/localPackages/session/util_chanlist.go:16-45 | The table's length is exactly the most channels that were live at once |
| `ChanTable.PresentMembers` | Teleport_Service/localPackages/session/util_chanlist.go:48-61 | `dropAll` lists exactly the channels in the table |
| `ChanTable.ChanList.Add` | Teleport_Service/localPackages/session/util_chanlist.go:16-27 | The scan for a free slot, on the slice, refines `add` on values |
| `ChanTable.ChanList.Remove` | Teleport_Service/localPackages/session/util_chanlist.go:39-45 | Frees the slot if the id is below the 32-bit length |
| `ChanTable.ChanList.DropAll` | Teleport_Service/localPackages/session/util_chanlist.go:48-61 | Returns the channels present, in order, and empties the table |
| `Channels.Channel.Send` | Teleport_Service/localPackages/session/channel.go:132-145 | Nothing after a sent Close; the state and bytes sent are those of the channel as a value |
| `Channels.Channel.CloseWrite` | Teleport_Service/localPackages/session/channel.go:71-75 | Refines the channel as a value: sentEOF, and EOF on the wire unless Close was sent, which the caller is told by an EOF |
| `Channels.Channel.Close` | Teleport_Service/localPackages/session/channel.go:79-82 | Refines the channel as a value: one Close on the wire, and an EOF to the caller if it was sent before |
| `Channels.Channel.Read` | Teleport_Service/localPackages/session/channel.go:114-128 | Copies the prefix of the queue it removes, then grants exactly that many bytes back; returns EOF if and only if the slice is not empty and the queue is drained and ended, so an EOF from the grant is held back |
| `Channels.Channel.Write` | Teleport_Service/localPackages/session/channel.go:85-111 | The loop on the object, with arrivals at the window as a parameter, refines the write call on values |
| `Channels.Channel.Shut` | Teleport_Service/localPackages/session/channel.go:159-169 | `close` ends queue, message channel and window, and marks Close as sent |
| `Channels.Channel.HandleData` | Teleport_Service/localPackages/session/channel.go:230-251 | The three refusals in order, or the data queued and the window reduced |
| `Channels.Channel.Handle` | Teleport_Service/localPackages/session/channel.go:181-228 | Every message: new state, verdict, bytes sent and slot freed are those of the channel as a value; where the message queue is full, up to its send, which `Session.Resume` completes |
| `Channels.Channel.Apply` | Teleport_Service/localPackages/session/channel.go:71-128 | A step of an application's call (an iteration of Write once entered, either part of Read, CloseWrite, Close) refines the channel as a value |
| `Sessions.Session.StartOpen` | Teleport_Service/localPackages/session/session.go:89-100 | Registers a new outbound channel at the least free id and sends its open: the step `Opens` |
| `Sessions.Session.FinishOpen` | Teleport_Service/localPackages/session/session.go:102-120 | Takes the answer off the channel's queue and tells the outcomes apart: the step `Takes`; in the states of every run (`PeerRuns.RunAnswers`) it returns only channels the peer confirmed; where the context is done, nothing changes and the slot stays taken |
| `Sessions.Session.HandleOpen` | Teleport_Service/localPackages/session/session.go:182-202 | Refuses bad packet sizes; otherwise registers and, if the inbox has room, queues for Accept and confirms |
| `Sessions.Session.Resume` | Teleport_Service/localPackages/session/session.go:194-201 | The rest of a send the loop waits in, once there is room: the channel goes into the inbox and the open is confirmed, or the message goes into the channel's queue |
| `Sessions.Session.Accept` | Teleport_Service/localPackages/session/session.go:80-87 | The first channel of the inbox, and a loop waiting for room goes on: the step `Accepts`; or, with the one token the loop left at its end, EOF |
| `Sessions.Session.Dispatch` | Teleport_Service/localPackages/session/session.go:168-178 | Finds the channel by id or fails with "invalid channel"; only that channel, its slot and the wire change |
| `Sessions.Session.OnePacket` | Teleport_Service/localPackages/session/session.go:159-179 | Refines onePacket on values, from the bytes of the transport to those sent, with what the loop is at afterwards: reading, stopped with the error, or waiting in a send |
| `Sessions.Session.Turn` | Teleport_Service/localPackages/session/session.go:141-156 | A turn of the loop with its exit: the step `PacketArrives`, in which every channel left at the exit is closed once |
| `Sessions.Session.LoopOn` | Teleport_Service/localPackages/session/session.go:141-143 | The loop runs turns until it stops or has to wait, and ends |
| `Sessions.Session.Call` | Teleport_Service/localPackages/session/channel.go:71-128 | An iteration of Write once entered, either part of Read, CloseWrite or Close equals the step on values: only that channel and the bytes sent change |
| `Codec.FramingExact` | Teleport_Service/localPackages/codec/encoder.go:18-49 | A message decodes first and alone whatever bytes follow it, if and only if its Length counts its Data; so no encoding is a proper prefix of another |
| `Codec.FramingBijection` | Teleport_Service/localPackages/codec/decoder.go:38-98 | A byte stream decodes to a list of messages if and only if they are well formed and their concatenated encodings are the stream |
| `Codec.FieldsRoundTrip` | Teleport_Service/localPackages/codec/decoder.go:71-98 | Decoding an encoded packet gives back every field of every message type |
| `Codec.DecodeInverse` | Teleport_Service/localPackages/codec/message_data.go:23-36 | Every packet of a known type that readPacket can produce decodes to a message that marshals to the same bytes |
| `Codec.NextMessageInverse` | Teleport_Service/localPackages/codec/decoder.go:49-66 | What was read re-marshals to the bytes consumed, and a decoded DataMessage has Length = len(Data) |
| `Codec.MarshalData` | Teleport_Service/localPackages/codec/message_data.go:23-29 | Filling the packet in place and appending Data gives the wire format |
| `Codec.MarshalOpen` | Teleport_Service/localPackages/codec/message_open.go:23-30 | Filling the packet in place gives the wire format |
| `Codec.MarshalOpenConfirm` | Teleport_Service/localPackages/codec/message_openconfirm.go:24-32 | Filling the packet in place gives the wire format |
| `Codec.MarshalWindowAdjust` | Teleport_Service/localPackages/codec/message_windowadjust.go:22-28 | Filling the packet in place gives the wire format |
| `Codec.MarshalId` | Teleport_Service/localPackages/codec/message_close.go:20-25 | Filling the packet in place gives the wire format, for the three messages of one id |
| `Codec.ReadPacket` | Teleport_Service/localPackages/codec/decoder.go:38-69 | Consumes exactly the first packet, or fails at the end of the stream |
| `Codec.Decoder.Decode` | Teleport_Service/localPackages/codec/decoder.go:22-36 | The next message and the bytes after it, or the error |
| `Codec.Encoder.Encode` | Teleport_Service/localPackages/codec/encoder.go:18-37 | Appends the encoding to what was sent |
| `Codec.EncodingLaidOut` | Teleport_Service/localPackages/codec/message_open.go:23-36 | The wire format in numbers: the type byte 100 to 106, and the position of each big-endian field of each message |
| `Codec.UndecodableExactly` | Teleport_Service/localPackages/codec/decoder.go:38-98 | A stream yields the error of an unexpected type if and only if its first byte is not 100 to 106, and that of its end if and only if it is a proper prefix of a packet |
| `HelloFormat.RoundTrip` | Teleport_Service/localPackages/go-vhost/tls.go:301-437 | unmarshal of a serialised well-formed ClientHello (distinct extensions, unknown ones mixed in) yields exactly its fields if and only if each server_name list holds a host_name, or the bytes after it begin like as many more host-free names as the list has spare bytes, or like fewer and then an empty host_name |
| `HelloFormat.ScanHarmless` | Teleport_Service/localPackages/go-vhost/tls.go:376-393 | The loop over names changes nothing on exactly the inputs that begin like that |
| `HelloFormat.HostNameFound` | Teleport_Service/localPackages/go-vhost/tls.go:371-393 | If every server_name list holds a host_name the round trip holds, and ServerName is the first host_name |
| `HelloFormat.LastListRefused` | Teleport_Service/localPackages/go-vhost/tls.go:376-393 | A well-formed hello whose last extension is a non-empty server_name list without a host_name is refused: the list's length in bytes serves as the number of names |
| `HelloFormat.OtherNameRefused` | Teleport_Service/localPackages/go-vhost/tls.go:376-393 | The smallest such hello, as a concrete input |
| `HelloConverse.Accepted` | Teleport_Service/localPackages/go-vhost/tls.go:302-437 | Any accepted input is its 4 header bytes, the fixed fields serialised again and, unless it ends there, a block that counts its length and is tiled by type/length/body entries; curves, points, ticket, status and NPN of the result agree with the last entry of each type; a non-empty ServerName stands in the input after a host_name type and its own length; where the last server_name entry is a well-formed list with a host_name, ServerName is the first of those; without a server_name entry it is empty |
| `HelloConverse.Reuse` | Teleport_Service/localPackages/go-vhost/tls.go:340-344 | Reading into a message object used before gives what a new one gives if and only if the input is refused or has curves and points of its own wherever the object had some |
| `HelloConverse.CurvesKept` | Teleport_Service/localPackages/go-vhost/tls.go:340-349 | A concrete input: a hello without extensions keeps the curves of the hello read before |
| `ClientHello.ClientHelloMsg.Unmarshal` | Teleport_Service/localPackages/go-vhost/tls.go:301-437 | The loops that fill the fields accept exactly what the specification of the parse accepts, with the same fields, on every input and from any previous contents |
| `ClientHello.ClientHelloMsg.ReadServerName` | Teleport_Service/localPackages/go-vhost/tls.go:376-393 | The loop over names finds the first host_name, or fails, as the scan on values |
| `ClientHello.ReadU16s` | Teleport_Service/localPackages/go-vhost/tls.go:323-327 | The loop that reads 16-bit numbers |
| `RecordSpec.Fragmented` | Teleport_Service/localPackages/go-vhost/tls.go:254-282 | A handshake message cut into any accepted records is read whole if and only if the first record holds its 4 header bytes (or it is refused as unexpected in any case) |
| `RecordSpec.ParsedExactly` | Teleport_Service/localPackages/go-vhost/tls.go:190-283 | The converse too: a stream is parsed to m if and only if it begins with handshake records of type 22, versions below 16.0 and lengths below 12 kB, the first with at least 4 payload bytes, whose payloads begin with a message of type 1 and at most 65536 bytes that unmarshals to m |
| `RecordSpec.HeaderRefused` | Teleport_Service/localPackages/go-vhost/tls.go:205-234 | After any such records that do not complete the message, a bad header is refused with its own error, by its type, version and length in numbers |
| `RecordSpec.LongRefused` | Teleport_Service/localPackages/go-vhost/tls.go:262-265 | A message that says it is longer than 65536 bytes is an internal error |
| `RecordSpec.EndsTooSoon` | Teleport_Service/localPackages/go-vhost/tls.go:142-161 | The connection's own error is the outcome if and only if the stream ends too soon to tell: more bytes can change it, and they change no other outcome |
| `RecordSpec.OfferRead` | Teleport_Service/localPackages/go-vhost/tls.go:190-283 | From a client's hello, through any such fragmentation, to the parsed fields |
| `RecordSpec.ShortFirstRecord` | Teleport_Service/localPackages/go-vhost/tls.go:258-261 | A concrete input: a hello accepted in one record is refused when its first record holds 3 bytes |
| `HelloReader.Block.ReadFromUntil` | Teleport_Service/localPackages/go-vhost/tls.go:142-161 | Loses and reorders no byte however reads are chunked, grows the buffer, and fails exactly when the stream ends before n bytes |
| `HelloReader.Block.Reserve` | Teleport_Service/localPackages/go-vhost/tls.go:124-138 | Doubles the capacity until it suffices, keeping the contents |
| `HelloReader.SplitBlock` | Teleport_Service/localPackages/go-vhost/tls.go:177-186 | The two blocks hold the first n bytes and the remainder; no second block if there is none |
| `HelloReader.RecordReader.ReadRecord` | Teleport_Service/localPackages/go-vhost/tls.go:196-252 | The next record of the pending bytes joins the handshake data, or the error of the first check that fails |
| `HelloReader.ReadClientHello` | Teleport_Service/localPackages/go-vhost/tls.go:190-283 | For any stream and any split into non-empty reads the outcome is that of the record-by-record specification |
| `HelloReader.TLS` | Teleport_Service/localPackages/go-vhost/tls.go:87-103 | The same, and the returned connection has the whole stream still to deliver, parsed or not; its host is the ServerName, or empty |
| `SharedConns.Replay` | Teleport_Service/localPackages/go-vhost/shared.go:20-52 | Over any accesses: delivered bytes and bytes still to be delivered are the original stream if and only if the tee yielded nothing after a Read had found the buffer used up |
| `SharedConns.LateTee` | Teleport_Service/localPackages/go-vhost/shared.go:29-48 | A concrete run: a tee read after a Read has dropped the buffer takes a byte that no Read delivers |
| `SharedConns.UnreadAfterParsing` | Teleport_Service/localPackages/go-vhost/shared.go:29-52 | Once the header has been parsed, any sequence of Reads delivers the stream from its first byte |
| `SharedConns.AllIsDelivered` | Teleport_Service/localPackages/go-vhost/shared.go:29-52 | And none stalls: one Read for each byte of the stream delivers all of it, whatever the sizes and however much the parser had read |
| `SharedConns.SharedConn.Read` | Teleport_Service/localPackages/go-vhost/shared.go:29-52 | Serves the buffer first, then drops it and reads the connection, as on values |
| `SharedConns.NewShared` | Teleport_Service/localPackages/go-vhost/shared.go:20-27 | A connection and a tee over the same buffer |
| `HostNames.MostSpecific` | Teleport_Service/localPackages/go-vhost/mux.go:162-179 | The exact binding if there is one, otherwise "*."+s with the longest s that follows a dot at the end of the host, otherwise nothing |
| `HostNames.Get` | Teleport_Service/localPackages/go-vhost/mux.go:162-179 | The loop over parts refines that lookup |
| `HostNames.JoinSplit` | Teleport_Service/localPackages/go-vhost/mux.go:168-171 | Joining the split parts gives the name back |
| `Registry.FindsOpenListeners` | Teleport_Service/localPackages/go-vhost/mux.go:73-87 | After any run of Listen and Close a lookup finds only open listeners bound under the host or a wildcard covering it, and the open listener of the host itself |
| `Registry.CloseOnce` | Teleport_Service/localPackages/go-vhost/mux.go:323-329 | Close unbinds its own listener and no other, and closing once more, whatever happened in between, changes nothing |
| `Registry.ListenExactly` | Teleport_Service/localPackages/go-vhost/mux.go:73-87 | After any run Listen fails if and only if an open listener has the name; otherwise the new listener is the one found by it, and no other binding changes |
| `Registry.ClosedIsGone` | Teleport_Service/localPackages/go-vhost/mux.go:323-329 | A closed listener is found by no lookup, then and later, and its name can be bound again at once |
| `Registry.VhostMuxer.Listen` | Teleport_Service/localPackages/go-vhost/mux.go:73-87 | Binds the normalized name or fails because it is bound, on the registry map |
| `Registry.VhostMuxer.Find` | Teleport_Service/localPackages/go-vhost/mux.go:162-179 | What is found is an open listener of this muxer |
| `Registry.Listener.Close` | Teleport_Service/localPackages/go-vhost/mux.go:323-329 | Refines Close on values, once |

## Left out

- ChannelSpec.ChunkProgress: an error returned by the transport's Write is not modelled; every Encode succeeds.
- Codec.Encoder.Encode: errors of the transport's Write are not modelled.
- Channels.Channel.Send: an error returned by Encode is not modelled.
- Channels.Channel.Write: an error returned by Encode is not modelled; waiting in `reserve` is a parameter, the arrivals that end it; that a waiting writer is ever woken is not claimed.
- Sessions.Session.StartOpen: the error that Open returns when its message cannot be sent is not modelled.
- Sessions.Session.HandleOpen: the errors of Encode, which end the loop, are not modelled.
- Sessions.Session.FinishOpen: the choice between a done context and an answer is a parameter; the text of Open's errors is not modelled.
- Sessions.Session.Accept: the choice between the inbox and the token is a parameter; that every blocked Accept is released is not claimed, since there is one token.
- Sessions.Session.Turn: closing the transport, Wait and waking its callers at the loop's end are not modelled.
- SessionSpec.WaitEnds: that the receive that ends a wait ever comes is not claimed.
- Codec.ReadPacket: short reads of the transport and the mapping of ECONNRESET to EOF are not modelled, and DecodePacket is a function where the source assigns the fields of a fresh message.
- Runs.NoErrors: fairness and progress are not claimed; two writers on one channel at once, and the locks, are below the grain of a step.
- HelloReader.ReadClientHello: a connection that yields more bytes after an error, and a reader that returns no bytes and no error, are not modelled.
- Registry.VhostMuxer.Listen: `normalize` is a parameter, any function on strings.
- `VhostMuxer.run` and `handle`, delivery of errors, deadlines and HTTP error bodies: input, output and timing.
- `go-vhost/http.go`: the request parser is a library; for the replay it is any reader through the tee.
- `waitWriterBlocked`, `writeWaiters`, `packetBuf`, debug output and `String` methods: no effect on behaviour.
- `server.go`, `auth/`, `transport/`, `utilities/`, `mux/`: plumbing over libraries, network clients, encryption and interfaces.
