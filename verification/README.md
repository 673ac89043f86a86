# Dafny model of cpp-libp2p: stream multiplexing, scheduling, negotiation, dialling and codecs

This project models the parts of cpp-libp2p that carry state or arithmetic, and proves what they guarantee over every
run or every input. `dafny verify dfyconfig.toml` checks all of it.

Most components come in two layers. The first is a specification on values: datatypes, one function per operation with
the branches of the source, and lemmas about every run of those operations. The second is the object of the source, a
class with its fields, whose methods are proved to compute exactly those functions. Callbacks of the application, of the
link and of transports are later steps of a run; clocks, hash functions and the IP text conversions of a foreign library
are parameters.

| component | specification and theorems | objects |
|---|---|---|
| Yamux frames and the incremental reader | `YamuxFrame`, `YamuxReader` | `YamuxReader.YamuxReadingState`, `ReadBuffers` |
| write queue, read buffer | `WriteQueues`, `ReadBuffers` | the same modules |
| Yamux stream | `YamuxStreamSpec`, `YamuxStreamRuns`, `YamuxCloses`, `YamuxReports` | `YamuxStreams` |
| Yamux connection | `YamuxConnections` | `YamuxConnectionObjects` |
| two connections | `YamuxPair`, `YamuxWire`, `YamuxWriter`, `YamuxEvents`, `YamuxSystem`, `YamuxSteps`, `YamuxCompletion`, `YamuxArrivals`, `YamuxTurns`, `YamuxRuns`, `YamuxTheorems`, `YamuxAnswers`, `YamuxLedger`, `YamuxFindings` | |
| scheduler | `Scheduler` | `SchedulerObjects` |
| multistream-select | `Multiselect`, `MultiselectPeer` | `MultiselectObjects` |
| dialer | `Dialer`, `DialerRequests` | `DialerObjects` |
| SECIO agreement | `Secio` | `Secio.Dialer` |
| varint, multihash, CID, base58, multiaddress | `Varint`, `ContentIdentifier`, `Base58`, `MultiaddressProtocols`, `Multiaddress`, `Text` | `Varint.VarintPrefixReader` |

The Yamux part is the largest. `YamuxRuns` lets two connections of opposite direction act in any order: either side's
application opens, writes, reads, closes and resets streams, timers fire, writes complete or fail, and reads cut the
bytes on the link anywhere. `YamuxPair` holds the invariant of one stream seen from both ends, and every step of either
connection is shown to be, for every stream id, a step that keeps it. The theorems of `YamuxTheorems`, `YamuxAnswers` and
`YamuxLedger` speak about every reachable state or every run of that system. The fields `accepted`, `sent`, `delivered`
and `promised` of a stream, `out`, `past` and `dropped` of a connection, `asked` of the scheduler and of the dialer, and
similar fields elsewhere are records kept for the statements; no branch depends on them. That the records are true is
proved too: `YamuxLedger.RecordsAreTrue` ties those of a stream to what its callbacks were told and its calls brought.

What the functions of the first layer compute is also fixed by laws stated apart from their bodies: what each event of a
stream must report and do (`YamuxReports`), what each message must be answered with (`YamuxAnswers`), what an
application is told over whole runs (`YamuxLedger`), what a request must get (`DialerRequests`), and what an instance
does facing any peer (`MultiselectPeer`).

## Findings

Properties that the documentation or the shape of the code suggests and that do not hold; each has a lemma with a
concrete case and a lemma with the exact condition.

- Unread bytes are dropped at a clean close. A stream that was closed for writing forgets what its application has not
  read yet when the peer's FIN arrives (yamux_stream.cpp:257-279, 326), although `close` is documented to leave the
  other direction usable (include/libp2p/connection/stream.hpp:73-79). `YamuxFindings.ByteLostAtFin` is a run of two
  conforming connections that loses a byte with no reset; `YamuxTheorems.FinLosesUnread`,
  `YamuxTheorems.CallLosesUnread` and `YamuxStreamRuns.UnreadLostExactly` say exactly when it happens.
- `close` may report success for bytes that were never sent. If the peer's FIN arrives while a closed stream still waits
  for window, the stream is closed at once (yamux_stream.cpp:269-276): what waits and the stream's own FIN never go out,
  nor does a reset, and the close callback gets success. `YamuxFindings.ByteNeverSent` is a run that ends so;
  `YamuxTheorems.FinLosesUnsent` and `YamuxStreamRuns.UnsentLostExactly` are the exact conditions.
- A late ACK closes the whole connection. An application that resets a stream right after opening it causes a protocol
  error when the peer's ACK arrives (yamuxed_connection.cpp:413-435): `YamuxFindings.LateAckEndsConnection`;
  `YamuxTheorems.ConnectionEndsExactly` is the exact condition.
- A second `close` on an open stream overwrites the stored callback, which is never called (yamux_stream.cpp:98):
  `YamuxCloses.SecondCloseOverwrites`, `YamuxCloses.EveryCloseAnswered`.
- `timer_` of the scheduler is not initialised (include/libp2p/basic/scheduler/scheduler_impl.hpp:63). With a first value
  in the future a callback may be overdue by any amount: `Scheduler.LateFromStaleTimer`; the lateness bound holds in
  every run exactly if it does not start in the future: `Scheduler.LatenessBound`.
- A CID whose multihash has fewer than four bytes or an empty hash encodes but does not decode:
  `ContentIdentifier.ShortHashLost`, `ContentIdentifier.CidRoundTrip`.
- `encodeCIDV1` truncates the content type to one byte: `ContentIdentifier.SealedCommitmentLost`,
  `ContentIdentifier.DirectRoundTrip`.
- A multiaddress may parse and not print, although `Multiaddress::create` asserts that it does
  (src/multi/multiaddress.cpp:65-67): Unix paths, `Multiaddress.UnixDoesNotPrint`, and unusual host names; the exact
  condition is `Multiaddress.PrintsExactlyWhen`.
- A blank peer id is lost. The base58 decoder skips white space (src/multi/multibase_codec/codecs/base58.cpp:113-117), so
  "/p2p/ " parses; it prints as "/p2p/", which does not: `Multiaddress.OneBlankLost`, `Multiaddress.BlankPeerLost`. The
  printed text parses to the same bytes exactly if no peer id is blank: `Multiaddress.Canonical`.

## Model

| member | source | states |
|---|---|---|
| `YamuxTheorems.DeliveredInOrder` | src/muxer/yamux/yamux_stream.cpp:196-255 | In every reachable state of two connections, what a side has delivered from a stream is a prefix of what the other side's writes accepted: no loss inside, no duplication, no reordering, no mix-up of streams. `YamuxLedger.RecordsAreTrue` ties both records to what the callbacks were told. |
| `YamuxLedger.ToldInOrder` | src/muxer/yamux/yamux_stream.cpp:350-384 | The same about the application: in every run, the bytes that the read callbacks of one side are told, joined, are a prefix of the bytes of the other side's `writeSome` calls that were not refused. |
| `YamuxLedger.RecordsAreTrue` | src/muxer/yamux/yamux_stream.cpp:196-255 | In every run the records `delivered` and `accepted` of every stream, live or past, are what its read callbacks were told and what its unrefused writes brought. |
| `YamuxLedger.ToldAllAfterFin` | src/muxer/yamux/yamux_stream.cpp:257-279 | Once the peer's FIN has come, what the reads of a stream in the table were told, followed by what it still holds, is everything the peer's writes brought. |
| `YamuxLedger.DataExactly` | src/muxer/yamux/yamuxed_connection.cpp:309-338 | In every reachable state, data for a stream of the table is delivered to the waiting read as far as that asked and buffered for the rest, in order, and exactly what was delivered is granted again; data for any other id is thrown away without an answer; no other stream changes. |
| `YamuxTheorems.CompleteAfterFin` | src/muxer/yamux/yamux_stream.cpp:257-279 | A stream still in the table after the peer's FIN holds, or has handed out, every byte the peer's writes ever accepted. |
| `YamuxTheorems.FinLosesUnread` | src/muxer/yamux/yamux_stream.cpp:257-279 | When a FIN arrives, every byte the peer ever accepted is there; after the FIN they are all still readable if and only if this side had not closed for writing or had nothing unread. |
| `YamuxTheorems.CallLosesUnread` | src/muxer/yamux/yamux_stream.cpp:90-109 | Of the application's own calls other than a reset, only the `close` that finishes the stream drops received bytes, and only if some were unread. |
| `YamuxTheorems.FinLosesUnsent` | src/muxer/yamux/yamux_stream.cpp:257-279 | When a FIN reaches a stream this side has closed, the stream leaves the table; all it accepted has been sent if and only if nothing waited for window, and its own FIN if and only if it had been sent before. |
| `YamuxTheorems.FlowConserved` | src/muxer/yamux/yamux_stream.cpp:138-255 | Conservation of flow control in every reachable state: send window, bytes under way, window updates under way and bytes buffered never exceed `peers_window_size_`, and equal it until the receiver sends or sees FIN. |
| `YamuxTheorems.LinksCarry` | src/muxer/yamux/yamuxed_connection.cpp:555-622 | The bytes on a link, with what its reader holds, are the image of exactly one sequence of packets, so "under way" is determined by the state. |
| `YamuxTheorems.WithinWindow` | src/muxer/yamux/yamux_stream.cpp:224-247 | A buffer never exceeds the window its stream granted, even counting all the peer may still send, and the window never exceeds the configured maximum. |
| `YamuxTheorems.DrainedBalance` | src/muxer/yamux/yamux_stream.cpp:350-423 | With nothing under way every byte sent is delivered or buffered, and the sender's window plus the receiver's buffer is the receiver's window until that receiver sends or sees FIN. |
| `YamuxTheorems.StalledOnlyByReader` | src/muxer/yamux/yamux_stream.cpp:386-423 | No deadlock of flow control: with nothing under way, a stream that still has bytes or a FIN to send faces a peer whose application leaves a full window unread. |
| `YamuxTheorems.TablesAreConsistent` | src/muxer/yamux/yamuxed_connection.cpp:90-126 | Ids have the parity of the side that opens them and are used once; live, pending and past ids are disjoint; no stream in the table is closed. |
| `YamuxTheorems.ErrorBranchesUnreachable` | src/muxer/yamux/yamuxed_connection.cpp:345-385 | Between two such connections no header is unparsable, no SYN has the wrong direction or repeats an id, and no data overflows a window. |
| `YamuxTheorems.ConnectionEndsExactly` | src/muxer/yamux/yamuxed_connection.cpp:258-307 | A turn of the reading loop closes the connection if and only if it meets a go-away, a new stream with no handler set, or the ACK of a stream already erased. |
| `YamuxAnswers.OpensExactly` | src/muxer/yamux/yamuxed_connection.cpp:90-126 | `newStream` on a running connection with room takes an id never used, adds one stream and writes its SYN last; otherwise nothing changes. |
| `YamuxAnswers.SynExactly` | src/muxer/yamux/yamuxed_connection.cpp:345-396 | A SYN that comes in any reachable state is accepted, with one new stream and an ACK as the last packet, if and only if there is room and a handler; without room it is answered with an RST and the tables stay; with room and no handler the connection ends. Every other stream is untouched. |
| `YamuxAnswers.AckExactly` | src/muxer/yamux/yamuxed_connection.cpp:398-447 | An ACK turns exactly the pending stream it names into a live one, does nothing to a live one, and ends the connection with a protocol error otherwise. |
| `YamuxAnswers.FinExactly` | src/muxer/yamux/yamuxed_connection.cpp:449-474 | A FIN makes its stream unreadable or, if it was closed for writing, takes it out; a pending one is given up; an unknown one changes nothing. |
| `YamuxAnswers.RstExactly` | src/muxer/yamux/yamuxed_connection.cpp:476-501 | An RST takes exactly its stream out of the tables, with what it had delivered, and nothing is written. |
| `YamuxAnswers.PingExactly` | src/muxer/yamux/yamuxed_connection.cpp:345-356 | A ping is answered with its own value, an answer to a ping with nothing; the tables stay. |
| `YamuxAnswers.ShutdownExactly` | src/muxer/yamux/yamuxed_connection.cpp:515-553 | A side that shuts down empties its tables and writes a go-away with its reason last, or nothing. |
| `YamuxAnswers.DropExactly` | src/muxer/yamux/yamuxed_connection.cpp:572-576 | A stream nobody holds any more, or one that is reset after it left the table, is reset at the peer. |
| `YamuxTheorems.CompletionsMatch` | src/muxer/yamux/yamuxed_connection.cpp:637-659 | The completion of a write always matches the oldest bytes its stream still waits for, so the reset on an inconsistent acknowledgement is unreachable. |
| `YamuxTheorems.ReachableInv` | src/muxer/yamux/yamuxed_connection.cpp:198-256 | The system invariant holds in every reachable state, seen from either side. |
| `YamuxFindings.ByteLostAtFin` | src/muxer/yamux/yamux_stream.cpp:257-279 | For every configuration there is a run in which both sides finish without a reset and a byte written by one is neither read by the other nor readable any more. |
| `YamuxFindings.ByteNeverSent` | src/muxer/yamux/yamux_stream.cpp:269-276 | For every configuration there is a run in which `close` reports success, a byte and the FIN are never sent, nothing is reset, and the other side still waits. |
| `YamuxFindings.LateAckEndsConnection` | src/muxer/yamux/yamuxed_connection.cpp:398-435 | For every configuration there is a run in which an ordinary ACK makes a side close its connection with a protocol error. |
| `YamuxFindings.ReachableNext` | src/muxer/yamux/yamuxed_connection.cpp:198-256 | Reachability is closed under every enabled move. |
| `YamuxRuns.RunGood` | src/muxer/yamux/yamuxed_connection.cpp:258-670 | Every run of two connections keeps the invariant, whatever the order of calls, timers, completions, failures and reads. |
| `YamuxRuns.StepGood` | src/muxer/yamux/yamuxed_connection.cpp:258-670 | Each single move of either side keeps it. |
| `YamuxTurns.TurnStep` | src/muxer/yamux/yamuxed_connection.cpp:258-338 | A turn of the reading loop, on whatever part of a frame is at hand, keeps the invariant. |
| `YamuxTurns.SynFindsFree` | src/muxer/yamux/yamuxed_connection.cpp:345-396 | A SYN that arrives has the peer's parity and an id this side has never seen. |
| `YamuxTurns.HeaderHandled` | src/muxer/yamux/yamuxed_connection.cpp:258-307 | The header of each message the library builds reaches exactly the handler meant for it. |
| `YamuxCompletion.WriteDoneStep` | src/muxer/yamux/yamuxed_connection.cpp:624-670 | A completed write acknowledges its stream's oldest bytes and starts the next packet, keeping the invariant. |
| `YamuxSteps.CloseStep` | src/muxer/yamux/yamuxed_connection.cpp:515-553 | Closing a connection, with or without a go-away, keeps the invariant for the peer's streams. |
| `YamuxSteps.OpenStep` | src/muxer/yamux/yamuxed_connection.cpp:90-126 | Opening a stream, waiting for the ACK or not, keeps the invariant. |
| `YamuxSteps.AppStep` | src/muxer/yamux/yamux_stream.cpp:68-167 | Every call of the application on a stream of the table keeps the invariant, and the stream stays in the table exactly while it is open. |
| `YamuxPair.OwnEventKeeps` | src/muxer/yamux/yamux_stream.cpp:68-167 | An application's event at one end keeps delivery, flow control, FIN order and handshake of the stream seen from both ends. |
| `YamuxPair.DataFits` | src/muxer/yamux/yamux_stream.cpp:196-255 | Data of a conforming peer never overflows, in whatever pieces it arrives. |
| `YamuxPair.DataKeeps` | src/muxer/yamux/yamux_stream.cpp:196-255 | Taking any part of a data message keeps the two-ended invariant. |
| `YamuxPair.FinKeeps` | src/muxer/yamux/yamux_stream.cpp:257-279 | Taking a FIN keeps the two-ended invariant. |
| `YamuxPair.SynKeeps` | src/muxer/yamux/yamuxed_connection.cpp:345-396 | Accepting or refusing a stream keeps the two-ended invariant. |
| `YamuxPair.PrefixDelivered` | src/muxer/yamux/yamux_stream.cpp:196-255 | The invariant implies that what one end delivered is a prefix of what the other accepted. |
| `YamuxWire.TurnHeader` | src/muxer/yamux/yamux_reading_state.cpp:84-117 | A complete header is that of the first packet due; a packet without payload is taken off, a data packet stays due. |
| `YamuxWire.TurnSegment` | src/muxer/yamux/yamux_reading_state.cpp:51-82 | A segment is the front of the data packet due first, which is shortened by it or taken off; discarding the message takes off that packet only. |
| `YamuxWire.CarriesOne` | src/muxer/yamux/yamux_frame.cpp:16-41 | At most one sequence of packets is the meaning of given bytes. |
| `YamuxWriter.EnqueueSends` | src/muxer/yamux/yamuxed_connection.cpp:600-622 | A packet handed to the connection comes after everything already under way and awaits its completion last. |
| `YamuxWriter.PerformSends` | src/muxer/yamux/yamuxed_connection.cpp:555-598 | The packets of a stream's calls go out in the order of the calls, and the stream leaves the table exactly if one of them erases it. |
| `YamuxStreamRuns.EveryFreshRun` | src/muxer/yamux/yamux_stream.cpp:90-447 | Every run of a new stream: data handed out is a prefix of the data of the accepted writes; FIN comes at most once, after all of it; accepted writes are answered in order, each once, a success with its full size; every read is answered once or is the stored one; the bytes told to the reads, joined, are what the stream delivered; a closed stream stores nothing. |
| `YamuxStreamRuns.EveryRun` | src/muxer/yamux/yamux_stream.cpp:90-447 | The same invariant from any state of a run. |
| `YamuxReports.EveryRunReports` | src/muxer/yamux/yamux_stream.cpp:350-384 | Every run of a new stream, whatever its peer sends: the bytes told to the reads, joined, are what was delivered; each read that succeeds is told at least one byte and at most as many as it asked for; unread bytes stay within the window granted while the stream is open. |
| `YamuxReports.StepLawful` | src/muxer/yamux/yamux_stream.cpp:90-447 | Each event on each stream, open or closed: the stream closes exactly for the reason that state and event give, and every callback it runs has the outcome, the error and the deferral that state and event give: reads after FIN, refused writes, resets, inconsistent acknowledgements, window sizes. |
| `YamuxReports.StepHappens` | src/muxer/yamux/yamux_stream.cpp:138-279 | What must happen does: a read with bytes at hand succeeds at once, one without waits; arriving bytes go to the waiting read; exactly the bytes told, and what an accepted change of the window adds, are granted, and only while the peer may still send; a stream can be read until a FIN and written until `close`; the window is the one the events add up to. |
| `YamuxReports.Verdicts` | src/muxer/yamux/yamux_stream.cpp:196-279 | The connection is told to reset a stream if and only if data overflows its window or data or a FIN meets a closed stream, and to drop it if and only if a FIN meets one closed for writing. |
| `YamuxReports.RstIsSent` | src/muxer/yamux/yamux_stream.cpp:133-136 | A reset, and an acknowledgement that cannot be right, send an RST before anything else. |
| `YamuxStreamRuns.ClosedRunIsSettled` | src/muxer/yamux/yamux_stream.cpp:308-348 | Once closed, every accepted write and every read asked for was answered exactly once. |
| `YamuxStreamRuns.StepKept` | src/muxer/yamux/yamux_stream.cpp:90-447 | Each event keeps the stream's invariant, accounts for every byte and every unit of window, and sends FIN only after all data. |
| `YamuxStreamRuns.StepSettles` | src/muxer/yamux/yamux_stream.cpp:290-348 | Each event answers a front part of the stored writes, in order, and keeps the others; a refused write is answered at once. |
| `YamuxStreamRuns.StepReads` | src/muxer/yamux/yamux_stream.cpp:350-384 | Each event answers the stored read or keeps it; a new read is answered or stored. |
| `YamuxStreamRuns.StepReported` | src/muxer/yamux/yamux_stream.cpp:350-384 | What an event adds to the delivered bytes is what it tells the reads, byte for byte. |
| `YamuxStreamRuns.StepAccepts` | src/muxer/yamux/yamux_stream.cpp:425-447 | A write adds its bytes to the accepted ones if and only if it is not refused; no other event adds any. |
| `YamuxStreamRuns.UnreadLostExactly` | src/muxer/yamux/yamux_stream.cpp:257-348 | A stream closes cleanly on exactly three events, and a received byte is lost at a clean close if and only if it was unread. |
| `YamuxStreamRuns.UnsentLostExactly` | src/muxer/yamux/yamux_stream.cpp:257-348 | A clean close reports success to the stored `close`; everything accepted and the FIN have gone out unless the peer's FIN closes the stream first, and then if and only if nothing waited and the FIN had been sent. |
| `YamuxCloses.EveryCloseAnswered` | src/muxer/yamux/yamux_stream.cpp:90-109 | In a run that ends closed, each close callback is answered exactly once if and only if `close` was never called on the open stream while one was stored. |
| `YamuxCloses.SecondCloseOverwrites` | src/muxer/yamux/yamux_stream.cpp:90-109 | On a stream whose peer has not finished, a second `close` throws the first callback away. |
| `YamuxCloses.StepCloses` | src/muxer/yamux/yamux_stream.cpp:308-348 | Each event answers, keeps or overwrites the stored close callback, and does one of these with a new one. |
| `YamuxStreamSpec.FlushKept` | src/muxer/yamux/yamux_stream.cpp:386-423 | `doWrite` pays for every byte with window, sends FIN once everything is sent and the window is open, and keeps the stream's invariant. |
| `YamuxStreamSpec.OnDataKept` | src/muxer/yamux/yamux_stream.cpp:196-255 | Received bytes are delivered or buffered in order, and exactly the delivered ones are granted again. |
| `YamuxStreamSpec.OnFinKept` | src/muxer/yamux/yamux_stream.cpp:257-279 | FIN keeps the stream's invariant and closes it exactly if it was closed for writing. |
| `YamuxStreamSpec.OnWrittenKept` | src/muxer/yamux/yamux_stream.cpp:290-302 | A consistent acknowledgement only runs callbacks and never closes the stream. |
| `YamuxStreams.YamuxStream.constructor` | src/muxer/yamux/yamux_stream.cpp:48-66 | A new stream object stands for the new stream of the specification. |
| `YamuxStreams.YamuxStream.WriteSome` | src/muxer/yamux/yamux_stream.cpp:425-447 | Next state and calls are those specified, refusals included. |
| `YamuxStreams.YamuxStream.ReadSome` | src/muxer/yamux/yamux_stream.cpp:350-384 | As specified, and the bytes reported are in the caller's buffer. What the specified read must report is `YamuxReports.StepLawful`, `YamuxReports.StepHappens` and `YamuxReports.EveryRunReports`. |
| `YamuxStreams.YamuxStream.DoWrite` | src/muxer/yamux/yamux_stream.cpp:386-423 | The loop over dequeued chunks sends exactly what the specification's flush sends. |
| `YamuxStreams.YamuxStream.SendQueued` | src/muxer/yamux/yamux_stream.cpp:386-404 | The chunks sent are those the window allows, in order, and the window shrinks by their size. |
| `YamuxStreams.YamuxStream.Close` | src/muxer/yamux/yamux_stream.cpp:90-109 | As specified for open, half-closed and closed streams. |
| `YamuxStreams.YamuxStream.Reset` | src/muxer/yamux/yamux_stream.cpp:133-136 | RST first, then everything stored fails. |
| `YamuxStreams.YamuxStream.AdjustWindowSize` | src/muxer/yamux/yamux_stream.cpp:138-167 | Grants the difference if the new size is allowed, with the callback's error otherwise. |
| `YamuxStreams.YamuxStream.IncreaseSendWindow` | src/muxer/yamux/yamux_stream.cpp:185-194 | A window update sends what it makes room for, and FIN when due. |
| `YamuxStreams.YamuxStream.OnDataReceived` | src/muxer/yamux/yamux_stream.cpp:196-255 | As specified, with the stored reader's buffer filled with the next bytes. |
| `YamuxStreams.YamuxStream.OnFINReceived` | src/muxer/yamux/yamux_stream.cpp:257-279 | As specified, verdict included. |
| `YamuxStreams.YamuxStream.OnRSTReceived` | src/muxer/yamux/yamux_stream.cpp:281-288 | Everything stored fails as reset by the peer. |
| `YamuxStreams.YamuxStream.OnDataWritten` | src/muxer/yamux/yamux_stream.cpp:290-302 | The oldest write is acknowledged, or the stream is reset on an inconsistency. |
| `YamuxStreams.YamuxStream.DoClose` | src/muxer/yamux/yamux_stream.cpp:308-348 | Every stored write, the stored close and then the stored read fail, in that order, and nothing stays stored. |
| `YamuxConnectionObjects.YamuxedConnection.constructor` | src/muxer/yamux/yamuxed_connection.cpp:30-64 | A new connection object stands for the new connection of the specification. |
| `YamuxConnectionObjects.YamuxedConnection.Enqueue` | src/muxer/yamux/yamuxed_connection.cpp:600-622 | A packet is written at once or queued behind the others. |
| `YamuxConnectionObjects.YamuxedConnection.Perform` | src/muxer/yamux/yamuxed_connection.cpp:555-598 | What a stream asks of its connection, with the stream erased where the source erases it. |
| `YamuxConnectionObjects.YamuxedConnection.NewStream` | src/muxer/yamux/yamuxed_connection.cpp:90-126 | Opens a stream as specified, or reports that the connection is inactive or full. |
| `YamuxConnectionObjects.YamuxedConnection.OnStream` | src/muxer/yamux/yamuxed_connection.cpp:449-513 | An event on one stream object changes that stream as specified and no other stream of the table. |
| `YamuxConnectionObjects.YamuxedConnection.ProcessSyn` | src/muxer/yamux/yamuxed_connection.cpp:345-396 | As specified: ping, refusals, and a new stream object that is acknowledged; every other stream object keeps its state. What the specified answer must be is `YamuxAnswers.SynExactly`. |
| `YamuxConnectionObjects.YamuxedConnection.ProcessAck` | src/muxer/yamux/yamuxed_connection.cpp:398-447 | As specified: pong, a pending stream created, a live one left alone, an unknown one an error. |
| `YamuxConnectionObjects.YamuxedConnection.ProcessFin` | src/muxer/yamux/yamuxed_connection.cpp:449-474 | The stream learns of the FIN and is erased if that finishes it; a pending one is given up. |
| `YamuxConnectionObjects.YamuxedConnection.ProcessRst` | src/muxer/yamux/yamuxed_connection.cpp:476-501 | The stream leaves the table and then learns of the reset. |
| `YamuxConnectionObjects.YamuxedConnection.ProcessWindowUpdate` | src/muxer/yamux/yamuxed_connection.cpp:503-513 | The stream's window grows and what it then sends goes out. |
| `YamuxConnectionObjects.YamuxedConnection.ProcessData` | src/muxer/yamux/yamuxed_connection.cpp:309-338 | Data reaches its stream; an unknown stream or an overflow discards the rest of the message. |
| `YamuxConnectionObjects.YamuxedConnection.ProcessHeader` | src/muxer/yamux/yamuxed_connection.cpp:258-307 | All flags of one header, in the order of the source. |
| `YamuxConnectionObjects.YamuxedConnection.Close` | src/muxer/yamux/yamuxed_connection.cpp:515-553 | The tables are emptied, every stream object that was in them ends closed with the given error, and the link is closed at once or after a go-away. |
| `YamuxConnectionObjects.YamuxedConnection.OnDataWritten` | src/muxer/yamux/yamuxed_connection.cpp:624-670 | Completion and failure of a write as specified. |
| `YamuxConnectionObjects.YamuxedConnection.OnRead` | src/muxer/yamux/yamuxed_connection.cpp:198-226 | A stopped connection ignores the read; a failed one closes it and every stream with the mapped error; bytes are worked off turn by turn until none is left or the connection is closed. |
| `YamuxConnectionObjects.YamuxedConnection.WorkOff` | src/muxer/yamux/yamuxed_connection.cpp:212-226 | The loop over the bytes of one read ends in the state that the specified turns lead to. |
| `YamuxConnectionObjects.YamuxedConnection.CallStream` | src/muxer/yamux/yamux_stream.cpp:68-167 | A call of the application on a stream object, together with what the stream then asks of the connection, is the specified step. |
| `YamuxConnectionObjects.ReadIsRun` | src/muxer/yamux/yamuxed_connection.cpp:198-226 | What `OnRead` does, with bytes from the link or with a failure, is a run of the two-connection system, so the theorems about runs apply to it. |
| `YamuxConnectionObjects.ReadTurnsAreMoves` | src/muxer/yamux/yamuxed_connection.cpp:212-226 | The turns alone are such a run. |
| `YamuxConnectionObjects.CloseStreams` | src/muxer/yamux/yamuxed_connection.cpp:534-536 | Every stream of a table is closed, whatever the order of iteration. |
| `WriteQueues.EveryQueueRun` | src/basic/write_queue.cpp:21-119 | Every run of a new queue: acknowledgements in sending order are never inconsistent, callbacks fire in order with the full size of their item, chunks handed out concatenate to a prefix of what was accepted, and unsent bytes stay within the limit. |
| `WriteQueues.QueueRuns` | src/basic/write_queue.cpp:21-119 | The same from any state of a run. |
| `WriteQueues.AckOutstanding` | src/basic/write_queue.cpp:72-119 | The size of the oldest unacknowledged chunk is always accepted, and leaves the later chunks outstanding. |
| `WriteQueues.ChunkIsMaximal` | src/basic/write_queue.cpp:31-70 | A chunk uses the window up or reaches the end of an item, and no item ends inside it. |
| `WriteQueues.PumpSendsPrefix` | src/muxer/yamux/yamux_stream.cpp:386-404 | Chunk by chunk, the longest prefix of the unsent bytes that fits the window is sent. |
| `WriteQueues.PumpOutstanding` | src/muxer/yamux/yamux_stream.cpp:386-404 | The chunks sent become outstanding in order. |
| `WriteQueues.WriteQueue.Add` | src/basic/write_queue.cpp:21-29 | The counters stand for the queue with the item appended. |
| `WriteQueues.WriteQueue.Take` | src/basic/write_queue.cpp:31-70 | The chunk is the next unsent bytes within one item and the window, and the counters move on by it. |
| `WriteQueues.WriteQueue.AckDataSent` | src/basic/write_queue.cpp:72-119 | Only the oldest item's sent bytes can be acknowledged; a finished item yields its callback and size; on inconsistency nothing changes. |
| `WriteQueues.WriteQueue.GetAllCallbacks` | src/basic/write_queue.cpp:121-132 | The callbacks of all stored items, in order. |
| `ReadBuffers.ReadBuffer.Add` | src/basic/read_buffer.cpp:22-56 | Appends to the content, through the reuse of the last fragment's capacity. |
| `ReadBuffers.ReadBuffer.Consume` | src/basic/read_buffer.cpp:58-82 | The output gets as much of the front as fits, and the rest stays. |
| `ReadBuffers.ReadBuffer.AddAndConsume` | src/basic/read_buffer.cpp:84-117 | Output and remaining content together are the old content followed by the input. |
| `ReadBuffers.ReadBuffer.ConsumeAll` | src/basic/read_buffer.cpp:126-168 | All fragments are copied in order and the buffer is empty. |
| `ReadBuffers.ReadBuffer.ConsumePart` | src/basic/read_buffer.cpp:170-194 | A part of the first fragment is copied and dropped. |
| `ReadBuffers.FixedBufferCollector.Add` | src/basic/read_buffer.cpp:210-247 | A block is reported exactly when complete and is the first bytes seen; until then nothing is lost. |
| `YamuxReader.FramesSurviveChunking` | src/muxer/yamux/yamux_reading_state.cpp:40-117 | Any frames, cut into reads anywhere, are reported as those frames: headers in order, each payload whole and on its stream, RST and FIN after its last byte. |
| `YamuxReader.ChunkingIndependence` | src/muxer/yamux/yamux_reading_state.cpp:40-117 | From every state the reader gives the same result for every cut of the same bytes, namely that of a machine that reads byte by byte. |
| `YamuxReader.LoopIsByteRun` | src/muxer/yamux/yamux_reading_state.cpp:40-117 | One read is a run of that byte machine. |
| `YamuxReader.DiscardKeepsAlignment` | src/muxer/yamux/yamux_reading_state.cpp:119-123 | With arbitrary discards every header is still found and none is invented. |
| `YamuxReader.DiscardsHideTheirMessage` | src/muxer/yamux/yamux_reading_state.cpp:119-123 | With arbitrary discards the reader reports what it reports without, except that data is hidden from a discard up to the next header; an undiscarded message arrives whole. |
| `YamuxReader.YamuxReadingState.OnDataReceived` | src/muxer/yamux/yamux_reading_state.cpp:40-49 | The loop makes the specified callbacks, whatever they answer. |
| `YamuxReader.YamuxReadingState.ProcessHeader` | src/muxer/yamux/yamux_reading_state.cpp:84-117 | The header collector, the announced payload and the flags held back are as specified. |
| `YamuxReader.YamuxReadingState.ProcessData` | src/muxer/yamux/yamux_reading_state.cpp:51-82 | The next segment or discarded bytes are as specified. |
| `YamuxFrame.FrameRoundTrip` | src/muxer/yamux/yamux_frame.cpp:16-41 | A printed header parses back, whatever follows it. |
| `YamuxFrame.FrameParseThenPrint` | src/muxer/yamux/yamux_frame.cpp:128-161 | Printing what was parsed from a header with a single flag gives its bytes. |
| `YamuxFrame.HeaderLayout` | src/muxer/yamux/yamux_frame.cpp:128-161 | Bytes parse if and only if there are twelve and the type is known; version, type, flags, stream id and length are at their places, as numbers with the most significant byte first, and each flag is its bit. |
| `YamuxFrame.MessageLayout` | src/muxer/yamux/yamux_frame.cpp:16-126 | For each message the library builds: its type, its flags, its stream id, its length or value, byte by byte, and its payload. |
| `YamuxFrame.FlagsHeldBack` | src/muxer/yamux/yamux_reading_state.cpp:105-112 | Holding RST and FIN back clears those two flags and no other. |
| `YamuxFrame.OversizedPayloadIsMisread` | src/muxer/yamux/yamux_frame.cpp:99-109 | The announced length is the payload's if and only if that is below 2^32. |
| `Scheduler.LatenessBound` | src/basic/scheduler/scheduler_impl.cpp:87-102 | No pending callback is ever overdue by the threshold after `shift`, in every run, if and only if the uninitialised timer value, any integer, does not lie in the future. |
| `Scheduler.LateFromStaleTimer` | src/basic/scheduler/scheduler_impl.cpp:87-102 | With a first timer value in the future, for every amount there is a run in which a callback is overdue by the threshold and that amount. |
| `Scheduler.EveryTaskInOnePlace` | src/basic/scheduler/scheduler_impl.cpp:19-84 | In every run each task is posted, pending, run or dropped, exactly one of these; it runs at most once, not before it is due, and not once cancelled. |
| `Scheduler.PulseArms` | src/basic/scheduler/scheduler_impl.cpp:87-102 | From any state in which scheduler and backend agree on the timer, `pulse` returns with the timer armed after now and within the threshold of the earliest deadline, if callbacks are pending; a timer it sets anew is not before the earliest deadline and not before the threshold from now. |
| `Scheduler.CallReadyOrder` | src/basic/scheduler/scheduler_impl.cpp:104-120 | The ready entries are taken in the order of the multimap; each is run or, if cancelled by then, passed over. |
| `Scheduler.InsertionOrder` | src/basic/scheduler/scheduler_impl.cpp:19-84 | In every run the multimap lists the pending tasks by deadline and, for equal deadlines, in the order they were scheduled. |
| `Scheduler.ErasePresent` | src/basic/scheduler/scheduler_impl.cpp:43-84 | A posted erasure whose record holds an iterator finds its entry in the multimap. |
| `Scheduler.CancelTakesEffect` | src/basic/scheduler/scheduler_impl.cpp:43-84 | Cancelling a handled task that has not run always takes effect. |
| `Scheduler.CancelledNeverRuns` | src/basic/scheduler/scheduler_impl.cpp:43-120 | Once a cancellation took effect the callback never starts, whatever happens later. |
| `Scheduler.NeverBeforeAsked` | src/basic/scheduler/scheduler_impl.cpp:19-42 | In every run no task starts before the clock of its call plus the delay it asked for. |
| `Scheduler.PendingInTime` | src/basic/scheduler/scheduler_impl.cpp:87-102 | In every run whose timer does not start in the future, a pending task asked for a delay, and the clock is still before its call's clock plus the delay plus the threshold. |
| `Scheduler.AtOnce` | src/basic/scheduler/scheduler_impl.cpp:19-42 | After each `shift`, in every run, a task asked for without a delay has run once or was cancelled. |
| `Scheduler.CancelledIsGone` | src/basic/scheduler/scheduler_impl.cpp:43-84 | After each `shift`, in every run, a cancelled task has been dropped and has no entry left, however far its deadline is. |
| `Scheduler.RunKeeps` | src/basic/scheduler/scheduler_impl.cpp:19-120 | Every run keeps the invariant of all tasks and the armed timer. |
| `SchedulerObjects.SchedulerImpl.ScheduleImpl` | src/basic/scheduler/scheduler_impl.cpp:19-42 | A new task is posted as specified. When it may start and when it must have started, counted from this call, is `Scheduler.NeverBeforeAsked`, `Scheduler.PendingInTime` and `Scheduler.AtOnce`. |
| `SchedulerObjects.SchedulerImpl.CancelHandle` | src/basic/scheduler/scheduler_impl.cpp:43-84 | Cancellation as specified, for posted, pending, running and finished tasks. |
| `SchedulerObjects.SchedulerImpl.CallReady` | src/basic/scheduler/scheduler_impl.cpp:104-120 | The loop runs what the specification runs, while callbacks schedule and cancel others. |
| `SchedulerObjects.SchedulerImpl.Pulse` | src/basic/scheduler/scheduler_impl.cpp:87-102 | The loop ends with the specified state and timer. |
| `SchedulerObjects.SchedulerImpl.CallDeferred` | src/basic/scheduler/manual_scheduler_backend.cpp:38-44 | All posted work runs, that posted meanwhile included. |
| `SchedulerObjects.SchedulerImpl.Shift` | src/basic/scheduler/manual_scheduler_backend.cpp:21-31 | Posted work, the clock and the timer in the order of the source. |
| `Multiselect.Agreement` | src/protocol_muxer/multiselect/multiselect_instance.cpp:289-350 | In every run, if the initiator succeeds it is with its first protocol that the listener supports, every earlier one is unsupported, and the listener chose the same. |
| `Multiselect.SuccessAfterEcho` | src/protocol_muxer/multiselect/multiselect_instance.cpp:160-178 | The listener succeeds only after its echo, the last thing it says, was written, and with a protocol both know. |
| `Multiselect.OnlyHonestFailures` | src/protocol_muxer/multiselect/multiselect_instance.cpp:258-350 | Two such instances never report a protocol violation, and the initiator gives up only if nothing it offers is supported. |
| `Multiselect.NeverStuck` | src/protocol_muxer/multiselect/multiselect_instance.cpp:98-178 | With nothing under way a side is still open only if the other has closed with a failure; after the initiator's success both are closed. |
| `Multiselect.ProposalFindsEmptyQueue` | src/protocol_muxer/multiselect/multiselect_instance.cpp:289-323 | A proposal arrives when the listener's queue is empty, so clearing it on acceptance drops nothing. |
| `Multiselect.RunKeeps` | src/protocol_muxer/multiselect/multiselect_instance.cpp:35-350 | Every run, with instances used again for later rounds, keeps the negotiation invariant. |
| `MultiselectPeer.InitiatorExactly` | src/protocol_muxer/multiselect/multiselect_instance.cpp:289-350 | An initiator facing any peer, over every sequence of reads and completed writes: it succeeds with its k-th protocol if and only if k refusals and then that name came, is exhausted if and only if all were refused, reports a violation on anything else, and until then has proposed one protocol more than were refused, in order. |
| `MultiselectPeer.ListenerExactly` | src/protocol_muxer/multiselect/multiselect_instance.cpp:289-350 | A listener facing any peer answers the first known name with that name, as the last thing it says, and takes a refusal or anything that is no name for a violation. |
| `MultiselectPeer.ListenerRefuses` | src/protocol_muxer/multiselect/multiselect_instance.cpp:289-323 | Names it does not know are refused one by one, and the negotiation goes on. |
| `MultiselectPeer.BeginsWith` | src/protocol_muxer/multiselect/multiselect_instance.cpp:35-88 | A negotiation begins with the opening, if it is to be negotiated, and the initiator's first protocol. |
| `MultiselectPeer.OpenedExactly` | src/protocol_muxer/multiselect/multiselect_instance.cpp:258-287 | An initiator counts as opened if and only if it was before or the peer's opening has come. |
| `MultiselectPeer.ProposalPacket` | src/protocol_muxer/multiselect/multiselect_instance.cpp:98-115 | A proposal goes in one packet with the opening until the peer's opening has come, at once or behind the queue. |
| `MultiselectObjects.MultiselectInstance.SelectOneOf` | src/protocol_muxer/multiselect/multiselect_instance.cpp:35-88 | Starting a negotiation on a fresh or reused instance is as specified. |
| `MultiselectObjects.MultiselectInstance.SendPacket` | src/protocol_muxer/multiselect/multiselect_instance.cpp:141-158 | A packet is written at once or queued. |
| `MultiselectObjects.MultiselectInstance.OnDataWritten` | src/protocol_muxer/multiselect/multiselect_instance.cpp:160-178 | A completed write reports the listener's success or sends the next packet. |
| `MultiselectObjects.MultiselectInstance.ProcessMessages` | src/protocol_muxer/multiselect/multiselect_instance.cpp:258-287 | The messages of one read are handled until one decides. |
| `MultiselectObjects.MultiselectInstance.HandleProposal` | src/protocol_muxer/multiselect/multiselect_instance.cpp:289-323 | Echo, refusal or violation as specified for each role. |
| `MultiselectObjects.MultiselectInstance.HandleNA` | src/protocol_muxer/multiselect/multiselect_instance.cpp:325-350 | The next proposal, or the end of the list. |
| `Dialer.OneContinuation` | src/network/impl/dialer_impl.cpp:61-141 | In every run a peer being dialled has exactly one pending continuation, any other peer none. |
| `Dialer.AnsweredOnce` | src/network/impl/dialer_impl.cpp:16-59 | Every request is waiting, about to be answered or answered, exactly one of these and once. |
| `Dialer.OneResultForAll` | src/network/impl/dialer_impl.cpp:143-154 | All requests merged into a dial get its one result: the first success in queue order, else the last error, else that no transport fits; addresses are tried in queue order. |
| `Dialer.NobodyForgotten` | src/network/impl/dialer_impl.cpp:16-154 | With nothing pending every request has its answer and no dial is open. |
| `Dialer.Exhausted` | src/network/impl/dialer_impl.cpp:70-82 | With no address left a stored error is there whenever one was dialled, so `host_unreachable` is never reported. |
| `Dialer.MergedOnce` | src/network/impl/dialer_impl.cpp:28-40 | However many requests merge, the addresses of a dial are distinct if and only if those of the request that began it were. |
| `Dialer.TriedOnce` | src/network/impl/dialer_impl.cpp:28-40 | Then no address of a finished dial was tried twice. |
| `Dialer.RunKeeps` | src/network/impl/dialer_impl.cpp:16-154 | Every run keeps the invariant of all peers and all requests. |
| `DialerRequests.AnsweredAsAsked` | src/network/impl/dialer_impl.cpp:16-59 | In every run the answer to a request is: the connection if there was one when it asked; that an address is required if there was none, no dial and no address; the result of a dial of its peer otherwise. In the first two cases no dial and no attempt is begun. |
| `DialerRequests.JoinsDial` | src/network/impl/dialer_impl.cpp:28-40 | A request that finds a dial joins it, its new addresses behind the others, and begins no attempt. |
| `DialerRequests.NewAddrsSnoc` | src/network/impl/dialer_impl.cpp:33-37 | Exactly the addresses neither seen nor listed before count as new, in order. |
| `DialerRequests.BeginsDial` | src/network/impl/dialer_impl.cpp:51-58 | A request that begins a dial has its first address tried at once and the others queued in order. |
| `DialerRequests.TurnsInOrder` | src/network/impl/dialer_impl.cpp:61-141 | A turn takes the first address of the queue, begins one attempt for it if a transport fits and notes that none did otherwise, and ends the dial if and only if the queue is empty; no other dial changes. |
| `DialerRequests.TransportAnswers` | src/network/impl/dialer_impl.cpp:86-126 | A transport's answer is recorded for its address; a connection ends the dial with that connection, after an error the dial goes on with the rest of its queue. |
| `DialerObjects.DialerImpl.DialPeer` | src/network/impl/dialer_impl.cpp:16-59 | A request is answered, merged or begins a dial as specified. Which of these it must be, and with what answer, is `DialerRequests.AnsweredAsAsked`, `DialerRequests.JoinsDial` and `DialerRequests.BeginsDial`. |
| `DialerObjects.DialerImpl.Unseen` | src/network/impl/dialer_impl.cpp:33-37 | The loop finds the addresses not seen yet, in order, each once. |
| `DialerObjects.DialerImpl.RotatePeer` | src/network/impl/dialer_impl.cpp:61-141 | The next address, or the end of the dial, as specified. |
| `DialerObjects.DialerImpl.OnDialResult` | src/network/impl/dialer_impl.cpp:86-126 | Success completes the dial, an error is stored and the next turn posted. |
| `DialerObjects.DialerImpl.CompleteDial` | src/network/impl/dialer_impl.cpp:143-154 | Every waiting request is answered with the result, in order. |
| `Secio.MirrorAgreement` | src/security/secio/secio_dialer.cpp:170-289 | Two peers with each other's proposals and a common secret, each using the algorithms and role it computed itself, choose the same algorithms, verify what the other signed, which is both proposals and then the ephemeral key, and each one's local key is the other's remote key. |
| `Secio.RolesMirror` | src/security/secio/secio_dialer.cpp:186-206 | Exactly one side is preferred, or both refuse, which happens if and only if the order hashes are equal. |
| `Secio.PreferredExactly` | src/security/secio/secio_dialer.cpp:186-206 | The local peer is preferred if and only if the hash of the remote key and the local nonce is the greater one: greater at the first place where the two differ, or longer if none does. |
| `Secio.AlgorithmsAgree` | src/security/secio/secio_dialer.cpp:208-257 | Both sides end with the same algorithms or the same error, for any two proposals. |
| `Secio.ChosenAreBest` | src/security/secio/secio_dialer.cpp:208-257 | The outcome is given algorithms if and only if curve, cipher and hash each are the first name of the preferred side's list that the other side offers too. |
| `Secio.NothingChosen` | src/security/secio/secio_dialer.cpp:208-257 | Each error is reported if and only if its list is the first of the three with no name in common. |
| `Secio.KeysByRole` | src/crypto/crypto_provider/crypto_provider_impl.cpp:586-605 | The preferred side's local key is the first part of the stretched bytes, the other side's the second, each with vector, cipher key and MAC key at the places the cipher demands; remote and local keys are exchanged by the role. |
| `Secio.StretchStarts` | src/crypto/crypto_provider/crypto_provider_impl.cpp:560-584 | The first blocks are the digests of the chained digest followed by the seed "key expansion". |
| `Secio.NoneIsShared` | src/security/secio/secio_dialer.cpp:50-82 | There is no match exactly when no item is common. |
| `Secio.FirstIsBest` | src/security/secio/secio_dialer.cpp:50-82 | No item preferred to the chosen one is common. |
| `Secio.BestMatchLoop` | src/security/secio/secio_dialer.cpp:50-82 | The nested loops over the split lists find that match. |
| `Secio.StretchedUnique` | src/crypto/crypto_provider/crypto_provider_impl.cpp:541-580 | The stretched bytes are determined by the digest function and the size. |
| `Secio.Stretch` | src/crypto/crypto_provider/crypto_provider_impl.cpp:564-584 | The loop ends with exactly the needed prefix of the chained digest blocks, or with the digest's failure, after some number of rounds; `Secio.StretchedUnique` makes that the only result. |
| `Secio.StretchKey` | src/crypto/crypto_provider/crypto_provider_impl.cpp:541-605 | Both sides' keys are cut from stretched bytes of the size the cipher demands; where they lie is `Secio.KeysByRole`. |
| `Secio.Dialer.DetermineCommonAlgorithm` | src/security/secio/secio_dialer.cpp:110-118 | Role and algorithms are stored exactly when they are determined. |
| `Secio.Dialer.FindCommonAlgo` | src/security/secio/secio_dialer.cpp:208-257 | The three matches in the order of the source, with its errors. What they must choose is `Secio.ChosenAreBest` and `Secio.NothingChosen`. |
| `Secio.Dialer.GetCorpus` | src/security/secio/secio_dialer.cpp:259-289 | Both proposals in the order of the signer, and the ephemeral key. |
| `Secio.Dialer.LocalStretchedKey` | src/security/secio/secio_dialer.cpp:170-176 | The half of the preferred role, or an error before the roles are known. |
| `Secio.Dialer.RemoteStretchedKey` | src/security/secio/secio_dialer.cpp:178-184 | The other half. |
| `Varint.DecodersAgree` | src/basic/varint_prefix_reader.cpp:25-54 | On every byte string the two decoders accept the same number of bytes with the same value, within 64 bits. |
| `Varint.PiecesDoNotMatter` | src/basic/varint_prefix_reader.cpp:56-70 | The stateful reader ends the same however its input is cut. |
| `Varint.RoundTrip` | src/multi/uvarint.cpp:10-19 | An encoded value is read back, and bytes behind it are not looked at. |
| `Varint.EncodingIsShortest` | src/multi/uvarint.cpp:10-19 | No accepted encoding of a value is shorter than the encoder's. |
| `Varint.CanonicalWhenShortest` | src/multi/uvarint.cpp:10-19 | An accepted encoding is the encoder's own exactly when it has its length. |
| `Varint.PrefixRejected` | src/multi/uvarint.cpp:79-98 | No proper prefix of an encoding is accepted. |
| `Varint.EncodeLoop` | src/multi/uvarint.cpp:10-19 | The constructor's loop makes that encoding. |
| `Varint.CalculateSize` | src/multi/uvarint.cpp:79-98 | The size is that of the varint at the front, or zero exactly if there is none. |
| `Varint.Decode` | src/multi/uvarint.cpp:31-47 | Size and value of the varint at the front, or nothing exactly if there is none. |
| `Varint.ToUInt64` | src/multi/uvarint.cpp:39-47 | The accumulation on 64 bits gives the value. |
| `Varint.VarintPrefixReader.ConsumeByte` | src/basic/varint_prefix_reader.cpp:25-54 | The fields after one byte are those of the reference reader. |
| `Varint.VarintPrefixReader.Consume` | src/basic/varint_prefix_reader.cpp:56-70 | The loop takes bytes until the reader is ready or fails and leaves the others. |
| `ContentIdentifier.CidRoundTrip` | src/multi/content_identifier_codec.cpp:56-78 | An identifier that encodes decodes to itself if and only if its multihash has a hash and at least four bytes; version 0 always does. |
| `ContentIdentifier.V1IsNotV0` | src/multi/content_identifier_codec.cpp:111-118 | A version 1 encoding is never taken for version 0. |
| `ContentIdentifier.V1RoundTrip` | src/multi/content_identifier_codec.cpp:119-140 | Decoding a version 1 encoding gives back version and content type, and what reading the multihash gives. |
| `ContentIdentifier.CidLayout` | src/multi/content_identifier_codec.cpp:119-145 | Bytes that are not of version 0 are a varint for the version, one for the content type and a multihash to the end; version 0, a version above 1 and a missing content type are refused, each with its error. |
| `ContentIdentifier.CidV0Layout` | src/multi/content_identifier_codec.cpp:111-118 | Thirty-four bytes that begin as a SHA-256 multihash are that multihash, with protobuf content. |
| `ContentIdentifier.ShortHashLost` | src/multi/content_identifier_codec.cpp:111-145 | A one-byte hash encodes and is then rejected as too short. |
| `ContentIdentifier.DirectRoundTrip` | src/multi/content_identifier_codec.cpp:98-109 | The output of `encodeCIDV1` decodes to what it was made from if and only if the content type is below 128 and the multihash can be read back. |
| `ContentIdentifier.SealedCommitmentLost` | src/multi/content_identifier_codec.cpp:98-109 | One of the content types the library names comes back as another. |
| `ContentIdentifier.DecodeLoop` | src/multi/content_identifier_codec.cpp:111-145 | The decoder, built on the two varint decoders, gives the specified result and errors. |
| `ContentIdentifier.MultihashRoundTrip` | src/multi/multihash.cpp:41-62 | Reading back what was written, for every multihash: what fails, and with which error. |
| `ContentIdentifier.MultihashSound` | src/multi/multihash.cpp:93-120 | What is read has a legal length and prints to the bytes given, exactly if its type was in shortest form. |
| `ContentIdentifier.CreateFromBytes` | src/multi/multihash.cpp:93-120 | The span-consuming code gives the specified result and errors. |
| `Base58.RoundTrip` | src/multi/multibase_codec/codecs/base58.cpp:62-170 | Decoding what was encoded gives back every byte string, leading zeroes included. |
| `Base58.SameNumber` | src/multi/multibase_codec/codecs/base58.cpp:62-106 | The text of bytes denotes the same number as the bytes, most significant digit first, and begins with as many ones as the bytes begin with zeroes. |
| `Base58.AlphabetValues` | src/multi/multibase_codec/codecs/base58.cpp:21-38 | The decoding table gives a character a value if and only if it stands at that place of the alphabet. |
| `Base58.DecodeThenPrint` | src/multi/multibase_codec/codecs/base58.cpp:113-170 | Encoding what was decoded gives back the word without its blanks. |
| `Base58.BlankExactly` | src/multi/multibase_codec/codecs/base58.cpp:113-170 | A word decodes to no bytes if and only if there is only white space before its end or its first NUL. |
| `Base58.TextIsPlain` | src/multi/multibase_codec/codecs/base58.cpp:62-106 | An encoding holds no slash, and is empty if and only if there are no bytes. |
| `Base58.TextFits` | src/multi/multibase_codec/codecs/base58.cpp:71-75 | The estimate 138/100 gives room for every encoding. |
| `Base58.BytesFit` | src/multi/multibase_codec/codecs/base58.cpp:125-129 | The estimate 733/1000 gives room for every decoding. |
| `Base58.MulAdd` | src/multi/multibase_codec/codecs/base58.cpp:137-148 | The inner loop multiplies the number in the buffer and adds a digit, in place, and reports the carry that did not fit. |
| `Base58.EncodeImpl` | src/multi/multibase_codec/codecs/base58.cpp:62-106 | The loops compute the specified text: a one for each leading zero, then the number in base 58. |
| `Base58.DecodeImpl` | src/multi/multibase_codec/codecs/base58.cpp:113-170 | The loops compute the specified bytes, or nothing for a foreign character or text after the blanks; the carry never overflows. |
| `Multiaddress.Canonical` | src/multi/converters/converter_utils.cpp:79-140 | For every text that parses and whose bytes print, the printed text parses to the same bytes, and prints as itself, if and only if no peer id in the text is blank; otherwise it is refused for its empty address. |
| `Multiaddress.BlankPeerLost` | src/multi/converters/ipfs_converter.cpp:19-35 | Every blank peer id parses, prints as nothing, and what is printed does not parse. |
| `Multiaddress.OneBlankLost` | src/multi/converters/ipfs_converter.cpp:19-35 | The case of a single space. |
| `Multiaddress.UnixDoesNotPrint` | src/multi/multiaddress.cpp:56-73 | Every Unix path of one word parses and does not print. |
| `Multiaddress.PrintsExactlyWhen` | src/multi/converters/converter_utils.cpp:183-283 | The bytes of a text that parses print if and only if it has no Unix path and only ordinary host names. |
| `Multiaddress.PortExactly` | src/multi/converters/tcp_converter.cpp:13-32 | A port is accepted if and only if it is a decimal number below 2^16, and gives the two bytes of that number, high byte first. |
| `Multiaddress.TcpPort` | src/multi/converters/converter_utils.cpp:79-140 | For every port, "/tcp/" and the number parse to the code 6 and the two bytes, and these print as that text. |
| `Multiaddress.PercentRoundTrip` | src/multi/converters/converter_utils.cpp:29-75 | Percent-decoding undoes encoding, and an encoded value holds no slash. |
| `Multiaddress.ArgBack` | src/multi/converters/converter_utils.cpp:142-181 | The bytes of one address, if they print, print to a word without a slash that gives the same bytes, or to nothing exactly if the word is a blank peer id. |
| `Multiaddress.MultiaddrToBytes` | src/multi/converters/converter_utils.cpp:79-140 | The token loop gives the specified bytes or error. |
| `Multiaddress.BytesToMultiaddrString` | src/multi/converters/converter_utils.cpp:183-283 | The span-consuming loop gives the specified text or error. |
| `Multiaddress.PercentEncodeLoop` | src/multi/converters/converter_utils.cpp:29-45 | The loop escapes exactly the specified characters. |
| `Multiaddress.PercentDecodeLoop` | src/multi/converters/converter_utils.cpp:48-75 | The loop decodes every complete escape and keeps the rest. |
| `MultiaddressProtocols.FoundByName` | include/libp2p/multi/multiaddress_protocol_list.hpp:93-107 | The search by name finds each of the protocols. |
| `MultiaddressProtocols.FoundByCode` | include/libp2p/multi/multiaddress_protocol_list.hpp:109-117 | The search by code finds each of the protocols. |
| `MultiaddressProtocols.NamesAreDistinct` | include/libp2p/multi/multiaddress_protocol_list.hpp:131-170 | No name occurs twice in the table. |
| `MultiaddressProtocols.CodesAreDistinct` | include/libp2p/multi/multiaddress_protocol_list.hpp:131-170 | No code occurs twice in the table. |
| `MultiaddressProtocols.GetByName` | include/libp2p/multi/multiaddress_protocol_list.hpp:93-107 | The loop returns the first protocol with the name, the old name of "p2p" included, or nothing. |
| `MultiaddressProtocols.GetByCode` | include/libp2p/multi/multiaddress_protocol_list.hpp:109-117 | The loop returns the first protocol with the code, or nothing. |
| `MultiaddressProtocols.NamesArePlain` | include/libp2p/multi/multiaddress_protocol_list.hpp:131-170 | No name is empty or holds a slash. |
| `Text.SplitJoins` | src/multi/converters/converter_utils.cpp:79-100 | Splitting loses nothing: joining the pieces gives the text back. |

## Left out

- YamuxedConnection: handlers of new streams and the list of fresh streams are not modelled; a stream exists from its SYN or ACK on, and handlers act as later steps.
- Callbacks that re-enter: an application's callback is a later step, so closing or resetting from inside a callback in the middle of a method is not captured, nor are writes that complete synchronously.
- YamuxedConnection: `stop`, direct reads and writes, the ping and cleanup timers' intervals and logging are left out; what the timers do is a move of the run.
- YamuxRuns.StepGood: a new stream is opened only while ids are left below 2^32; the source lets the id wrap around.
- YamuxConnections: the statements about two connections need a maximum window of at least the initial one, as the source asserts, and of at most the write queue's limit, as it asserts when a stream is created.
- YamuxTheorems.StalledOnlyByReader: that FIN is eventually sent is not claimed; an incoming FIN may close a stream whose own FIN still waits for window (`YamuxTheorems.FinLosesUnsent`).
- YamuxConnectionObjects.YamuxedConnection.OnRead: the handlers called after the bytes are worked off (yamuxed_connection.cpp:228-255) are later calls of the application here; the list of fresh streams is left out.
- YamuxConnectionObjects.YamuxedConnection.CallStream: in the source the application calls the stream object, which calls its connection; here the connection carries out the stream's calls after the stream has changed.
- YamuxStreams.YamuxStream.AdjustWindowSize: the window-size callback is called with the result, as in the source, which never stores it.
- Scheduler: the asio backend and threads; callbacks that schedule without end, since each run gives its callbacks finitely many calls to make.
- Multiselect: the wire format, the nested-message parser, timeouts and read errors as such; a failure is a step of the run, and a message of another kind is one token, a violation. Protocol names are assumed not to look like the protocol's own messages.
- Dialer: the stream-opening part, and what connection manager, address repository and transports do; their answers are parameters, a transport answers each attempt once and later.
- Secio: hash and HMAC are parameters; marshalling, key generation and signatures are left out. The digest is assumed non-empty.
- Multiaddress.Canonical: the IP text conversions of a foreign library are inverse pairs given as parameters; the bytes of an address are fewer than 2^64. The escape of a byte above 127 is taken to print the unsigned value.
- Base58.EncodeImpl: the source keeps sizes in `int`; inputs so long that they do not fit are not modelled. Strings are read up to their first NUL, as `decodeImpl` reads them.
- YamuxFrame.OversizedPayloadIsMisread: a fact about the frame format only; the write queue's limit keeps every payload of the library below 2^32 (`YamuxSteps.EventFits`).
- ReadBuffers.ReadBuffer.ConsumePart: stated for a call that leaves bytes behind and asks for at least one, which is how `consume` calls this private method.
- ContentIdentifier: text forms of multihashes and identifiers, and `encodeCIDV0`, which hashes its input.
- Varint.ToUInt64: stated for encodings whose value fits 64 bits, which is all `create` lets through.
- Mplex, Kademlia, gossip, identify, ping, TLS, Noise, QUIC, WebSocket, peer repositories, listeners and the router: they would add only easy members or rest on foreign libraries.
