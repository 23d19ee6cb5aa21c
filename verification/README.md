# tinyproto: a verified model of its HDLC link layer

tinyproto is an HDLC link layer in C. This project models four parts of it in Dafny and proves what they promise:
the check sequences, the framing on the wire, the table of frame slots, and the full-duplex protocol on top
(sliding window, connection states, polling of several secondaries).

`dafny verify dfyconfig.toml` checks everything. The proofs need no library.

## How the project is laid out

| files | what they hold |
|---|---|
| Folds, Fcs16, Fcs32, Crc | the checksum and the table-driven FCS loops against the bit-serial FCS of RFC 1662 appendix C, the check field, what a receiver accepts |
| Framing | the wire format of RFC 1662 sections 3.1 and 4.2, a receiver one byte at a time, round trip and resynchronisation |
| Transmitter, Receiver | the two resumable state machines of `hdlc.c` as classes over buffers of any size; the ring of receive buffers |
| Frames, Octets | HDLC frames with a two-byte header and their bytes; the octets of given frames, control fields and check values |
| FramesQueue, ServiceFifo, InfoStore | `tiny_fd_queue_t` as an array class and as a value; as a ring for S- and U-frames, as a keyed store for I-frames |
| Station, Handle | every handler of the full-duplex protocol as a function: first for one peer and the two tables (`Link`), then for a whole station |
| FdHandle | the same handlers in the source's own form, a class that changes an array of peers and two frame tables in place; each method is proved equal to its function |
| Addressing | which peer a packet, a registration or a received frame concerns |
| Replies, KeepAlive | what every received frame makes of a connection and is answered with; the timeouts of a connection |
| Sending, InFlight | what an emission sends and remembers; a frame being transmitted |
| Window, Bookkeeping, Books | the window of one peer as a queue of payloads; the match between outstanding numbers and slots, over every run of a station with any number of peers |
| Serving, Flags, Admission | every entry point as what it does to the peer it serves; when the two events of the application are set, and which packets are accepted |
| Endpoint, Flow, Duplex, Safety | one connected station, one direction of a connection in absolute numbers, two stations over lossy channels, and what holds in every run of them |
| Handshake | from two stations as initialised to the state in which those runs begin, and on to two connected sides |
| Retransmission, Recovery, GapRecovery, Stall, StallRuns | go-back-N, the budget of a silent peer, recovery by one loss-free round after a timeout or a REJ, the stalled sender, a run that ends there and the events that end it |
| Connections | the connect events |
| Polling, Token, PollOrder, MarkerRuns | the order in which an NRM primary polls, and the marker on a multi-drop line, from its set-up on |
| EndToEnd | frames of the protocol across the framing layer, through both state machines |

Sequence numbers are the source's three-bit numbers, with the wrap written out. Absolute numbers (how many payloads have
been put, delivered, confirmed) exist only in statements. A handler is one atomic step; clocks are booleans that say
whether a timeout has passed; every callback the application would get is appended to a log.

## What the code turns out not to do

The code is kept as it is; each of these is proved as it stands.

* `Retransmission.LateAckStalls`, `StallExact`, `StallPersists`, `PutAndStall`, `Stall.StallReached`, `StallRuns.StallLasts`:
  an acknowledgement that arrives after a retry timeout has rewound `next_ns`, and before the frames are out again, moves
  `confirm_ns` past `next_ns`. From then on neither an I-frame is sent nor the retry timer fires. This happens exactly when
  the N(R) lies beyond the next number to send (`AckKeepsOrder`). Timeouts, emissions and the N(R) of further I- and
  RR-frames do not end it. Two things do, and over every run nothing else: a REJ that arrives, which takes `next_ns` back
  into the window, and an accepted put that brings `last_ns` round to the stale number. `StallReached` is a run of eight
  steps from two fresh connections, without any loss, that ends in a stall.
* `Flags.StockFlag`, `PacketAccepted`, `Admission.OthersStarved`, `SlotsHidden`: the event of free slots is set exactly while
  a slot is free, but for one case: a disconnection frees the slots of its peer without setting it. If the table was full,
  the event stays clear although slots are free until a frame of some peer is confirmed or a peer connects, and every
  packet for another peer times out. With one peer it does not matter (`Admission.WindowAccepts`).
* `Flags.WindowFlag`, `HangupFirst`: a peer is let send exactly while its window is open, but for one case: `tiny_fd_disconnect`
  called before there is a connection makes the peer "disconnecting" with an open window and a closed gate, until an I- or
  S-frame comes from it.
* `Books.ResetExact`: RSET zeroes the counters but keeps the queued I-frames; the slots match the counters
  afterwards exactly when nothing was outstanding.
* `Handle.SecondaryToPrimary`: a secondary that sends to "the primary" shifts its own address field a second time, and
  finds its peer exactly when its address is 21.
* `Framing.SharedFlagLosesSecond`: one flag between two frames, which RFC 1662 section 3.1 allows, is not enough for the
  receiver; the encoder always writes two.
* `Receiving.WindowFits`, `SpareFits`, `NoCheckFits`: with HDLC_CRC_OFF the receiver counts a four-byte check field that the
  buffer size leaves out. The window fits if and only if the check is not off, or bytes left over from alignment make up
  for four bytes a frame; without such bytes fewer frames fit, as many as the slot goes into the payloads of the window.
* HDLC_CRC_DEFAULT is documented to select a check (`src/proto/hdlc/low_level/hdlc.h:120-121`). The code sizes the buffer
  for four bytes of it, stores zero, and zero puts no check field on the wire (`Receiving.Stored`); the model follows the code.
* `MarkerRuns.TwoMarkers`, `TakeBackExact`, `NeverTwo`: a primary takes the marker back when a time has passed, which does
  not tell a lost marker from a slow answer. On a line just set up a take-back after the first poll, with nothing lost,
  leaves two markers. Over every run there are never two if and only if each take-back makes up for a P/F frame lost since.

## Model

| member | source | states |
|---|---|---|
| Fcs16.TinyCrc | src/proto/crc/tiny_crc.c:122-137 | the table loop computes the bit-serial FCS-16 of RFC 1662 appendix C for every byte string and start value |
| Fcs16.Table | src/proto/crc/tiny_crc.c:101-120 | each of the 256 table entries is eight steps of the bit-serial register |
| Fcs16.Residue | src/proto/crc/tiny_crc.c:122-137 | message plus trailer ends in register value 0xf0b8 if and only if the trailer is the little-endian FCS of the message |
| Fcs16.Burst | src/proto/crc/tiny_crc.c:122-137 | two strings that differ only inside two consecutive bytes never end in the same register |
| Fcs32.TinyCrc | src/proto/crc/tiny_crc.c:72-87 | the table loop computes the bit-serial FCS-32 |
| Fcs32.Table | src/proto/crc/tiny_crc.c:41-70 | each table entry is eight steps of the bit-serial register |
| Fcs32.Residue | src/proto/crc/tiny_crc.c:72-87 | message plus trailer ends in 0xdebb20e3 if and only if the trailer is the little-endian FCS |
| Fcs32.Burst | src/proto/crc/tiny_crc.c:72-87 | two strings that differ only inside four consecutive bytes never end in the same register |
| Crc.TinyChksum | src/proto/crc/tiny_crc.c:143-161 | the checksum with its 32-bit accumulator is the complement of a byte sum that wraps at 16 bits |
| Crc.ComputeWord | src/proto/hdlc/low_level/hdlc.c:147-160 | the value both ends compute for each check type and its start value |
| Crc.ComparisonAccepts | src/proto/hdlc/low_level/hdlc.c:470-514 | the receiver's comparison of the value it assembles with the one it computes accepts exactly the frames that end in the transmitter's check field |
| Crc.AcceptIsResidue | src/proto/hdlc/low_level/hdlc.c:484-514 | a frame is accepted exactly when the register over all of it ends in the residue |
| Crc.BurstDetected | src/proto/hdlc/low_level/hdlc.c:484-514 | of two frames of one length that differ only inside two (FCS-16) or four (FCS-32) consecutive bytes, check field included, at most one is accepted |
| Framing.FeedAppend | src/proto/hdlc/low_level/hdlc.c:532-555 | any split of a byte stream leads to the same deliveries and the same final state |
| Framing.FeedFrame | src/proto/hdlc/low_level/hdlc.c:383-528 | an encoded payload that fits is delivered exactly |
| Framing.RoundTrip | src/proto/hdlc/low_level/hdlc.c:383-528 | for any list of payloads that fit, any check type and any filler without a flag, exactly that list is delivered, in order |
| Framing.SelfSync | src/proto/hdlc/low_level/hdlc.c:383-460 | from any receiver state at all, frames fed back to back are the last ones delivered, in order, with at most the first missing |
| Framing.SharedFlagLosesSecond | src/proto/hdlc/low_level/hdlc.c:450-528 | when two frames share a flag the second is skipped whole |
| Transmitting.Transmitter.PutFrame | src/proto/hdlc/low_level/hdlc.c:357-379 | a frame is refused while one is in progress; otherwise the whole encoded frame becomes pending |
| Transmitting.Transmitter.Write | src/proto/hdlc/low_level/hdlc.c:292-305 | as many bytes as fit are copied behind those already written |
| Transmitting.Transmitter.Data | src/proto/hdlc/low_level/hdlc.c:175-224 | one call of the data state moves bytes from the pending stream to the buffer without loss, escapes included |
| Transmitting.Transmitter.CheckField | src/proto/hdlc/low_level/hdlc.c:228-263 | the same for the check field, one byte at a time |
| Transmitting.Transmitter.End | src/proto/hdlc/low_level/hdlc.c:267-288 | the closing flag ends the frame and reports it as sent once |
| Transmitting.Transmitter.RunTx | src/proto/hdlc/low_level/hdlc.c:309-348 | terminates, fills the buffer from the front of the pending stream, and returns short only when the frame is finished |
| Transmitting.SendInChunks | src/proto/hdlc/low_level/hdlc.c:175-348 | with any sequence of buffer sizes the concatenated output is the RFC 1662 frame as far as the buffers allow, and the frame is reported sent exactly when all of it is out |
| Receiving.Receiver.Data | src/proto/hdlc/low_level/hdlc.c:406-446 | one call of the data state does what its bytes do one by one, and every write stays inside the active slot |
| Receiving.Receiver.End | src/proto/hdlc/low_level/hdlc.c:450-528 | closing a frame delivers it, drops it or starts over as the byte-wise receiver does |
| Receiving.Receiver.Deliver | src/proto/hdlc/low_level/hdlc.c:516-527 | hands the frame over and moves to the next slot of the ring, wrapping when it would not fit |
| Receiving.Receiver.RunRx | src/proto/hdlc/low_level/hdlc.c:532-555 | never returns while closing a frame, consumes at least one byte when given any, ends where the bytes consumed lead one by one, and returns an error exactly when the last of them closes a frame whose check fails |
| Receiving.Receiver.OnRxData | src/proto/fd/tiny_fd.c:431-446 | the loop over the receiver terminates and takes all bytes, however they were split; a frame delivered before the call still has its bytes at the same place after it, unless as many frames as there are slots, less one, have been delivered since |
| Receiving.WindowFits | src/proto/hdlc/low_level/hdlc.c:567-574 | a buffer sized for a window holds exactly that many frames if and only if the check asked for is not HDLC_CRC_OFF |
| Receiving.SpareFits | src/proto/hdlc/low_level/hdlc.c:71-97 | with bytes left over from alignment the window fits if and only if the check is not off or they make up for four bytes a frame |
| Receiving.NoCheckFits | src/proto/crc/tiny_crc.c:163-174 | how many frames fit with the check off, exactly, and that it is fewer than the window |
| Frames.FrameRoundTrip | src/proto/fd/tiny_fd_defines_int.h:79-122 | every frame the library builds is read back as itself from its header and payload bytes |
| Frames.BytesRoundTrip | src/proto/fd/tiny_fd.c:129-194 | whatever is read as a frame gives its bytes again, but for bytes behind an S-frame |
| Octets.UnnumberedOctets | src/proto/fd/tiny_fd_defines_int.h:79-122 | the control octet of every U-frame, without and with P/F |
| Octets.NumberedOctets | src/proto/fd/tiny_fd_defines_int.h:79-122 | control octets of S- and I-frames |
| Octets.RejectOctets | src/proto/fd/tiny_fd_tx.c:106-114 | the two octets of a frame reject: the control octet refused, then N(R) and N(S) |
| Octets.EscapedOctets | src/proto/hdlc/low_level/hdlc.c:175-224 | 0x7e leaves as 0x7d 0x5e, 0x7d as 0x7d 0x5d, every other octet as itself |
| Octets.SetupOnTheWire | unittest/fd_tests.cpp:237 | the connection request with its FCS-16 is the octets the unit test expects |
| Octets.DataOnTheWire | unittest/fd_tests.cpp:264-267 | an I-frame of one byte with its FCS-16 is the octets the unit test expects |
| Octets.ChecksumOnTheWire | unittest/hdlc_tests.cpp:254-257 | three bytes under the checksum, escaped, are the octets the unit test expects |
| Octets.LetterCheck | src/proto/crc/tiny_crc.c:72-87 | FCS-32 of the letter 'a' |
| FramesQueue.FindFinds | src/proto/fd/tiny_fd_frames_queue.c:105-143 | the circular search comes back empty exactly when no slot matches, wherever it starts |
| FramesQueue.FindFromFirst | src/proto/fd/tiny_fd_frames_queue.c:105-143 | and finds the first match in circular order |
| FramesQueue.FrameTable.GetNext | src/proto/fd/tiny_fd_frames_queue.c:105-143 | the search loop over the slot array is the search on values |
| FramesQueue.FrameTable.Put | src/proto/fd/tiny_fd_frames_queue.c:93-103 | takes the first free slot, or changes nothing when the frame is too long or no slot is free |
| FramesQueue.FrameTable.Free | src/proto/fd/tiny_fd_frames_queue.c:150-165 | frees one slot and starts the next search behind it |
| FramesQueue.FrameTable.ResetStation | src/proto/fd/tiny_fd_frames_queue.c:82-91 | frees every slot of one address and no other |
| ServiceFifo.AllocateAppends | src/proto/fd/tiny_fd_frames_queue.c:93-103 | with one address a put appends to the queue, or is refused exactly when the table is full or the frame too long |
| ServiceFifo.PickIsHead | src/proto/fd/tiny_fd_service_queue.c:60-88 | the frame picked for sending is the oldest |
| ServiceFifo.FreePops | src/proto/fd/tiny_fd_frames_queue.c:150-165 | releasing it removes exactly that one, and the busy slots stay one run that starts at `lookup_index` |
| ServiceFifo.RunRefines | src/proto/fd/tiny_fd_frames_queue.c:93-165 | every run of puts, picks and releases, puts during a transmission included, is a run of a bounded queue |
| ServiceFifo.ServiceOrder | src/proto/fd/tiny_fd_service_queue.c:38-88 | frames transmitted, then those waiting, are exactly those accepted, in order |
| InfoStore.AllocateAdds | src/proto/fd/tiny_fd_frames_queue.c:93-103 | storing an I-frame under a new address and N(S) adds that key alone |
| InfoStore.FreeRemoves | src/proto/fd/tiny_fd_frames_queue.c:150-165 | freeing its slot removes that key alone |
| InfoStore.ResetRemoves | src/proto/fd/tiny_fd_frames_queue.c:82-91 | flushing an address removes its keys and no other |
| Window.ConfirmSettles | src/proto/fd/tiny_fd_i_queue_control.c:38-63 | an N(R) confirms exactly the oldest frames it covers, in order, each reported once; outside the window it confirms all |
| Window.PutAppends | src/proto/fd/tiny_fd_i_queue_control.c:141-155 | a put appends its payload to those pending whenever a slot is free, and at most seven are ever pending |
| Window.RoomInWindow | src/proto/fd/tiny_fd.c:277-282 | while a slot is free fewer frames are outstanding than there are slots |
| Books.EveryFrameFound | src/proto/fd/tiny_fd_i_queue_control.c:52-57 | the confirmation loop finds a slot for every number it passes, for any N(R) |
| Books.PutSane | src/proto/fd/tiny_fd.c:808-858 | a packet that fits is stored exactly when both events let it through, and the window never closes on itself |
| Books.ResetExact | src/proto/fd/tiny_fd_on_rx_int.h:215-228 | after RSET slots and counters match exactly when nothing was outstanding |
| Books.RunBalanced | src/proto/fd/tiny_fd_i_queue_control.c:38-166 | over every run without RSET, for every peer, slots and outstanding numbers match |
| Books.NumbersMatchSlots | src/proto/fd/tiny_fd_i_queue_control.c:141-155 | from a fresh station: a number has a slot exactly when it is outstanding, and no two slots share one |
| Books.FlagsKeepTheirWord | src/proto/fd/tiny_fd.c:838-847 | from a fresh station: the branch "wrong flag" of a put is never reached |
| Books.TotalInWindow | src/proto/fd/tiny_fd_frames_queue.c:82-165 | over all peers together no more frames are outstanding than the window has slots, at most seven |
| Flags.WindowFlag | src/proto/fd/tiny_fd_i_queue_control.c:59-61 | over every run without RSET a connected peer takes packets exactly while fewer than seven frames are outstanding; the exact condition while disconnecting |
| Flags.HangupFirst | src/proto/fd/tiny_fd.c:1016-1039 | hung up before it was connected, a peer is up with an open window and takes nothing |
| Flags.StockFlag | src/proto/fd/tiny_fd_tx.c:66-78 | over every such run the event of free slots is set exactly while a slot is free and not hidden by a disconnection |
| Flags.PacketAccepted | src/proto/fd/tiny_fd.c:808-864 | the result of a packet by its length, the window and the slots, without the two events |
| Admission.WindowAccepts | src/proto/fd/tiny_fd.c:808-864 | with one peer, between "connected" and "disconnected", a packet that fits is taken if and only if fewer frames are outstanding than the window has slots |
| Admission.OthersStarved | src/proto/fd/tiny_fd.c:103-124 | a peer with frames in a full table disconnects: its slots are free, and every packet for another peer times out |
| Admission.SlotsHidden | src/proto/fd/tiny_fd.c:103-124 | an input that gets there: a connection request, two packets, DISC |
| Addressing.PacketReaches | src/proto/fd/tiny_fd.c:797-807 | a polling station's packet or UI data for address a concerns the peer under the field (a << 2) + 1 and no other, or nobody |
| Addressing.RegisteredIsReached | src/proto/fd/tiny_fd.c:1043-1074 | once an address has been registered, whatever happens before and after, packets for it go to the record then taken |
| Addressing.OwnPacketReaches | src/proto/fd/tiny_fd_peers.c:46-51 | over every run of a balanced station or a secondary a packet for its own address reaches its peer, one for another address nobody |
| Addressing.FrameHeard | src/proto/fd/tiny_fd_peers.c:36-62 | a frame, command or response, is given to the record in use under its address field and to no other, or to nobody; in NRM its P/F bit hands over the marker, and nothing else does |
| Replies.ReadAnswers | src/proto/fd/tiny_fd_on_rx_int.h:45-283 | frame by frame and state by state: the connection, the callbacks, the counters and the frame queued in answer, if a slot is free; no other peer is touched |
| Replies.ReadIgnores | src/proto/fd/tiny_fd.c:138-143 | a frame for an address nobody owns changes nothing |
| Replies.MissingFrameAsked | src/proto/fd/tiny_fd_on_rx_int.h:57-74 | a frame that is not the one expected is answered by one REJ for that one, if and only if none stands and a slot is free; the frame expected ends the standing one |
| Replies.HangupQueues | src/proto/fd/tiny_fd.c:1016-1039 | hanging up queues DISC as a command and waits, or does nothing without a free slot |
| Replies.UiQueues | src/proto/fd/tiny_fd.c:876-910 | UI data is queued as it is |
| Replies.RequestQueued | src/proto/fd/tiny_fd.c:637-661 | without a connection a primary that has waited queues the request of its mode and is connecting; any other station does nothing |
| KeepAlive.CheckExact | src/proto/fd/tiny_fd.c:587-633 | the outcome of a check in each of its cases: sent again, given up, kept, asked |
| KeepAlive.SilenceEnds | src/proto/fd/tiny_fd.c:612-633 | over every run: without a due retry a check ends the connection if and only if the time of silence has passed and no frame has come since a keep-alive was last due; in quiet one RR with P and the current N(R) is queued |
| KeepAlive.HeardKeepsUp | src/proto/fd/tiny_fd.c:612-620 | any frame from the peer keeps the connection up at the next check |
| Sending.NextHeaded | src/proto/fd/tiny_fd.c:555-577 | P/F on every S- and U-frame and on the last I-frame in NRM, on U-frames alone in ABM; the N(R) that leaves is current and is remembered |
| Sending.RequestedGoesFirst | src/proto/fd/tiny_fd.c:463-495 | the lowest number asked for by SREJ is sent first, if outstanding, with its payload, and the turn of the others stays |
| Sending.SelectiveResend | src/proto/fd/tiny_fd_on_rx_int.h:158-166 | SREJ makes exactly the frame asked for leave again |
| Sending.FillerLeaves | src/proto/fd/tiny_fd.c:528-551 | with nothing to say an NRM station sends a connection request or RR, with P/F |
| InFlight.SentAsStarted | src/proto/fd/tiny_fd.c:196-244 | a service frame started is released as it was started, whatever happens in between, and no other is started |
| Endpoint.ReadMoves | src/proto/fd/tiny_fd_on_rx_int.h:45-167 | an I-, RR- or REJ-frame in step confirms what its N(R) covers, delivers exactly the expected frame, and queues at most one reply with the number then expected |
| Endpoint.IdleMoves | src/proto/fd/tiny_fd.c:587-633 | a timeout neither confirms nor delivers: it rewinds, keeps alive or ends the connection |
| Endpoint.EmitMoves | src/proto/fd/tiny_fd.c:516-583 | an emission sends the oldest service frame, or else a pending payload under its own number with the current N(R) |
| Flow.NextPayload | src/proto/fd/tiny_fd_on_rx_int.h:45-77 | a frame under way that carries the expected three-bit number carries exactly the next payload |
| Flow.AfterAck | src/proto/fd/tiny_fd_i_queue_control.c:38-63 | an N(R) that arrives lies between what is settled and what has been put |
| Safety.RunKeeps | src/proto/fd/tiny_fd_on_rx_int.h:45-167 | the invariant of two stations and two lossy channels, kept by every step |
| Safety.DeliverySafety | src/proto/fd/tiny_fd_on_rx_int.h:45-115 | in every run of one connection, from the moment one side has queued its UA and may already put data, confirmed is a prefix of delivered and delivered is a prefix of put, both ways, with at most seven outstanding |
| Safety.AcksInStep | src/proto/fd/tiny_fd_tx.c:47-122 | in every such run no N(R) reaches the out-of-sync branch, and no frame reject or other U-frame is sent after the UA that opens a side |
| Safety.MonotoneAcks | src/proto/fd/tiny_fd.c:504-525 | in every such run the absolute N(R) leaving either station, recorded when each frame is queued or leaves with the current number, never decrease, and what is recorded reads the N(R) of the frame |
| Handshake.HandshakeBegins | src/proto/fd/tiny_fd_on_rx_int.h:193-205 | two balanced stations as initialised: after a timeout of one and its request at the other they are in the state from which the runs above start |
| Handshake.HandshakeCompletes | src/proto/fd/tiny_fd_on_rx_int.h:246-257 | once the answer is through, both sides have just connected, with zero counters, empty tables and the application let in |
| Retransmission.RewindExact | src/proto/fd/tiny_fd_tx.c:98-122 | where the rewind ends, and that it queues a frame reject exactly when the number asked for is not met before the oldest outstanding one |
| Retransmission.SendsTheRest | src/proto/fd/tiny_fd.c:496-511 | repeated emission sends exactly the pending frames from `next_ns` on, in order with their payloads, then nothing |
| Retransmission.RejectResends | src/proto/fd/tiny_fd_on_rx_int.h:127-132 | after REJ the outstanding frames from the rejected number on are sent again, and no others |
| Retransmission.TimeoutResends | src/proto/fd/tiny_fd.c:592-605 | after a retry timeout all outstanding frames are sent again |
| Retransmission.SilentPeer | src/proto/fd/tiny_fd.c:587-611 | towards a silent peer I-frames sent and budget left add up to `(last - next) + retries * (last - confirm)`; the retry limit ends the connection with the budget spent |
| Retransmission.StallExact | src/proto/fd/tiny_fd.c:592-594 | with frames outstanding an I-frame or the retry timer is on exactly unless `next_ns` lies outside the window |
| Retransmission.AckKeepsOrder | src/proto/fd/tiny_fd_i_queue_control.c:41-59 | an acknowledgement keeps `next_ns` in the window exactly when it does not run past it |
| Retransmission.LateAckStalls | src/proto/fd/tiny_fd_i_queue_control.c:41-59 | a timeout followed by an acknowledgement of some or all frames stalls the sender |
| Retransmission.PutAndStall | src/proto/fd/tiny_fd.c:592-594 | a put ends a stall exactly when it brings `last_ns` round to the stale `next_ns`, and never when the table has too few slots for that |
| Stall.StallReached | src/proto/fd/tiny_fd_i_queue_control.c:41-59 | two packets sent, the first answered, the retry timer before the answer: a run without loss that ends in a stall |
| Retransmission.StallPersists | src/proto/fd/tiny_fd_on_rx_int.h:81-167 | timeouts and emissions do not end a stall, and no I-frame leaves; an I-, RR- or REJ-frame in step leaves the sender stalled if and only if it is not REJ |
| StallRuns.StallLasts | src/proto/fd/tiny_fd_tx.c:98-122 | wherever a run leaves a sender stalled, through any further run it stays so while it is up if and only if no REJ reaches it and no accepted put brings `last_ns` round to `next_ns`; until then no I-frame of it leaves |
| Recovery.TimeoutAndOneRound | src/proto/fd/tiny_fd.c:587-611 | at any quiet point of a run one retry timeout and one loss-free round deliver everything put |
| GapRecovery.RejectAndOneRound | src/proto/fd/tiny_fd_on_rx_int.h:57-132 | after a loss, the first frame behind the gap, the REJ it draws and one loss-free round deliver everything put |
| Connections.ConnectsSeparated | src/proto/fd/tiny_fd.c:70-124 | from a fresh station two "connected" callbacks of a peer always have a "disconnected" one between them, over every run |
| Connections.ConnectsClean | src/proto/fd/tiny_fd.c:70-99 | a step that reports "connected" leaves the peer with zero counters and no queued I-frame |
| Polling.RoundRobin | src/proto/fd/tiny_fd_peers.c:66-82 | from one poll of a peer to the next every registered peer gets exactly one turn |
| PollOrder.PollsInTurn | src/proto/fd/tiny_fd.c:221-242 | in every run of a multi-drop line, losses included, the P/F frames of the primary go round its registered peers |
| PollOrder.EachOnceBetween | src/proto/fd/tiny_fd.c:221-242 | between two polls of one peer every other registered peer is polled exactly once |
| Polling.SwitchPeer | src/proto/fd/tiny_fd_peers.c:66-82 | the do-while loop ends at the next registered peer |
| Token.SpeakPasses | src/proto/fd/tiny_fd.c:221-242 | only a holder of the marker sends, to the peer whose turn it is, and gives the marker up exactly with a P/F frame |
| MarkerRuns.SetUpSound | src/proto/fd/tiny_fd.c:379-414 | a primary with its peers registered and secondaries under addresses of their own, all as initialised, are a line with exactly one marker |
| MarkerRuns.OneMarker | src/proto/fd/tiny_fd.c:175-242 | markers held and P/F frames under way are one in every loss-free run, and never more than one before the marker is taken back |
| MarkerRuns.TakeBackExact | src/proto/fd/tiny_fd.c:733-745 | after any run without a take-back no marker is left exactly if a P/F frame was lost in it, and taking it back leaves a single one exactly then |
| MarkerRuns.NeverTwo | src/proto/fd/tiny_fd.c:733-745 | over every run, losses and take-backs in any order, there are never two markers if and only if each take-back makes up for a P/F frame lost since |
| MarkerRuns.SpeaksWhenPolled | src/proto/fd/tiny_fd.c:700-721 | a secondary starts no frame before one with P/F has come for it |
| MarkerRuns.TwoMarkers | src/proto/fd/tiny_fd.c:733-745 | a line just set up, one poll, one take-back and no loss: two markers |
| Handle.SecondaryToPrimary | src/proto/fd/tiny_fd.c:797-807 | a secondary reaches its primary under address 0 exactly when its own address is 21 |
| FdHandle.TinyFd.constructor | src/proto/fd/tiny_fd.c:293-414 | a station starts disconnected with empty tables and, if primary, the marker; with any number of peer records in either mode |
| FdHandle.TinyFd.PutService | src/proto/fd/tiny_fd_service_queue.c:38-56 | queues a service frame, or drops it when the table is full |
| FdHandle.TinyFd.ConfirmSentFrames | src/proto/fd/tiny_fd_i_queue_control.c:38-63 | the confirmation loop in place is the recursive function |
| FdHandle.TinyFd.FrameConfirmed | src/proto/fd/tiny_fd_tx.c:47-79 | one frame reported, its slot freed, the retries restored |
| FdHandle.TinyFd.Resend | src/proto/fd/tiny_fd_tx.c:98-122 | the rewind loop in place is the recursive function |
| FdHandle.TinyFd.SwitchToConnected | src/proto/fd/tiny_fd.c:70-99 | the new state of peer, table and events on connection |
| FdHandle.TinyFd.SwitchToDisconnected | src/proto/fd/tiny_fd.c:103-124 | and on disconnection |
| FdHandle.TinyFd.CheckReceivedFrame | src/proto/fd/tiny_fd_on_rx_int.h:45-77 | the expected number advances or one REJ is queued |
| FdHandle.TinyFd.OnInfo | src/proto/fd/tiny_fd_on_rx_int.h:81-115 | check, confirm, deliver, reply, in that order |
| FdHandle.TinyFd.OnSupervisory | src/proto/fd/tiny_fd_on_rx_int.h:119-167 | the four S-frames |
| FdHandle.TinyFd.OnUnnumbered | src/proto/fd/tiny_fd_on_rx_int.h:171-283 | all U-frames in every connection state |
| FdHandle.TinyFd.OnFrameRead | src/proto/fd/tiny_fd.c:129-194 | a received frame changes the station as the function on values says, the marker included |
| FdHandle.TinyFd.GetNextService | src/proto/fd/tiny_fd_service_queue.c:60-88 | the next service frame of the peer |
| FdHandle.TinyFd.GetNextInfo | src/proto/fd/tiny_fd.c:463-512 | the next I-frame: one asked for by SREJ, or the one under `next_ns`, with the current N(R) |
| FdHandle.TinyFd.GetNextFrame | src/proto/fd/tiny_fd.c:516-583 | service frame, I-frame or filler, with the P/F bit the mode asks for |
| FdHandle.TinyFd.StartFrame | src/proto/fd/tiny_fd.c:684-721 | a transmission starts only with the marker and none in progress |
| FdHandle.TinyFd.OnFrameSend | src/proto/fd/tiny_fd.c:196-244 | a service frame leaves its table, the marker goes with a P/F frame, the primary turns to the next peer |
| FdHandle.TinyFd.SendToPeer | src/proto/fd/tiny_fd.c:808-864 | a packet is stored or refused as the function on values says |
| FdHandle.TinyFd.SendPacketTo | src/proto/fd/tiny_fd.c:792-865 | the same with the search for the peer |
| FdHandle.TinyFd.CheckConnected | src/proto/fd/tiny_fd.c:587-633 | retry, keep-alive and disconnection timeouts |
| FdHandle.TinyFd.CheckDisconnected | src/proto/fd/tiny_fd.c:637-661 | a primary asks for a connection |
| FdHandle.TinyFd.CheckTimeouts | src/proto/fd/tiny_fd.c:691-698 | which of the two checks a peer gets |
| FdHandle.TinyFd.HangUp | src/proto/fd/tiny_fd.c:1016-1039 | DISC is queued and the first peer starts to disconnect, or neither; the result tells, and it is whether a slot was free |
| FdHandle.TinyFd.SendUiPacketTo | src/proto/fd/tiny_fd.c:876-910 | a UI frame is queued exactly when it fits, the peer is known and a slot is free, and the result tells |
| FdHandle.TinyFd.RegisterPeer | src/proto/fd/tiny_fd.c:1043-1074 | a new address in range gets the first free peer record, and success is returned exactly when there is one |
| EndToEnd.AnyPieces | src/proto/hdlc/low_level/hdlc.c:383-555 | for every check type, every list of frames and every list of pieces the bytes are cut into, the receiver hands on exactly those frames |
| EndToEnd.AcrossTheLine | src/proto/hdlc/low_level/hdlc.c:138-555 | through the two state machines: any list of frames, any buffer sizes on the sending side that are enough, any filler and any pieces on the receiving side: all reported as sent, their bytes delivered in order, each read as the frame it was |

## Left out

- Atomic steps: mutexes, the gap in which a mutex is released around a callback, re-entrant callbacks and the HAL; callbacks are recorded in a log.
- Clocks: timestamps and `tiny_millis`; each timeout test is a boolean of the step.
- The event FD_EVENT_TX_DATA_AVAILABLE, a wake-up: the model may start a frame whenever one is there.
- A frame being transmitted is copied when its transmission starts; that its slot could be confirmed and reused while its bytes are still going out is not modelled.
- Safety.DeliverySafety: one connection only, from the answer to the request until one of the stations drops the link; reconnects, RSET and user disconnects start a new one, and a repeated SABM can reset one side alone. A side that is not connected hears nothing but the answer it waits for and takes no part: the DM it would answer with and a repeated request are not in these runs.
- Duplex channels lose frames and keep their order; a damaged frame counts as lost, which rests on the check field (see Crc.BurstDetected for what it is sure to detect).
- ServiceFifo.RunRefines: one address only; with several peers the table can reorder service frames.
- Service frames left in the table across a reconnection are kept, as the source keeps them, but nothing is claimed about them.
- Transmitter and Receiver take the check as a function of the payload; that the loops compute it is Fcs16.TinyCrc, Fcs32.TinyCrc and Crc.ComputeWord.
- The scan of `send_data` tests the length before it looks at a byte; the source looks one byte ahead first.
- PollOrder.PollsInTurn: with `tiny_fd_get_tx_data` as one step. The source reads `next_peer` once when the call starts (`src/proto/fd/tiny_fd.c:675`); a call that finishes a P/F frame and is given the marker by another thread while it waits (706) polls the same peer again, and the next peer's turn is skipped.
- PollOrder.EachOnceBetween: the same.
- MarkerRuns.TakeBackExact: the time that has to pass before a take-back is not modelled, so a take-back may come at any point of a run.
- `tiny_fd_init`: pointer layout, alignment and buffer arithmetic; the checks of window and buffer sizes are preconditions of the constructor.
- `tiny_fd_send_to` splitting a long buffer into packets, status queries, logging, statistics.
- Unfinished Rust port, high-level hdlc, light protocol, C++ and Python wrappers, link layers: plumbing over what is modelled.
