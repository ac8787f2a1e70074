# A verified model of the router's TCP/IP stack and its helpers

This project models, in Dafny, the parts of the router software in `SW_stub` that hold state and can get it wrong: the
lwIP TCP/IP stack in `SW_stub/lwtcp`, the work queue and the stream search around it, and the AXI text format of the
NetFPGA scripts. `dafny verify dfyconfig.toml` checks everything.

Code that changes fields in place is a class whose methods are proved against functions on values; what the code is for
is then proved about those functions, over all inputs and all runs. Protocols between threads are state machines whose
steps are the single accesses the C code makes, and their theorems hold in every interleaving.

- `SeqNum`, `Bytes`, `Counting`: machine integers and TCP sequence numbers; bytes in pieces; counting threads.
- `Reassembly`, `TcpReceive`, `ReceiveRuns`: the receive path. The first has unbounded stream positions, the second
  the 32-bit code with a refinement between the two, the third whole runs. `Coverage`: which bytes are queued out of
  sequence after each arrival.
- `TcpSend`, `SendQueue`, `SendInvariant`, `SendRuns`: the send path, its queues and its buffer account.
  `Segmentation`: when a write succeeds and how it is cut up. `Retransmission`: what a timeout puts back and sends
  again.
- `Handshake`, `HalfClose`: how a connection is opened from either side, and the state in which it starts to send; when
  our FIN is taken for acknowledged, and when it is.
- `Karn`: the round-trip timer beside the send queue.
- `EndToEnd`: sender, any network, receiver.
- `HeapLayout`, `Heap`: the heap allocator, as blocks and as headers in one memory array.
- `Checksum`, `ChecksumUse`: the Internet checksum over pbuf chains, stamping, testing and forwarding.
- `RttEstimator`, `Timeouts`, `ReportedTime`: the round-trip estimator; the delta list of timeouts; the clock it goes
  by.
- `PcbLists`, `PcbStates`, `PcbRuns`, `PcbTable`: demultiplexing with move-to-front, the TCP state machine, the axioms
  of the PCB lists, and the loops over the lists. `PcbHistory`: which segment, by its number, must have arrived
  before a connection carries data. `PcbChanges`: what each event does to every PCB and to the order of the lists, and
  which resets are accepted. `PcbReuse`: a connection in TIME-WAIT whose addresses and ports are used again.
- `Mailbox`, `MailboxRuns`: the ring of a mailbox; posters, the transport thread and the pool of message blocks.
- `WorkQueue`, `WorkQueueRuns`: the linked list of the work queue; enqueuers, workers and shutdown.
- `ReadSearch`: the needle search in a growing buffer.
- `PbufPool`, `PbufChain`: the pbuf pool and its two flags; chains of pool pbufs. In the configuration of the
  repository only reassembly of IP fragments, which is compiled out, allocates pool pbufs.
- `AxiText`, `AxiRoundTrip`, `AxiTimes`: printer and loader of AXI text, and the times of the packets in it.

What a caller, the network, a clock or an allocator decides is a parameter: which allocations fail, what a read()
delivers, which timers have run out, what the windows are, which block a pool hands out, which local address the
routing chooses.

## Where the code does not do what it is for

Each of these is stated exactly, as an equivalence or as an input that shows it.

- A segment that replaces a queued one of the same number is not cut against its successor (`EnqueueSafe`,
  `OverrunLosesSync`). Segments of this stack's own sender never trigger it (`NoOverrun`).
- A segment that arrives inside a queued one costs the bytes queued behind it, and of one that runs past the start of a
  queued one the bytes from there on are dropped, queued or not (`QueuesUnion` says when nothing is lost, `InsideLoses`
  and `AroundLoses` give the inputs).
- A segment with RST is accepted with the number one past the receive window too, and in SYN_SENT whether or not it
  carries an ACK flag (`InWindowMeans`, `ResetByNumber`).
- `tcp_close()` on a PCB that was never connected does nothing, so the PCB stays allocated (`CloseEarly`).
- `pbuf_header()` takes its offset as an `int16_t`, so a left trim of more than 2^15 bytes moves the payload the wrong
  way (`TrimArgument`, `TrimmedRefines`).
- An ACK number exactly 2^31 ahead is taken for new data when nothing is outstanding (`AckAccepted`,
  `FarAckAccepted`).
- An ACK of everything leaves `snd_nxt` stale while requeued segments wait (`AckNext`, `StaleNextReached`); the next
  segment sent puts it right (`OutputNext`).
- A connection opened with `tcp_connect()` never gets back the byte of send buffer that its SYN took: it works with
  255 bytes, an accepted one with 256 (`ActiveOpen`, `PassiveOpen`).
- `tcp_connect()` chooses a new initial sequence number and leaves `snd_max` as `tcp_new()` set it; the send invariant
  holds from the start if and only if the new number is at most 2^31 ahead of the old one (`ActiveOpen`).
- When the SYN of an accepted connection cannot be queued, none is ever sent, and an ACK number 2^31 ahead of the
  initial sequence number completes the connection all the same (`FailedAccept`).
- In FIN_WAIT_1, CLOSING and LAST_ACK the FIN counts as acknowledged when the ACK number equals `snd_nxt`. That holds
  for an ACK of earlier data while the FIN, or data before it, is still to be sent, and from LAST_ACK it frees the PCB
  with them (`TakenExactly`, `FreedUnsent`). And it fails for an ACK of the FIN that covers segments a timeout has put
  back on `unsent`; nothing later mends that (`FinAckMissed`, `MissedForGood`).
- `tcp_output()` times segments that a timeout has put back on `unsent`, so samples are taken from segments that were
  sent before, against Karn's algorithm (`SampleSource`, `ResentSampled`); and a timeout that finds no room in the
  window leaves the timer running for a segment that is then sent again (`UnheededSampled`).
- The timer of our SYN is not stopped by the segment that answers it on an active open; the next segment with an ACK
  number gives the sample (`SynSampledLate`).
- On an active open the peer's window is copied into `rcv_wnd` (`SW_stub/lwtcp/tcp_input.c:452`); a window above
  `TCP_WND` is never restored (`WindowRestored`).
- The clock of the timeouts runs on what waits report: a message that was already there counts as a millisecond, and of
  several waits only the last counts. Handlers are called early by a millisecond for each fetch that took no time
  (`EarlyBy`, `QueuedMessagesHurry`), and late without bound (`RepeatedWaitsDelay`).
- A FIN queued with the send buffer full makes `snd_buf` wrap around (`BufferBound`, `CloseWithFullBuffer`).
- `tcp_recved()` adds to the window in 16 bits (`ReopenExactly`).
- `tcp_bind()` and `tcp_connect()` do not look at the connections in TIME-WAIT. A client that binds the port of one
  and connects to its peer takes its segments from it (`TimeWaitReused`; `ConnectKeepsUnique` says exactly when).
- `mem_realloc()` neither rounds its size nor lowers `lfree` (`ReallocAligned`, `ReallocLowest`, `ShrinkBelowFree`);
  its test, and `mem_malloc()`'s rounding, can wrap around (`ReallocTest`, `RoundCovers`).
- The tick at which a timed segment was sent is kept in 16 bits (`SampleExact`).
- A packet that arrives with TTL 0 is forwarded with a wrong checksum (`ForwardValid`).
- A ring with 99 messages looks empty after the next post (`AdvanceIs`, `Post`); a mailbox whose messages come from a
  pool of at most 99 blocks never gets there (`NeverFull`), and that of the transport thread has 8.
- Two PCBs bound to one port before either listens end up as conflicting listeners (`LateConflict`); so does
  `tcp_listen()` in general (`ListenConflicts`), unless it follows `tcp_bind()` at once (`BindThenListen`).
- `tcp_listen()` without a free block, and `tcp_connect()` on a PCB that is not CLOSED, break the list axioms
  (`ListenKeeps`, `ConnectKeeps`).
- `wq_destroy()` leaves `tail` pointing at freed memory (`Destroy`).
- `axis_dump()` writes the time of the first packet in nanoseconds and `axis_load()` reads it in seconds
  (`FirstInSeconds`). A packet that is due before the end of the one before it makes all later ones late, however long
  the gaps between them (`OwnTime`, `LaterOf`, `LagStays`).
- `axis_load()` raises an exception for a packet of 65536 bytes or more, because its warning names an undefined
  variable, and `axis_dump()` writes nothing for an empty packet (`RoundTrip`).

The comments in the code differ from it in two places that the model touches: `read_search()` returns -2, not -1 with
ERANGE, when the buffer is full (`SW_stub/cli/socket_helper.h` says both), and the waiting time in
`SW_stub/lwtcp/sys.c` is in milliseconds, not microseconds. The model follows the code.

## Model

| member | source | states |
|---|---|---|
| SeqNum.SeqCompare | SW_stub/lwtcp/lwip/tcp.h:108-111 | all four TCP_SEQ comparisons of wrapped numbers agree with the unbounded positions they stand for while those are less than 2^31 apart |
| SeqNum.SeqLtMeans | SW_stub/lwtcp/lwip/tcp.h:108-111 | what TCP_SEQ_LT means for any two 32-bit numbers, however far apart |
| Reassembly.PlaceKeepsOrder | SW_stub/lwtcp/tcp_input.c:963-1050 | the walk along ooseq keeps the queue a list of nonempty true slices, sorted, disjoint and above rcv_nxt, in every branch but the one of OverrunBreaksOrder |
| Reassembly.OverrunBreaksOrder | SW_stub/lwtcp/tcp_input.c:965-983 | when a longer segment with an equal number replaces a queued one and runs past its successor, the queue is not disjoint any more |
| Reassembly.PlaceKeepsStarts | SW_stub/lwtcp/tcp_input.c:963-1050 | queueing keeps the left edge of every queued piece and adds that of the new one: only right edges are cut |
| Reassembly.EnqueueSafe | SW_stub/lwtcp/tcp_input.c:943-1050 | after an out-of-order arrival the queue is valid if and only if the piece does not overrun its successor |
| Reassembly.ArriveSafe | SW_stub/lwtcp/tcp_input.c:786-1057 | one segment, in or out of order, overlapping or old: the bytes handed up are exactly the stream from the old to the new rcv_nxt, and the queue stays valid if and only if the segment does not overrun |
| Reassembly.ArriveProgress | SW_stub/lwtcp/tcp_input.c:861-941 | rcv_nxt moves exactly when the segment carries the next expected byte and the window is open, and then at least to its end or to the queued piece it was cut against |
| Coverage.ArriveCovers | SW_stub/lwtcp/tcp_input.c:786-1057 | which stream positions are queued after any arrival: in order, exactly those queued before from the new rcv_nxt on; out of order with memory, exactly those of Kept and Added; and otherwise nothing changes. The window shrinks by what rcv_nxt moved |
| Coverage.HandUpCovers | SW_stub/lwtcp/tcp_input.c:863-941 | the in-order branch frees what it hands up and nothing else |
| Coverage.PlaceCovers | SW_stub/lwtcp/tcp_input.c:963-1050 | the walk, from any place it can have reached, takes from the queue just what lies behind the new segment in one that starts before it, and adds of the new one what lies before the next queued start, or all of it when one starts where it does |
| Coverage.QueuesUnion | SW_stub/lwtcp/tcp_input.c:963-1050 | the queue holds the union of what it held and the new segment if and only if that neither cuts off the end of a queued one nor runs past the start of one with bytes that are not queued |
| Coverage.InsideLoses | SW_stub/lwtcp/tcp_input.c:1027-1047 | with positions 2 to 7 queued, an arrival of 4 and 5 loses 6 and 7 |
| Coverage.AroundLoses | SW_stub/lwtcp/tcp_input.c:998-1002 | with 4 and 5 queued, an arrival of 2 to 7 brings 2 to 5 |
| Reassembly.QueueSorted | SW_stub/lwtcp/tcp_input.c:910-936 | in a valid queue left edges grow strictly over any distance |
| TcpReceive.TrimArgument | SW_stub/lwtcp/pbuf.c:440-461 | pbuf_header() with a negated offset leaves the data from that offset on if and only if the offset is at most 2^15, because its parameter is an int16_t |
| TcpReceive.StraddleOffset | SW_stub/lwtcp/tcp_input.c:817-838 | what the two comparisons that lead to the left trim say of any pair of 32-bit numbers, and that the offset is then inside the segment |
| TcpReceive.Pcb.Advance | SW_stub/lwtcp/tcp_input.c:877-884 | rcv_nxt moves by the length modulo 2^32 and the window shrinks by it, but not below zero |
| TcpReceive.Pcb.ReceiveInOrder | SW_stub/lwtcp/tcp_input.c:863-941 | the in-order branch with its dequeue loop computes HandUp of the old state and returns the bytes handed up; Coverage.ArriveCovers says what that leaves queued |
| TcpReceive.Pcb.QueueOutOfOrder | SW_stub/lwtcp/tcp_input.c:943-1050 | the loop over ooseq with prev and next computes Enqueue of the old queue |
| TcpReceive.Pcb.TrimLeft | SW_stub/lwtcp/tcp_input.c:813-856 | the left trim of the incoming segment |
| TcpReceive.Pcb.TcpReceive | SW_stub/lwtcp/tcp_input.c:786-1057 | the data part of tcp_receive() computes Receive of the old state |
| TcpReceive.ReopenExactly | SW_stub/lwtcp/tcp.c:323-335 | the window opens by what the application consumed, up to TCP_WND and never above it, if and only if the 16-bit sum does not wrap around to less than TCP_WND; otherwise it is that sum |
| TcpReceive.WindowRestored | SW_stub/lwtcp/tcp.c:323-335 | for every window and delivery: consuming what was delivered restores the window if and only if the delivery fitted into it and it was at most TCP_WND, or it was TCP_WND; a larger one never comes back |
| TcpReceive.TrimmedRefines | SW_stub/lwtcp/tcp_input.c:813-856 | for segments of every length a 16-bit field can name, the 32-bit left trim is the trim in stream positions if and only if it cuts at most 2^15 bytes |
| TcpReceive.WalkRefines | SW_stub/lwtcp/tcp_input.c:963-1050 | on the image of a valid queue at any initial sequence number the 32-bit walk does what the unbounded walk does |
| TcpReceive.ReceiveRefines | SW_stub/lwtcp/tcp_input.c:786-1057 | one segment within 2^31 of the window, of any length and trimmed by at most 2^15 bytes: the 32-bit code maps the image of a receiver to the image of what Arrive makes of it and hands up the same bytes, for every initial sequence number, wrap-around included |
| ReceiveRuns.StepSafe | SW_stub/lwtcp/tcp_input.c:786-1057 | an arriving segment, consumed data or a dropped queue keeps the 32-bit state the image of a valid receiver |
| ReceiveRuns.RunSafe | SW_stub/lwtcp/tcp_input.c:786-1057 | for every fair run of lost, duplicated, reordered and overlapping slices, from every valid state: the deliveries joined together are exactly the stream from the old to the new rcv_nxt |
| ReceiveRuns.OverrunLosesSync | SW_stub/lwtcp/tcp_input.c:965-983 | five true slices of one stream after which rcv_nxt is 65534 bytes ahead of what was delivered |
| ReceiveRuns.BadRunIsTrue | SW_stub/lwtcp/tcp_input.c:965-983 | those five are slices of the one stream |
| TcpSend.Pcb.BuildQueue | SW_stub/lwtcp/tcp_output.c:142-249 | the segmentation loop, with an allocation that may fail at any point, computes Build and touches no field |
| TcpSend.Pcb.TcpEnqueue | SW_stub/lwtcp/tcp_output.c:97-324 | tcp_enqueue() computes Enqueue of the old state; a failed allocation leaves the PCB as it was |
| TcpSend.Pcb.TcpOutput | SW_stub/lwtcp/tcp_output.c:328-442 | tcp_output() computes Output of the old state and returns the segments put on the wire, in order |
| TcpSend.Pcb.SendInWindow | SW_stub/lwtcp/tcp_output.c:401-440 | the loop that moves segments from unsent to unacked computes SendLoop |
| TcpSend.Pcb.AckNewData | SW_stub/lwtcp/tcp_input.c:649-752 | the ACK processing computes Ack of the old state |
| TcpSend.Pcb.DropUnsent | SW_stub/lwtcp/tcp_input.c:703-727 | the loop over unsent drops the acknowledged prefix of unsent, with snd_queuelen and snd_nxt as they come out |
| TcpSend.Pcb.DropUnacked | SW_stub/lwtcp/tcp_input.c:731-752 | the loop over unacked drops the acknowledged prefix of unacked |
| TcpSend.Pcb.Retransmit | SW_stub/lwtcp/tcp.c:459-496 | the requeue step of tcp_slowtmr() followed by tcp_rexmit_seg() computes Requeue, of which Retransmission.RequeueExactly says what it is, and resends the first unacked segment if the window allows |
| SendQueue.DropBoth | SW_stub/lwtcp/tcp_input.c:697-752 | scanning unsent before unacked drops exactly the acknowledged prefix of unacked ++ unsent |
| SendQueue.AckedRest | SW_stub/lwtcp/tcp_input.c:697-752 | what remains after an ACK starts at or below it, ends where it ended, and its first segment reaches past it |
| SendQueue.BuildChain | SW_stub/lwtcp/tcp_output.c:145-249 | the new segments are a gap-free run that carries exactly the given bytes with consecutive sequence numbers, and the queue length grows by their pbufs |
| SendQueue.BuildSizes | SW_stub/lwtcp/tcp_output.c:145-249 | no new segment is longer than mss |
| SendQueue.EnqueueSizes | SW_stub/lwtcp/tcp_output.c:97-324 | tcp_enqueue(), merging included, never makes an unsent segment longer than mss |
| SendQueue.NoSpaceWithoutMss | SW_stub/lwtcp/tcp_output.c:145-207 | with mss 0 the loop makes no progress through the data, and the queue limit ends it with ERR_MEM |
| SendQueue.AppendChain | SW_stub/lwtcp/tcp_output.c:252-283 | merging the first new segment into the last unsent one or linking it behind leaves one gap-free run with the bytes of both |
| Segmentation.CutsMeans | SW_stub/lwtcp/tcp_output.c:145-249 | the number of segments is the length divided by mss, rounded up |
| Segmentation.BuildExactly | SW_stub/lwtcp/tcp_output.c:142-249 | the segmentation loop succeeds if and only if the queue has room for the pbufs of all segments and no allocation they need fails; then there are as many as the data fill, and all but the last are full |
| Segmentation.WriteExactly | SW_stub/lwtcp/tcp_output.c:97-289 | exactly when a write succeeds; and data that fit into the last unsent segment go there, while otherwise no old segment changes and all new ones but the last are full |
| Segmentation.FinExactly | SW_stub/lwtcp/tcp_output.c:97-289 | exactly when a FIN can be queued, and that it gets a segment of its own |
| SendInvariant.BufferBound | SW_stub/lwtcp/tcp_output.c:284-289 | snd_buf is the capacity of the connection less what is unacknowledged, FIN included, if and only if the latter does not exceed the former; otherwise, when a FIN was queued with the buffer full, it is 65535 |
| SendInvariant.EnqueueKeeps | SW_stub/lwtcp/tcp_output.c:97-324 | success appends exactly the data, or the FIN, to the queue and conserves the buffer account; failure at any allocation changes nothing |
| SendInvariant.AckAccepted | SW_stub/lwtcp/tcp_input.c:649-650 | an ACK number is taken for new data if and only if it lies in (snd_una, snd_max] or is exactly 2^31 ahead with nothing outstanding |
| SendInvariant.AckKeeps | SW_stub/lwtcp/tcp_input.c:649-752 | every ACK number, new, old or absurd, but the one exactly 2^31 ahead: the wholly acknowledged prefix goes, nothing else does, and snd_buf grows by what was acknowledged; unacked segments stay sent |
| SendInvariant.AckExactly | SW_stub/lwtcp/tcp_input.c:649-752 | after an ACK number the send invariant holds again if and only if it is not the one 2^31 ahead with nothing outstanding |
| SendInvariant.FitsMeans | SW_stub/lwtcp/tcp_output.c:401-402 | the unsigned window test in stream positions, also for a first segment that starts below lastack |
| SendInvariant.OutputKeeps | SW_stub/lwtcp/tcp_output.c:328-442 | tcp_output() sends the longest prefix of unsent that fits in the window, in order, and leaves unacked ++ unsent as it was |
| SendInvariant.RequeueKeeps | SW_stub/lwtcp/tcp.c:472-480 | the requeue leaves unacked ++ unsent as it was, and what is retransmitted is its first segment |
| SendInvariant.RexmitExactly | SW_stub/lwtcp/tcp_output.c:503-551 | the first unacked segment is resent if and only if there is one and the window reaches its end |
| Retransmission.RequeueExactly | SW_stub/lwtcp/tcp.c:472-480 | after a timeout exactly the first segment of unacked ++ unsent is unacked, everything behind it is unsent in order, and snd_nxt names the second if that had been sent |
| Retransmission.TimeoutResends | SW_stub/lwtcp/tcp.c:459-496 | after a timeout and a tcp_output() the queue is split, in order, into what was put on the wire and what the window left unsent; all of it was sent again if and only if the window reaches the end of what was written |
| Retransmission.OutputFrame | SW_stub/lwtcp/tcp_output.c:328-442 | with TF_ACK_NOW set only an ACK goes out, and the next tcp_output() sends what this one would have; no other field changes |
| Retransmission.AckSplits | SW_stub/lwtcp/tcp_input.c:697-752 | of an acknowledged prefix what was unacked goes first, so segments change lists only by being sent or requeued |
| Retransmission.NextAfterDrops | SW_stub/lwtcp/tcp_input.c:703-727 | snd_nxt after an ACK that takes segments off unsent, for every list |
| SendInvariant.AckNext | SW_stub/lwtcp/tcp_input.c:724-726 | an ACK leaves snd_nxt naming something else than the first unsent byte if and only if it acknowledges everything while requeued segments were waiting |
| SendInvariant.OthersKeepNext | SW_stub/lwtcp/tcp_output.c:422-425 | writing and requeueing keep snd_nxt the number of the first unsent byte |
| SendInvariant.OutputNext | SW_stub/lwtcp/tcp_output.c:422-425 | tcp_output() sets snd_nxt right as soon as it sends a segment, whatever it was before |
| SendRuns.AppendPieces | SW_stub/lwtcp/tcp_output.c:252-283 | the only old segment that a write changes is the last, which grows from the old end |
| SendRuns.StepKeeps | SW_stub/lwtcp/tcp_output.c:97-442 | every event keeps the queue invariant, and everything ever sent is a true slice that straddles no left edge of another segment |
| SendRuns.RunKeeps | SW_stub/lwtcp/tcp_output.c:97-442 | for every run of writes, closes, transmissions, ACKs, timeouts, fast retransmissions and window changes: the queue is a gap-free copy of the unacknowledged bytes, and every segment ever put on the wire carries a true slice under the right number |
| SendRuns.FreshOk | SW_stub/lwtcp/tcp.c:699-731 | a connection that was just synchronised satisfies the invariant, whatever its capacity up to TCP_SND_BUF |
| SendRuns.FarAckAccepted | SW_stub/lwtcp/tcp_input.c:649-650 | with nothing outstanding an ACK number 2^31 ahead is taken for new data |
| SendRuns.CloseWithFullBuffer | SW_stub/lwtcp/tcp_output.c:284-289 | from a new connection of either capacity: fill the buffer, close, and snd_buf is 65535 |
| SendRuns.StaleNextReached | SW_stub/lwtcp/tcp_input.c:724-726 | from a new connection: two segments, a timeout and an ACK of both leave snd_nxt naming a byte that is acknowledged |
| Handshake.ActiveOpen | SW_stub/lwtcp/tcp_input.c:445-472 | after tcp_new() and tcp_connect(), the SYN and ACK of the peer are taken if and only if they acknowledge exactly our SYN; the connection then starts with 255 bytes of send buffer, and satisfies the send invariant if and only if tcp_connect()'s initial sequence number is at most 2^31 ahead of tcp_new()'s |
| Handshake.PassiveOpen | SW_stub/lwtcp/tcp_input.c:393-503 | an ACK completes an accepted connection if and only if it acknowledges exactly our SYN; the connection then starts with 256 bytes of send buffer and satisfies the send invariant |
| Handshake.FailedAccept | SW_stub/lwtcp/tcp_input.c:439-443 | without memory for the SYN none is sent, and the connection is completed if and only if the ACK number is 2^31 ahead of the initial sequence number |
| Handshake.Pcb.TcpConnect | SW_stub/lwtcp/tcp.c:382-425 | the in-place code leaves the send fields as Connect says, failed allocations of the SYN included |
| HalfClose.NextMeans | SW_stub/lwtcp/tcp_input.c:512-562 | in a closing connection an ACK number equal to snd_nxt after the ACK processing acknowledges the FIN if and only if nothing is left unsent; and the ACK number of an acknowledged FIN fails to equal snd_nxt if and only if it covered requeued segments |
| HalfClose.TakenExactly | SW_stub/lwtcp/tcp_input.c:512-562 | in FIN_WAIT_1, CLOSING and LAST_ACK: exactly which ACK numbers are taken for an acknowledgement of the FIN without being one, and exactly which acknowledge it without being taken for that |
| HalfClose.FreedUnsent | SW_stub/lwtcp/tcp_input.c:556-562 | from a new connection: two one-byte segments of which one fits the window, a close, and the ACK of the first byte frees the PCB in LAST_ACK with a byte and the FIN unsent |
| HalfClose.FinAckMissed | SW_stub/lwtcp/tcp_input.c:724-726 | from a new connection: a byte, a close, both sent, a timeout, and the ACK of both leaves the PCB in LAST_ACK |
| HalfClose.MissedForGood | SW_stub/lwtcp/tcp_input.c:556-562 | after that no run of events changes snd_nxt or what is acknowledged, so no current ACK number ever equals snd_nxt |
| EndToEnd.NoOverrun | SW_stub/lwtcp/tcp_input.c:965-983 | the segments this sender puts on the wire never overrun each other in the receiver's queue |
| EndToEnd.CarriedIsFair | SW_stub/lwtcp/tcp_input.c:786-1057 | copies of what this sender sent, in any order and number, form a fair run for the receiver |
| EndToEnd.EndToEndSafe | SW_stub/lwtcp/tcp_input.c:786-1057 | sender and receiver together over any network and any run of both, from a sender that was just synchronised: what the application is given is a prefix of what the other application wrote |
| EndToEnd.EndToEndFromNew | SW_stub/lwtcp/tcp_input.c:445-503 | the same from tcp_new() on, for connections opened by tcp_connect() and by a listener, whatever segment established them |
| HeapLayout.PlugHolesOk | SW_stub/lwtcp/mem.c:92-124 | merging around a freed block leaves no two free neighbours and lfree on a free block |
| HeapLayout.LiveDisjoint | SW_stub/lwtcp/mem.c:189-254 | live blocks never overlap, and no header of any block lies in a live payload |
| HeapLayout.MallocKeeps | SW_stub/lwtcp/mem.c:189-261 | a successful allocation adds one live block of the rounded size, disturbs no other and keeps the heap well formed; failure changes nothing |
| HeapLayout.FreeKeeps | SW_stub/lwtcp/mem.c:263-304 | freeing removes exactly that live block |
| HeapLayout.ReallocKeeps | SW_stub/lwtcp/mem.c:319-362 | shrinking moves only the end of that live block, and does so if and only if what is cut off holds a header and more than MIN_SIZE bytes |
| HeapLayout.AllFree | SW_stub/lwtcp/mem.c:263-304 | once nothing is allocated, the heap is the single initial block with lfree at 0 |
| HeapLayout.RoundCovers | SW_stub/lwtcp/mem.c:201-207 | the rounded size is the next multiple of the alignment if and only if rounding up does not wrap around 2^32, and otherwise 0 |
| HeapLayout.MallocLowest | SW_stub/lwtcp/mem.c:240-246 | mem_malloc() keeps lfree the lowest free block |
| HeapLayout.FreeLowest | SW_stub/lwtcp/mem.c:287-302 | mem_free() keeps lfree the lowest free block |
| HeapLayout.ReallocLowest | SW_stub/lwtcp/mem.c:347-359 | mem_realloc() loses that exactly when it cuts a block below lfree that lfree does not directly follow |
| HeapLayout.MallocFirst | SW_stub/lwtcp/mem.c:211-250 | what is allocated is the front of the first free block from lfree on that holds the rounded size and two headers; nothing is if and only if none does or the size is 0 or too large |
| HeapLayout.MallocComplete | SW_stub/lwtcp/mem.c:211-261 | with lfree lowest, mem_malloc() succeeds if and only if some free block is large enough |
| HeapLayout.MallocAligned | SW_stub/lwtcp/mem.c:201-221 | mem_malloc() keeps every block aligned |
| HeapLayout.FreeAligned | SW_stub/lwtcp/mem.c:263-304 | mem_free() keeps every block aligned |
| HeapLayout.ReallocAligned | SW_stub/lwtcp/mem.c:347-359 | mem_realloc() breaks alignment exactly when it splits at an unaligned size |
| HeapLayout.ShrinkBelowFree | SW_stub/lwtcp/mem.c:347-359 | from mem_init(): two allocations, the first then shrunk to 24 bytes loses the lowest free block, to 25 bytes the alignment too |
| HeapLayout.ReallocTest | SW_stub/lwtcp/mem.c:347-348 | the 32-bit test of mem_realloc() compares the true sizes if and only if the new size does not wrap around to less than the old; where it does, the new header would overlap the header of the block or the 12 bytes before it |
| HeapLayout.RunKeeps | SW_stub/lwtcp/mem.c:189-362 | any run from a well-formed heap leaves one, and an allocation the run does not name stays where and as long as it was |
| HeapLayout.InitialOk | SW_stub/lwtcp/mem.c:126-154 | mem_init() makes a well-formed heap |
| Heap.Allocator.constructor | SW_stub/lwtcp/mem.c:126-154 | mem_init() writes the headers of the initial layout |
| Heap.Allocator.SplitBlock | SW_stub/lwtcp/mem.c:215-223 | the header writes of a split lay out the two blocks, next and prev mutually inverse, and touch no other cell than headers |
| Heap.Allocator.PlugHolesAt | SW_stub/lwtcp/mem.c:92-124 | the header writes of plug_holes() lay out the merged blocks and move lfree as PlugHoles does |
| Heap.Allocator.FirstFit | SW_stub/lwtcp/mem.c:211-214 | the search along the next links finds the first fitting block from lfree on, or none |
| Heap.Allocator.MemMalloc | SW_stub/lwtcp/mem.c:189-261 | the in-place code refines Malloc on the layout the headers spell, and writes only header cells |
| Heap.Allocator.MemFree | SW_stub/lwtcp/mem.c:263-304 | the in-place code refines Free, and writes only header cells |
| Heap.Allocator.MemRealloc | SW_stub/lwtcp/mem.c:319-362 | the in-place code refines Realloc, and writes only header cells |
| Heap.SplitLinks | SW_stub/lwtcp/mem.c:215-223 | after a split the links of every block are right again |
| Heap.MergeLinks | SW_stub/lwtcp/mem.c:105-121 | after a merge the links of every block are right again |
| Checksum.ByteOrder | SW_stub/lwtcp/inet.c:63-80 | the folded little-endian sum is the sum of RFC 1071 with its bytes swapped |
| Checksum.Chksum | SW_stub/lwtcp/inet.c:63-80 | the word loop over one buffer of even or odd length computes the plain word sum without overflowing 32 bits |
| Checksum.FoldCarries | SW_stub/lwtcp/inet.c:100-102 | the folding loop ends and leaves the 16-bit number congruent to its argument |
| Checksum.CarryAdd | SW_stub/lwtcp/inet.c:98-106 | adding the next buffer with the byte-swap trick, whatever the parity of what came before |
| Checksum.SumChain | SW_stub/lwtcp/inet.c:96-111 | the loop over the chain accounts for the bytes as if they lay in one buffer |
| Checksum.InetChksumPseudo | SW_stub/lwtcp/inet.c:87-123 | for every way of cutting the bytes into pbufs, odd and empty pieces included, the result in network order is the RFC 1071 checksum of pseudo-header and flat bytes |
| Checksum.InetChksum | SW_stub/lwtcp/inet.c:131-141 | the checksum of one buffer is that of RFC 1071 |
| ChecksumUse.AcceptsExactly | SW_stub/lwtcp/tcp_output.c:484-488 | a packet is accepted if and only if its checksum field holds the sealed value, in either representation of zero |
| ChecksumUse.SealedIsAccepted | SW_stub/lwtcp/tcp_input.c:105-108 | a segment stamped by tcp_output() passes the receiver's test, however either side cut it into buffers |
| ChecksumUse.IpForward | SW_stub/lwtcp/ipv4/ip.c:180-195 | the in-place TTL and checksum update computes Forward of the header |
| ChecksumUse.ForwardValid | SW_stub/lwtcp/ipv4/ip.c:180-195 | the TTL goes down by one and nothing but it and the checksum changes; the end-around update keeps a valid header valid for every checksum value, if and only if the TTL was not already zero |
| RttEstimator.RunWithin | SW_stub/lwtcp/tcp_input.c:763-783 | over every run of samples in [lo, hi] the estimate stays among them and the time-out in [lo + 3, hi + bound] |
| RttEstimator.FreshRun | SW_stub/lwtcp/tcp_input.c:763-783 | from a new connection with samples of at most m ticks the scaled estimate, the deviation and the time-out keep their bounds |
| RttEstimator.Smoothing | SW_stub/lwtcp/tcp_input.c:769-777 | one sample moves the smoothed time by an eighth and the deviation by a quarter, the gains of RFC 6298 section 2, with rounding below one unit |
| RttEstimator.RtoMeans | SW_stub/lwtcp/tcp_input.c:777 | the time-out is the smoothed round-trip time plus four mean deviations, rounded down by less than a tick |
| RttEstimator.Timing.TakeSample | SW_stub/lwtcp/tcp_input.c:764-777 | the in-place update computes Update, and leaves that time-out in rto where 16 bits hold it |
| RttEstimator.Timing.AckSeen | SW_stub/lwtcp/tcp_input.c:763-783 | a sample is taken if and only if a segment is timed and the ACK is past it; then the estimator is updated with the ticks elapsed, the timing stops and rto holds the smoothed time plus four deviations; otherwise nothing changes |
| RttEstimator.SamplesTimedOnce | SW_stub/lwtcp/tcp_output.c:474-546 | over any run from a new connection the estimate changes by just those ACKs that cover the timed segment, and counts the ticks since it was timed; meanwhile tcp_rexmit_seg() sent nothing and no other ACK covered it |
| Karn.SampleSource | SW_stub/lwtcp/tcp_output.c:474-476 | over any run of the send side with its timer: a sample comes from a segment that had been sent before it was timed if and only if it then lay below snd_max, and from one that was sent again afterwards only if a timeout put segments back without room to resend one |
| Karn.ResentSampled | SW_stub/lwtcp/tcp.c:472-480 | from a new connection: a sample of one tick from a segment first sent eight ticks before |
| Karn.UnheededSampled | SW_stub/lwtcp/tcp_output.c:503-551 | from a new connection: a sample from a segment that was sent again after it was timed |
| Karn.SynSampledLate | SW_stub/lwtcp/tcp_input.c:445-472 | after an active open the first ACK number that tcp_receive() sees gives a sample that counts from our SYN |
| RttEstimator.SampleExact | SW_stub/lwtcp/tcp_input.c:764 | the sample is the true round-trip time if and only if the segment was sent before tick 2^16, because the start tick is kept in 16 bits |
| Timeouts.TimeoutList.SysTimeout | SW_stub/lwtcp/sys.c:150-191 | the in-place delta-list insertion computes Insert of the old list, and nothing when no entry can be allocated |
| Timeouts.TimeoutList.AfterWait | SW_stub/lwtcp/sys.c:62-90 | after a wait the head fires and is removed, or is charged with the time waited |
| Timeouts.InsertIs | SW_stub/lwtcp/sys.c:150-191 | insertion into the delta list is stable insertion into the list of absolute deadlines: the new one is due in exactly msecs and no other moves |
| Timeouts.InsertSortedMeans | SW_stub/lwtcp/sys.c:173-188 | the new deadline goes behind exactly those that are not later |
| Timeouts.PositionMeans | SW_stub/lwtcp/sys.c:173-188 | in an ordered list those are the leading ones |
| Timeouts.ChargeIs | SW_stub/lwtcp/sys.c:81-90 | a wait ended by a message leaves every absolute deadline where it was if and only if it did not overrun the head, and shifts all by the overrun otherwise |
| Timeouts.ExpireIs | SW_stub/lwtcp/sys.c:68-80 | the head fires at its deadline and the rest stays due when it was |
| Timeouts.FiresOnTime | SW_stub/lwtcp/sys.c:47-191 | on the clock that adds up what waits report, over any run of requests, waits that do not overrun and expiries: each handler fires exactly at its deadline, in order of deadline and of request, none twice, and all others are still due |
| ReportedTime.ReportIs | SW_stub/lwtcp/sys_arch.c:232-376 | a fetch reports at most a millisecond more than it took, and more than it took if and only if it took none |
| ReportedTime.LastWaitCounts | SW_stub/lwtcp/sys_arch.c:241-258 | of all the waits of a fetch the report tells the last one only, whatever came before |
| ReportedTime.EarlyBy | SW_stub/lwtcp/sys_arch.c:232-376 | in true time a handler is called at most a millisecond early for each fetch since its request that took no time |
| ReportedTime.OrderStays | SW_stub/lwtcp/sys.c:47-191 | whatever fetches report, handlers are called in the order of their deadlines on the reported clock |
| ReportedTime.QueuedMessagesHurry | SW_stub/lwtcp/sys_arch.c:235-274 | with n messages in the mailbox a timeout of n milliseconds, for every n, runs out at once |
| ReportedTime.RepeatedWaitsDelay | SW_stub/lwtcp/sys_arch.c:241-258 | a fetch that waits n times reports the last wait only: a timeout of 2 milliseconds runs out after n + 1, for every n |
| Timeouts.AlwaysInOrder | SW_stub/lwtcp/sys.c:150-191 | a delta list always stands for deadlines in order, none in the past |
| PcbLists.MoveToFrontLookup | SW_stub/lwtcp/tcp_input.c:151-160 | moving element i to the front changes what a test finds if and only if the test accepts both that element and one before it |
| PcbLists.ActiveLookupStable | SW_stub/lwtcp/tcp_input.c:138-165 | after any series of lookups every 4-tuple still finds the same PCB in the active list |
| PcbLists.ListenLookupStable | SW_stub/lwtcp/tcp_input.c:184-202 | the same for listeners, when no two conflict in the sense of tcp_bind() |
| PcbLists.SweepIs | SW_stub/lwtcp/tcp.c:444-597 | the removal loop drops exactly the expired PCBs |
| PcbStates.AxiomsIffPlaced | SW_stub/lwtcp/lwip/tcp.h:340-345 | the four list axioms, with the assertions on the active list, hold if and only if every PCB is exactly once in the list its state calls for and in no other |
| PcbRuns.ConnectKeeps | SW_stub/lwtcp/tcp.c:382-425 | tcp_connect() keeps the axioms if and only if it is called on a PCB in CLOSED |
| PcbRuns.ListenKeeps | SW_stub/lwtcp/tcp.c:302-311 | tcp_listen() keeps the axioms if and only if it gets a block for a PCB in CLOSED, or gets none for one that was listening already |
| PcbRuns.CloseKeeps | SW_stub/lwtcp/tcp.c:148-199 | tcp_close() in every state keeps the axioms |
| PcbRuns.AbortKeeps | SW_stub/lwtcp/tcp.c:211-247 | tcp_abort() in every state keeps the axioms |
| PcbRuns.ReclaimKeeps | SW_stub/lwtcp/tcp.c:804-826 | reclaiming a PCB when the pool is empty keeps the axioms |
| PcbRuns.TickKeeps | SW_stub/lwtcp/tcp.c:444-597 | the removals of the slow timer keep the axioms |
| PcbRuns.InputKeeps | SW_stub/lwtcp/tcp_input.c:138-258 | a segment, for a connection, a listener or nobody, keeps the axioms |
| PcbRuns.DemuxIs | SW_stub/lwtcp/tcp_input.c:138-203 | what the lookup finds matches the segment and has the state of its list; when it finds nothing, nothing matches |
| PcbRuns.StepKeeps | SW_stub/lwtcp/lwip/tcp.h:340-345 | every step keeps the axioms |
| PcbRuns.ConnectKeepsUnique | SW_stub/lwtcp/tcp.c:382-425 | tcp_connect() leaves all connections distinguishable if and only if no other one, TIME-WAIT included, has the same addresses and ports; for an unbound PCB whose SYN went out the local address is the one the routing gave it |
| PcbRuns.OutputKeepsUnique | SW_stub/lwtcp/tcp_output.c:461-470 | the first segment of an unbound connection gives it a local address, and leaves all connections distinguishable if and only if no other one has the result |
| PcbRuns.SpawnUnique | SW_stub/lwtcp/tcp_input.c:393-443 | a SYN creates a connection only when none has its addresses and ports |
| PcbRuns.StepKeepsUnique | SW_stub/lwtcp/tcp_input.c:138-258 | no other step, first transmissions included, makes two connections with the same addresses and ports |
| PcbRuns.DemuxExact | SW_stub/lwtcp/tcp_input.c:138-203 | a segment reaches a connection if and only if it carries that connection's addresses and ports, whatever the order of the lists |
| PcbRuns.RunKeeps | SW_stub/lwtcp/lwip/tcp.h:340-345 | every run keeps the axioms and the uniqueness of connections |
| PcbRuns.RunFromEmpty | SW_stub/lwtcp/lwip/tcp.h:340-345 | from tcp_init() on, every run keeps the axioms, and every connection gets exactly its own segments |
| PcbRuns.StepFollows | SW_stub/lwtcp/tcp_input.c:387-572 | every step moves every PCB along an arrow of the state diagram of RFC 793 or leaves its state alone; new PCBs are CLOSED, or LISTEN from CLOSED, or SYN_RCVD from LISTEN by a SYN |
| PcbRuns.ProcessHalves | SW_stub/lwtcp/tcp_input.c:387-572 | in every synchronised state a segment moves the two directions of the connection independently: theirs when it carries a FIN, ours when our FIN is queued and the ACK number equals snd_nxt; and this determines the new state |
| PcbRuns.CloseHalves | SW_stub/lwtcp/tcp.c:148-199 | tcp_close() closes our direction, if it is open and the FIN can be queued, and nothing else |
| PcbRuns.SpawnServes | SW_stub/lwtcp/tcp_input.c:393-443 | the connection a SYN creates gets the segments that follow on its addresses and ports, and no others |
| PcbRuns.Disappears | SW_stub/lwtcp/tcp_input.c:241-258 | a PCB disappears if and only if it was moved by tcp_listen(), closed before a connection existed, aborted, reclaimed as the first in TIME-WAIT or else the oldest active one, expired, reset with a number that fits, or got an ACK number equal to snd_nxt in LAST_ACK |
| PcbChanges.InWindowMeans | SW_stub/lwtcp/tcp_input.c:358-359 | the two comparisons accept the numbers from rcv_nxt to rcv_nxt + rcv_wnd, both included, and no others |
| PcbChanges.ResetExactly | SW_stub/lwtcp/tcp_input.c:351-376 | a segment with RST removes the PCB it is for if and only if that is no listener and the number fits its state; no other PCB goes, and none changes |
| PcbChanges.ResetByNumber | SW_stub/lwtcp/tcp_input.c:351-376 | the same in terms of the numbers of the segment and of the PCB |
| PcbChanges.Appears | SW_stub/lwtcp/tcp_input.c:393-443 | a PCB appears if and only if tcp_new(), tcp_listen() or a SYN without ACK and RST for a listener creates it, and with which addresses, ports and state |
| PcbChanges.Stays | SW_stub/lwtcp/tcp_input.c:205-258 | a PCB that an event is not about stays as it is; addresses and ports change by a bind that nothing stands in the way of, by a connect and by a first transmission, and a local address stays once there is one |
| PcbChanges.CloseEarly | SW_stub/lwtcp/tcp.c:159-193 | what tcp_close() does before a connection is synchronised |
| PcbChanges.WithoutExactly | SW_stub/lwtcp/lwip/tcp.h:384-394 | TCP_RMV takes out the first occurrence and leaves the order of the rest |
| PcbChanges.SweepConcat | SW_stub/lwtcp/tcp.c:536-597 | the slow timer decides each PCB of a list by itself and leaves the order of the rest |
| PcbChanges.FoundInFront | SW_stub/lwtcp/tcp_input.c:138-203 | after a lookup the PCB found comes first in its list, unless it is in TIME-WAIT, and the order of the others stays |
| PcbChanges.NewestFirst | SW_stub/lwtcp/lwip/tcp.h:380-383 | a PCB that is new to a list comes first |
| PcbChanges.ConflictMeans | SW_stub/lwtcp/tcp_input.c:184-202 | two listeners conflict if and only if some segment is for both, and then tcp_bind() finds the one in the way of the other |
| PcbHistory.HandshakeFirst | SW_stub/lwtcp/tcp_input.c:393-503 | in every run from tcp_init() on, a PCB in a state that carries data was opened by an event and since then got a segment of its own whose ACK number is one past that of its SYN; or its SYN could not be queued when it was accepted, and the number is 2^31 ahead |
| PcbHistory.EstablishedExactly | SW_stub/lwtcp/tcp_input.c:445-503 | in every run, a segment that reaches a PCB that is being opened establishes the connection if and only if it carries that number; any other without RST leaves every PCB as it was |
| PcbRuns.ListenConflicts | SW_stub/lwtcp/tcp.c:262-282 | tcp_listen() leaves the listeners without conflicts if and only if the new one conflicts with none |
| PcbRuns.BindExactly | SW_stub/lwtcp/tcp.c:262-282 | tcp_bind() fails if and only if a listening or active PCB is in the way |
| PcbRuns.BindThenListen | SW_stub/lwtcp/tcp.c:258-311 | listening at once after tcp_bind() succeeded never creates a conflict |
| PcbRuns.LateConflict | SW_stub/lwtcp/tcp.c:262-311 | two PCBs bound to one port before either listens both end up listening, and which of them a SYN reaches depends on the order of the list |
| PcbTable.Tcp.Unlink | SW_stub/lwtcp/lwip/tcp.h:384-394 | the loop of TCP_RMV unlinks the first occurrence |
| PcbTable.Tcp.Find | SW_stub/lwtcp/tcp_input.c:138-203 | the three search loops with relinking find what Demux finds and leave the lists as Reordered says |
| PcbTable.Tcp.TcpInput | SW_stub/lwtcp/tcp_input.c:205-258 | tcp_input() with tcp_process() computes Input of the old lists and keeps the axioms; PcbChanges and ProcessHalves say what Input does to each PCB |
| PcbTable.Tcp.TcpBind | SW_stub/lwtcp/tcp.c:258-291 | the two search loops decide as BindOk does, and the PCB is bound as Bind says |
| PcbTable.Tcp.TcpListen | SW_stub/lwtcp/tcp.c:302-311 | tcp_listen() computes Listen of the old lists |
| PcbTable.Tcp.TcpClose | SW_stub/lwtcp/tcp.c:148-199 | tcp_close() computes Close of the old lists and keeps the axioms |
| PcbTable.Tcp.TcpNewPort | SW_stub/lwtcp/tcp.c:344-374 | the search ends when some port is free, with the first free one after the last |
| PcbTable.FreePortNotTaken | SW_stub/lwtcp/tcp.c:344-374 | a connection from a port tcp_new_port() chose never duplicates another, whatever its local address |
| PcbTable.Tcp.TcpConnect | SW_stub/lwtcp/tcp.c:382-425 | tcp_connect() computes Connect, keeps the axioms, and keeps connections unique if and only if no other one has the result, which is so whenever it chooses the port |
| PcbTable.FirstFreeMeans | SW_stub/lwtcp/tcp.c:344-374 | no port that the search of tcp_new_port() passes is free |
| PcbReuse.TimeWaitReused | SW_stub/lwtcp/tcp.c:258-411 | from tcp_init() on, a run of which every step is sane, and then a tcp_connect() after which a connection in TIME-WAIT and a new one have the same addresses and ports, and segments for both reach the new one |
| PcbTable.Tcp.TcpSlowtmr | SW_stub/lwtcp/tcp.c:444-597 | the two removal loops of the slow timer compute Tick of the old lists |
| Mailbox.AdvanceIs | SW_stub/lwtcp/sys_arch.c:217-221 | moving last on adds the stored message if and only if fewer than 99 are in the ring; with 99 the ring comes to look empty |
| Mailbox.TakeIs | SW_stub/lwtcp/sys_arch.c:258-267 | moving first on takes the oldest message |
| Mailbox.Mbox.Post | SW_stub/lwtcp/sys_arch.c:203-227 | the critical section of a post appends the message if and only if fewer than 99 are queued, and signals exactly when the ring was empty |
| Mailbox.Mbox.Fetch | SW_stub/lwtcp/sys_arch.c:233-271 | the critical section of a fetch returns the oldest message, or nothing from an empty ring |
| MailboxRuns.Alone | SW_stub/lwtcp/sys_arch.c:202-273 | two threads are never inside the mutex together |
| MailboxRuns.ConservedStep | SW_stub/lwtcp/transport_subsys.c:68-123 | every message block is free, with a poster, in the ring or with the transport thread, in exactly one place, at every step |
| MailboxRuns.NeverFull | SW_stub/lwtcp/transport_subsys.c:111-123 | so the ring of 100 slots, with what the fetching thread holds, never holds more than the blocks of the pool |
| MailboxRuns.RoomFor | SW_stub/lwtcp/transport_subsys.c:111-123 | a poster that holds a block finds room in the ring for it |
| MailboxRuns.WakeStep | SW_stub/lwtcp/sys_arch.c:202-273 | no step loses a wake-up: a waiting fetcher beside a nonempty ring has a signal or a poster that is about to give one |
| MailboxRuns.OrderedStep | SW_stub/lwtcp/sys_arch.c:202-273 | no step loses, repeats, reorders or changes a message |
| MailboxRuns.RunKeeps | SW_stub/lwtcp/sys_arch.c:202-273 | every interleaving keeps the invariant |
| MailboxRuns.MailboxSafe | SW_stub/lwtcp/sys_arch.c:202-273 | for any number of posters, any pool of up to 99 blocks and any interleaving: messages are handled in the order posted, unchanged, none lost or repeated, at most as many as there are blocks are under way, and two threads are never inside together |
| MailboxRuns.NeverStuck | SW_stub/lwtcp/sys_arch.c:341-376 | while messages are pending some thread can take a step other than a timeout, and with nobody inside a waiting fetcher finds its semaphore raised |
| WorkQueue.Queue.Enqueue | SW_stub/sr_work_queue.c:73-96 | the linked-list code appends one node |
| WorkQueue.Queue.Dequeue | SW_stub/sr_work_queue.c:130-136 | the linked-list code takes the first node, and NULLs tail with head |
| WorkQueue.Queue.Destroy | SW_stub/sr_work_queue.c:37-57 | every node is freed once, in order, and tail keeps its stale value |
| WorkQueueRuns.FifoStep | SW_stub/sr_work_queue.c:73-144 | every step keeps enqueued == taken ++ queue and tail the last node until the queue is destroyed |
| WorkQueueRuns.StaffedStep | SW_stub/sr_work_queue.c:73-144 | with n pieces of work queued, n workers (or all) are awake or owed a signal: signalling after unlocking loses no wake-up |
| WorkQueueRuns.OwnedStep | SW_stub/sr_work_queue.c:108-144 | no two workers work on the same piece |
| WorkQueueRuns.ExclusiveStep | SW_stub/sr_work_queue.c:73-144 | at most one thread holds the lock |
| WorkQueueRuns.CountedStep | SW_stub/sr_work_queue.c:37-57 | workers counts the workers that have not left, and after the broadcast none sleeps |
| WorkQueueRuns.NothingAfterDone | SW_stub/sr_work_queue.c:117-128 | once the queue is destroyed no further piece of work is started |
| WorkQueueRuns.RunKeeps | SW_stub/sr_work_queue.c:37-144 | every interleaving keeps the invariant |
| WorkQueueRuns.WorkQueueSafe | SW_stub/sr_work_queue.c:37-144 | for any number of workers and enqueuers and any interleaving: FIFO, nothing lost until destroy, head NULL if and only if tail NULL, and all workers asleep beside work means a signal is owed |
| WorkQueueRuns.NeverStuck | SW_stub/sr_work_queue.c:73-144 | while work is queued some thread can go on without new work, a shutdown or a spurious wake-up |
| ReadSearch.SearchState.GrowIfFull | SW_stub/cli/search_state.c:29-59 | doubles a full buffer up to the maximum, keeps its contents, and says which of the three cases it was |
| ReadSearch.SearchState.Compare | SW_stub/cli/socket_helper.c:99-106 | the inner loop decides whether the needle is at the search offset |
| ReadSearch.SearchState.Scan | SW_stub/cli/socket_helper.c:99-112 | the scan stops at the first occurrence from the search offset on, or after the last position that can be compared |
| ReadSearch.SearchState.Search | SW_stub/cli/socket_helper.c:61-127 | one call: first match exact, buffer extended by exactly the bytes read, at least one byte offered and read each time, no more than max_reads reads, and Full only at the maximal capacity |
| ReadSearch.Compose | SW_stub/cli/socket_helper.c:79-124 | a vain search followed by another is one search: nothing is skipped between reads |
| ReadSearch.CallReports | SW_stub/cli/socket_helper.c:61-127 | a call adds to the occurrences below the search offset exactly the one it reports, if any |
| ReadSearch.AllReported | SW_stub/cli/socket_helper.c:61-127 | over any series of calls, however reads cut the stream and whatever interrupts the calls, the successes report every occurrence once and in order |
| PbufPool.ApartStep | SW_stub/lwtcp/pbuf.c:111-154 | the two lock flags keep the allocating thread and a refreshing thread from changing pbuf_pool at the same time |
| PbufPool.PlacesStep | SW_stub/lwtcp/pbuf.c:111-174 | no step of allocation, freeing or refreshing creates, loses or duplicates a pbuf |
| PbufPool.PoolSafe | SW_stub/lwtcp/pbuf.c:111-348 | in every interleaving, allocations that fail halfway included, every pbuf is in exactly one of pool, caches, construction, hands of a thread, or live chain |
| PbufPool.LiveApart | SW_stub/lwtcp/pbuf.c:195-267 | two live chains share no pbuf |
| PbufPool.QuietAlloc | SW_stub/lwtcp/pbuf.c:111-154 | with an empty cache and no refreshing thread the allocation takes the first pbuf of the pool, or nothing from an empty one, and leaves the flag as it was |
| PbufPool.QuietRefresh | SW_stub/lwtcp/pbuf.c:314-341 | with no allocation under way the refresh gives the whole free cache back to the pool |
| PbufChain.AllocPool | SW_stub/lwtcp/pbuf.c:221-267 | succeeds if and only if the pool has enough pbufs; the lengths then add up to the size, the first leaves header room, and all but the last are full |
| PbufChain.Realloc | SW_stub/lwtcp/pbuf.c:361-399 | what stays is exactly the first size bytes, in the pbufs they were in |
| AxiText.DumpWords | HW_stub/NetFPGA-10G-live/tools/scripts/axitools.py:112-139 | the loop over the words of a packet, with its padding, reversal, strobe and TUSER list, writes Words |
| AxiText.AxisDump | HW_stub/NetFPGA-10G-live/tools/scripts/axitools.py:62-140 | axis_dump() writes Dump; AxiTimes says what its delays stand for |
| AxiText.AxisLoad | HW_stub/NetFPGA-10G-live/tools/scripts/axitools.py:153-231 | axis_load() computes Load |
| AxiRoundTrip.WordBytesOf | HW_stub/NetFPGA-10G-live/tools/scripts/axitools.py:163-167 | the reversed bytes of a word read back as they were |
| AxiRoundTrip.LoadDataLine | HW_stub/NetFPGA-10G-live/tools/scripts/axitools.py:197-220 | a dumped line is read back as the word, the TUSER value and the terminal it was written from, padding undone by the strobe |
| AxiRoundTrip.LoadWords | HW_stub/NetFPGA-10G-live/tools/scripts/axitools.py:197-231 | the lines of a packet are read back as one packet |
| AxiRoundTrip.MetadataIs | HW_stub/NetFPGA-10G-live/tools/scripts/axitools.py:105-110 | TUSER carries the length modulo 2^16 and, for a packet shorter than that, the ports that were set, or else the bits it had |
| AxiRoundTrip.RoundTrip | HW_stub/NetFPGA-10G-live/tools/scripts/axitools.py:62-231 | for every list of packets, every bus width of whole bytes and all timing, with an exact logarithm and an Ether() that keeps the bytes it is given: all nonempty packets come back byte for byte with their TUSER and the times of StartAt if all are shorter than 65536 bytes, and the loader raises an exception otherwise |
| AxiRoundTrip.DelayLineRead | HW_stub/NetFPGA-10G-live/tools/scripts/axitools.py:189-196 | a line with @ sets the clock to that many seconds, one with + moves it on by nanoseconds and one with * by periods |
| AxiRoundTrip.CommentsIgnored | HW_stub/NetFPGA-10G-live/tools/scripts/axitools.py:176-183 | what follows a # does not matter |
| AxiRoundTrip.LineWidth | HW_stub/NetFPGA-10G-live/tools/scripts/axitools.py:131-136 | on a bus of a multiple of 4 bytes all data lines have one width |
| AxiRoundTrip.BlankAfterEach | HW_stub/NetFPGA-10G-live/tools/scripts/axitools.py:140 | each packet, an empty one too, ends with a blank line, and there are no others |
| AxiTimes.StartExactly | HW_stub/NetFPGA-10G-live/tools/scripts/axitools.py:84-91 | read back, each packet starts at its own time, plus all overlaps so far, plus what the misread unit of the first time adds |
| AxiTimes.OwnTime | HW_stub/NetFPGA-10G-live/tools/scripts/axitools.py:84-91 | that is its own time if and only if the first is due at 0 and no packet so far was due before the end of its predecessor; it is never earlier |
| AxiTimes.LaterOf | HW_stub/NetFPGA-10G-live/tools/scripts/axitools.py:84-139 | packets never overlap when read back; and exactly when one starts at the later of its own time and the end of the one before it |
| AxiTimes.LagStays | HW_stub/NetFPGA-10G-live/tools/scripts/axitools.py:91 | three packets of which the third starts late although the bus is free |
| AxiTimes.FirstInSeconds | HW_stub/NetFPGA-10G-live/tools/scripts/axitools.py:189-192 | a first packet due at 1 ns starts at 1 s |
| AxiRoundTrip.ExpectedFields | HW_stub/NetFPGA-10G-live/tools/scripts/axitools.py:222-226 | length and port fields of what came back |

## Left out

- TcpReceive.Pcb.TcpReceive: segments with SYN or FIN are not modelled, because a FIN is counted after its segment was cut short and the dequeue loop tests the wrong header.
- EndToEnd.EndToEndFromNew: the SYN could be queued, and an active open did not leave snd_max stale (Handshake.ActiveOpen says when); ACK numbers 2^31 ahead with nothing outstanding are excluded (SendInvariant.AckExactly).
- HalfClose.TakenExactly: snd_nxt is right before the segment arrives (SendInvariant.AckNext says when it is not).
- Karn.SampleSource: the SYN itself counts as one segment sent before the connection is synchronised.
- ReportedTime.EarlyBy: waits that run past the head of the list, and reports that wrap around to 0, are excluded.
- PcbHistory.HandshakeFirst: data written before the connection is established is not modelled; in SYN_SENT it does not change the number that is compared, and in SYN_RCVD no application has the PCB yet.
- TcpReceive.Pcb.TrimLeft: incoming segments are single pbufs, which is what the glue code builds; multi-pbuf left trims are not modelled.
- ReceiveRuns.RunSafe: a left trim of more than 2^15 bytes, where the code differs from the stream (TcpReceive.TrimmedRefines), is excluded by the fairness of the run.
- SendInvariant.EnqueueKeeps: calls with neither data nor a FIN are excluded; tcp_write() makes none.
- TcpSend.Pcb.TcpEnqueue: segments with a SYN and options are modelled in Handshake only.
- Handshake.ActiveOpen: data written before the connection is established is not modelled; nor are lost and resent SYNs, and a peer that answers when no SYN is unacknowledged, which the code does not ask before it dereferences the first unacknowledged segment.
- SendInvariant.AckKeeps: the ACK number exactly 2^31 ahead is excluded here, and in SendRuns.RunKeeps; SendInvariant.AckExactly shows that it is the only one that breaks the invariant, and SendRuns.FarAckAccepted that it is taken.
- SendRuns.RunKeeps: counting duplicate ACKs and the growth of cwnd and ssthresh are not modelled, and a fast retransmission may happen at any time; cwnd and snd_wnd are arbitrary inputs that may change between any two steps. The same goes for the backoff shift.
- SendInvariant.OutputKeeps: only sequence number, length, FIN and data of a segment are modelled; ports, ACK number, advertised window and the PSH and ACK flags are not.
- Heap.Allocator.MemRealloc: the sizes for which HeapLayout.ReallocTest says that the new header would overlap another are excluded.
- Heap.Allocator.MemMalloc: payload bytes are not represented; that no payload is written is stated as "only header cells change".
- PcbStates.Process: the comparisons of sequence numbers are inputs of a segment, so the theorems hold for any outcome of them; HalfClose and PcbHistory put numbers to those with snd_nxt and of the opening.
- PcbRuns.RunKeeps: accept callbacks succeed and callbacks leave the lists alone; a PCB freed by the heap's reclaim function in the middle of an operation on it is not modelled.
- PcbRuns.StepKeeps: the tcp_close() that tcp_input() itself issues for a connection without a receive callback is a step of its own, and so is reclaiming a PCB when the pool is empty.
- MailboxRuns.MailboxSafe: sys_mbox_free() and the failing path of transport_apimsg(), which gives a block to the wrong pool, are not modelled.
- WorkQueueRuns.WorkQueueSafe: destroying the mutex while workers still run is not modelled.
- ReadSearch.SearchState.GrowIfFull: realloc() succeeds, since the program ends when it fails.
- PbufPool.PoolSafe: one thread allocates; several threads that allocate at once share alloc_lock and the alloc cache without protection.
- PbufChain.Realloc: only chains of pool pbufs; chains of RAM pbufs free their tail twice when two or more are dropped.
- AxiText.AxisLoad: the logarithm is exact, where the source computes it with floating-point numbers, which does not give every strobe of a wide bus its exact logarithm; times are real numbers, and int() accepts digits only, after an optional sign for the delays.
- AxiTimes.StartExactly: the time of a packet is taken in whole nanoseconds, as axis_dump() rounds it.
- AxiRoundTrip.RoundTrip: Ether() is taken to keep the bytes of a packet and their number; parsing and building Ethernet frames is not modelled.
- AxiText.AxisDump: a bus width that is not a multiple of 8 makes it print a message and write nothing; that the TUSER list of the packet is changed in place is not modelled.
- Timeouts.TimeoutList.AfterWait: the handlers themselves, and the timeouts they set, are further steps.
- IP input, reassembly (compiled out), ICMP, UDP, sockets, netconn and API glue, and inet_chksum_pbuf(), whose byte
  swap is a no-op.
- Statistics counters, debug output, memp_init() and the reclaim of heap memory.
- The router's interfaces, ARP, routing tables, web server and CLI parsing, the topology scripts, and the hardware
  description.
