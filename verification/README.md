# Verified models of mpquic-go and its Caddy tree

This project models the parts of the repository where state, arithmetic or text processing is hardest, and
proves what they promise. Each module follows one source file; operations that change things in place are
class methods proved against functions or relations on values, and the theorems about whole runs are lemmas
about those.

**Multipath QUIC stream transport.** `FrameSorter` reassembles a stream from overlapping frames with a gap
list and a map of queued frames. `Streams` is the sending side of a stream, `StreamReader` its `Read`.
`StreamFramer` cuts new data and lost frames into frames under `FlowControl`, and `PacketPacker` fits them into
packets numbered by `PacketNumbers`. `SendRuns` puts streams, framer and flow control together and follows every
run of them. `Transport` composes writer, a network that loses, reorders and duplicates, and reader, and proves
that the bytes read are always a prefix of the bytes written and sent. `Frames` and `Basics` hold what these share.

**Scheduling and path allocation.** `Schedulers` selects paths (round robin with fairness over runs, lowest
round-trip time), `RedundantSends` keeps the books of duplicated packets, `PathManagers` gives out path ids at
both ends of a connection.

**Caddy.** `CaddyLexer`, `CaddyDispenser` and `CaddyRoundTrip` print, lex and regroup Caddyfile blocks, and
`CaddyExact` says exactly which blocks survive that; `CaddyText` says what the lexer and the regrouping make of any
text.
`VHostTries` is the virtual-host trie, a pointer structure that answers as a plain map would. `Policies` holds
the load-balancing policies, `FastCgi` records, streams and name-value pairs.

## Where the code does not do what is promised

- A FIN frame that is trimmed at its tail keeps its FIN (stream_frame_sorter.go:96-102). With an honest sender
  that splits a lost frame, `Read` can report the end of the stream before all bytes are delivered:
  `Transport.PrematureEnd`. `Transport.MarkMovesExactly` says exactly when a mark moves, and
  `Transport.EndMeansEverything` that the end is right otherwise.
- An empty FIN frame is queued without a check (stream_frame_sorter.go:34-36). At the offset of queued data it
  takes the place of that data: `FrameSorter.HiddenData`. `FrameSorter.FinKeepsExactly` says exactly when, and
  `Transport.WireOverwritesNothing` that an honest sender never does it.
- The packet number generator is documented to skip numbers at random. A new one never does
  (`PacketNumbers.NewGeneratorNeverSkips`), because the mark starts at zero and moves only when it is hit.
- A flow control window can shrink on the first update (`FlowControl.WindowShrinksExactly`).
- The "no end gap" error of the sorter is reachable, exactly by a frame that ends at the largest byte count.
- Caddyfile blocks survive printing and reading exactly when their lines are safe
  (`CaddyExact.BlockComesBackExactly`), and so do single strings (`CaddyRoundTrip.TextComesBackExactly`). Pairs of
  backslashes before a quote are fine, an odd run is not; a comment sign or an unusual space is printed without
  quotes; and elements behind a nested block are lost when the block comes from JSON.
- A comment sign inside a word is documented to skip the rest of the line. It hides the rest of the word, and what
  follows on the line is read (`CaddyText.CommentInWord`, `CaddyText.CommentGoesOn`).
- A PING at the head of the control queue is taken out and lost on a path with a STOP_WAITING, and otherwise clears the
  ACK of its path without sending it. These are the only frames that packing loses
  (`PacketPacker.ControlKeptExactly`, `PacketPacker.AckLostExactly`).
- Hash probing misses hosts for every pool size that is not a power of two, as long as the index does not wrap
  (`Policies.OthersMiss`), and round robin passes a host over when its 32-bit counter wraps in the middle of a
  pool (`Policies.Skipped`).
- Values of FastCGI pairs are cut off without notice when name, value and eight bytes do not fit a record
  (`FastCgi.Shortened`). Sizes up to 127 take one byte and not four, so that some pairs are cut although they fit:
  exactly those of `FastCgi.CutAlthoughItFits`.
- Path ids are 8 bits wide and wrap. The 129th path of a client takes the place of path 1, the 128th of a
  server that of the initial path 0 (`PathManagers.OverwritesExactly`).

## Model

| member | source | states |
|---|---|---|
| FrameSorter.Sorter.constructor | mpquic-go/src/github/lucas-clemente/quic-go/stream_frame_sorter.go:23-30 | a new sorter has one gap, from 0 to the largest byte count |
| FrameSorter.Sorter.Push | mpquic-go/src/github/lucas-clemente/quic-go/stream_frame_sorter.go:32-144 | for every state that meets the invariant and every frame, Push is related to the old state by PushRel: the bytes received grow by exactly those of the frame, exactly one part of it is stored and all other entries are old ones, Duplicate is returned exactly when all bytes were received before, "no end gap" exactly when the frame ends at the largest byte count, and "no gap found" never; the invariant is kept unless an empty FIN overwrites data still to be read, and lost exactly then |
| FrameSorter.FinKeepsExactly | mpquic-go/src/github/lucas-clemente/quic-go/stream_frame_sorter.go:33-39 | an empty FIN frame is queued without a check: the invariant survives if and only if no frame of a chain starts at its offset |
| FrameSorter.HiddenData | mpquic-go/src/github/lucas-clemente/quic-go/stream_frame_sorter.go:33-39 | counterexample: a data frame and then an empty FIN at the same offset leave bytes that are marked as received and that Head does not give |
| FrameSorter.Sorter.PushRest | mpquic-go/src/github/lucas-clemente/quic-go/stream_frame_sorter.go:51-76 | the scan for the first gap always finds one, for a frame whose bytes at an occupied offset are cut off |
| FrameSorter.Sorter.FillGaps | mpquic-go/src/github/lucas-clemente/quic-go/stream_frame_sorter.go:66-143 | a frame that starts in a gap is trimmed to the gaps it fills and queued, or refused because the list got too long |
| FrameSorter.Sorter.CloseGaps | mpquic-go/src/github/lucas-clemente/quic-go/stream_frame_sorter.go:78-94 | the scan ends at the highest gap that starts before the end of the frame; the gaps passed leave the list and the first frame behind each of them leaves the queue |
| FrameSorter.Sorter.AdjustGaps | mpquic-go/src/github/lucas-clemente/quic-go/stream_frame_sorter.go:96-134 | shrinking, splitting and deleting in place gives the old gap list with the range of the frame punched out |
| FrameSorter.Sorter.Head | mpquic-go/src/github/lucas-clemente/quic-go/stream_frame_sorter.go:155-161 | the queued frame at the read position, if there is one |
| FrameSorter.Sorter.Pop | mpquic-go/src/github/lucas-clemente/quic-go/stream_frame_sorter.go:146-153 | Pop removes the head frame and moves the read position behind it |
| FrameSorter.PushKeepsValid | mpquic-go/src/github/lucas-clemente/quic-go/stream_frame_sorter.go:51-143 | the invariant (ordered, separate gaps up to the largest byte count, blocks of frames linked end to end between them) survives a push although frames covered by a new one stay in the map |
| FrameSorter.PunchComplement | mpquic-go/src/github/lucas-clemente/quic-go/stream_frame_sorter.go:105-134 | after the gap update a byte is missing exactly when it was missing before and the frame does not carry it |
| FrameSorter.PopKeepsValid | mpquic-go/src/github/lucas-clemente/quic-go/stream_frame_sorter.go:146-153 | the invariant and the bytes received survive a pop |
| FrameSorter.HeadComplete | mpquic-go/src/github/lucas-clemente/quic-go/stream_frame_sorter.go:155-161 | Head gives data exactly when the byte at the read position has been received; otherwise the read position is the start of the first gap |
| FrameSorter.GapsRefineHistory | mpquic-go/src/github/lucas-clemente/quic-go/stream_frame_sorter.go:32-161 | in every run of pushes and pops in which no empty FIN overwrites data, the invariant holds and the gaps are the complement of the union of all bytes pushed |
| FrameSorter.DeliversStream | mpquic-go/src/github/lucas-clemente/quic-go/stream_frame_sorter.go:32-161 | in every such run whose frames are slices of one stream, the popped data is that stream up to the read position, and popping stops exactly at the first byte that was never received |
| FrameSorter.HeadStable | mpquic-go/src/github/lucas-clemente/quic-go/stream_frame_sorter.go:41-94 | a data frame at the head stays the same through any pushes until it is popped |
| Streams.NextKeepsOk | mpquic-go/src/github/lucas-clemente/quic-go/stream.go:209-314 | each step of a sending stream keeps the log of emissions exact |
| Streams.LogMeaning | mpquic-go/src/github/lucas-clemente/quic-go/stream.go:269-288 | an exact log carries the first writeOffset written bytes, in contiguous ranges from 0, with at most one FIN or RST, last and at that offset |
| Streams.TilesCover | mpquic-go/src/github/lucas-clemente/quic-go/stream.go:269-288 | each sent byte is in one first transmission only, at its own offset |
| Streams.NextOnlyGrows | mpquic-go/src/github/lucas-clemente/quic-go/stream.go:298-314 | no step takes an emission back, adds one behind a FIN or RST, or makes a finished stream unfinished |
| Streams.EveryRunIsExact | mpquic-go/src/github/lucas-clemente/quic-go/stream.go:209-314 | every run from a new stream has an exact log |
| Streams.FinalOffsetIsFinal | mpquic-go/src/github/lucas-clemente/quic-go/stream.go:386-450 | over every run at most one of FIN and RST is emitted, once, at writeOffset; no data follows, and finished never goes back |
| Streams.RunRecords | mpquic-go/src/github/lucas-clemente/quic-go/stream.go:209-450 | in every run the flags record exactly which events have happened |
| Streams.VisitEmits | mpquic-go/src/github/lucas-clemente/quic-go/stream.go:269-314 | exactly what a visit emits after any events: nothing if the stream is broken, or has no data left and no end to tell; else the next written bytes, as many as allowed, with a FIN if and only if the stream was closed and these are the last |
| Streams.ClosedStreamsEnd | mpquic-go/src/github/lucas-clemente/quic-go/stream.go:305-314 | a closed, unbroken stream ends with the visit that takes its last byte, or with the next one if there is none left |
| Streams.WritingTakes | mpquic-go/src/github/lucas-clemente/quic-go/stream.go:209-252 | a Write hands over its bytes if and only if the stream is neither broken nor closed and the last Write has ended |
| Streams.ResetsEmit | mpquic-go/src/github/lucas-clemente/quic-go/stream.go:298-303 | an RST is emitted, at writeOffset, exactly by the first reset of its kind on a stream whose end was not told before |
| Streams.BrokenRefuses | mpquic-go/src/github/lucas-clemente/quic-go/stream.go:386-438 | once cancelled or reset, a stream takes nothing over and sends no data, whatever follows |
| Streams.FinishedExactly | mpquic-go/src/github/lucas-clemente/quic-go/stream.go:440-450 | a stream is finished if and only if it was cancelled, or its FIN or RST is out and it was read to the end or reset remotely |
| Streams.Stream.BeginWrite | mpquic-go/src/github/lucas-clemente/quic-go/stream.go:209-252 | Write hands over the data when the stream is open, and does nothing otherwise |
| Streams.Stream.EndWrite | mpquic-go/src/github/lucas-clemente/quic-go/stream.go:226-257 | the count a Write returns is the number of its bytes that were taken for sending, also when the stream broke in between |
| Streams.Stream.FinishReading | mpquic-go/src/github/lucas-clemente/quic-go/stream.go:194-203 | reading to the end is the step ReadToEnd |
| Streams.Stream.GetDataForWriting | mpquic-go/src/github/lucas-clemente/quic-go/stream.go:269-288 | takes the first pending bytes, up to the limit, and advances writeOffset by as many |
| Streams.Stream.TakeFrame | mpquic-go/src/github/lucas-clemente/quic-go/stream_framer.go:190-213 | one visit is one step of the stream: the frame it emits, the FIN flag included |
| Streams.Stream.ShouldSendFin | mpquic-go/src/github/lucas-clemente/quic-go/stream.go:305-310 | the FIN test of a visit; when it comes true is stated over the events by VisitEmits and ClosedStreamsEnd |
| Streams.Stream.Cancel | mpquic-go/src/github/lucas-clemente/quic-go/stream.go:386-398 | cancelling is the step Cancelled |
| Streams.Stream.Reset | mpquic-go/src/github/lucas-clemente/quic-go/stream.go:400-419 | resetting is the step ResetLocally: an RST is sent unless one was sent or the FIN was |
| Streams.Stream.RegisterRemoteError | mpquic-go/src/github/lucas-clemente/quic-go/stream.go:421-438 | a remote reset is the step ResetRemotely |
| StreamReader.Reader.Read | mpquic-go/src/github/lucas-clemente/quic-go/stream.go:99-207 | the bytes copied into the buffer are the next bytes of the stream; the count and status say whether the buffer is full, data is missing or the stream has ended; EndOfStream is returned exactly when reading has finished, at the end of a frame with a FIN mark, and always when the head has the mark and its rest fits |
| StreamReader.Reader.CopyFrom | mpquic-go/src/github/lucas-clemente/quic-go/stream.go:174-186 | copies the rest of the head frame as far as it fits |
| StreamReader.Reader.PopHead | mpquic-go/src/github/lucas-clemente/quic-go/stream.go:194-203 | pops the head frame once it has been copied |
| StreamReader.Reader.FinishFrame | mpquic-go/src/github/lucas-clemente/quic-go/stream.go:194-203 | a frame that has been copied whole leaves the sorter, and its FIN mark ends the stream |
| FlowControl.FlowState.SendWindowSize | mpquic-go/src/github/lucas-clemente/quic-go/internal/flowcontrol/flow_control_manager.go:238-252 | never more than the window of the stream, nor than that of the connection for a stream that counts there |
| FlowControl.SendWindowExactly | mpquic-go/src/github/lucas-clemente/quic-go/internal/flowcontrol/flow_control_manager.go:238-252 | a stream may send exactly the bytes that fit its window and, if it counts there, that of the connection |
| FlowControl.WindowIsHighest | mpquic-go/src/github/lucas-clemente/quic-go/internal/flowcontrol/flow_controller.go:66-100 | whatever order updates arrive in, the window is the largest offset, or the negotiated one while there is none |
| FlowControl.SendKeepsOk | mpquic-go/src/github/lucas-clemente/quic-go/internal/flowcontrol/flow_control_manager.go:176-192 | sending no more than the send window keeps every count below the largest window advertised |
| FlowControl.StreamsKeepOk | mpquic-go/src/github/lucas-clemente/quic-go/internal/flowcontrol/flow_control_manager.go:43-59 | so do opening and removing streams |
| FlowControl.UpdateKeepsOk | mpquic-go/src/github/lucas-clemente/quic-go/internal/flowcontrol/flow_control_manager.go:263-279 | so do window updates, whatever they name |
| FlowControl.NegotiateKeepsOk | mpquic-go/src/github/lucas-clemente/quic-go/internal/flowcontrol/flow_controller.go:66-74 | so do changes of the negotiated windows, which every controller without an update reads anew |
| FlowControl.FlowControlManager.AddBytesSent | mpquic-go/src/github/lucas-clemente/quic-go/internal/flowcontrol/flow_control_manager.go:176-192 | bytes are counted for the stream and, if it contributes, for the connection |
| FlowControl.FlowControlManager.UpdateWindow | mpquic-go/src/github/lucas-clemente/quic-go/internal/flowcontrol/flow_control_manager.go:263-279 | a window update is taken over for the stream or the connection it names |
| FlowControl.FlowControlManager.NewStream | mpquic-go/src/github/lucas-clemente/quic-go/internal/flowcontrol/flow_control_manager.go:43-53 | a new stream starts with nothing sent and the window negotiated at that time; a known one is not touched |
| FlowControl.FlowControlManager.RemoveStream | mpquic-go/src/github/lucas-clemente/quic-go/internal/flowcontrol/flow_control_manager.go:55-59 | the controller of the stream goes, all others stay |
| FlowControl.FlowControlManager.Negotiate | mpquic-go/src/github/lucas-clemente/quic-go/internal/flowcontrol/flow_controller.go:66-74 | new parameters of the peer reach every controller that has had no update |
| FlowControl.WindowShrinksExactly | mpquic-go/src/github/lucas-clemente/quic-go/internal/flowcontrol/flow_controller.go:66-100 | a window update makes the window smaller exactly when it is the first one and lies between zero and the negotiated default |
| FlowControl.WindowGrowsAfterUpdate | mpquic-go/src/github/lucas-clemente/quic-go/internal/flowcontrol/flow_controller.go:94-100 | after the first update the window never shrinks |
| StreamFramer.SplitConserves | mpquic-go/src/github/lucas-clemente/quic-go/stream_framer.go:241-258 | splitting a frame keeps its bytes at their offsets and its FIN mark, in order |
| StreamFramer.Framer.MaybePopFramesForRetransmission | mpquic-go/src/github/lucas-clemente/quic-go/stream_framer.go:129-163 | whole frames leave the queue in order and only the last one may be split; headers and data fit maxLen |
| StreamFramer.PoppedConserves | mpquic-go/src/github/lucas-clemente/quic-go/stream_framer.go:129-163 | popped frames and the remaining queue hold exactly the (stream, offset, byte) content and FIN marks of the old queue, in order |
| StreamFramer.Framer.VisitStream | mpquic-go/src/github/lucas-clemente/quic-go/stream_framer.go:168-235 | a visit is one step of the stream with the limit of packet and windows; the frame sent is recorded, a used-up window is announced, and the round goes on unless the packet has no room |
| StreamFramer.Framer.Account | mpquic-go/src/github/lucas-clemente/quic-go/stream_framer.go:214-227 | bytes are counted and a BLOCKED frame is queued exactly when a window is used up |
| StreamFramer.Framer.MaybePopNormalFrames | mpquic-go/src/github/lucas-clemente/quic-go/stream_framer.go:165-238 | for any visiting order: new frames fit the packet, every count stays exact, and afterwards the packet has no room for some stream or every stream is drained, that is, has neither data its windows allow nor an end to tell |
| StreamFramer.VisitsExhaust | mpquic-go/src/github/lucas-clemente/quic-go/stream_framer.go:165-238 | a round of visits in any order ends with a full packet or with all streams drained |
| StreamFramer.VisitDrains | mpquic-go/src/github/lucas-clemente/quic-go/stream_framer.go:168-235 | a visit fills the packet or drains its stream, and stops the round only if the packet is full |
| StreamFramer.BlockedExactly | mpquic-go/src/github/lucas-clemente/quic-go/stream_framer.go:215-222 | a visit announces exactly the window it has used up: that of the connection, or else that of the stream |
| StreamFramer.IdleRound | mpquic-go/src/github/lucas-clemente/quic-go/stream_framer.go:165-238 | a round that sends nothing changes nothing |
| StreamFramer.LeastLengths | mpquic-go/src/github/lucas-clemente/quic-go/internal/wire/stream_frame.go:153-188 | ids and offsets take as few bytes as they can |
| StreamFramer.Framer.PopStreamFrames | mpquic-go/src/github/lucas-clemente/quic-go/stream_framer.go:36-39 | retransmissions come first and are conserved, new data follows, both together fit, and nothing is left that would have fitted: lost frames stay queued and streams undrained only for want of room |
| StreamFramer.Framer.PopCryptoStreamFrame | mpquic-go/src/github/lucas-clemente/quic-go/stream_framer.go:115-127 | a crypto frame carries all pending data or fills the packet |
| StreamFramer.Framer.AddFrameForRetransmission | mpquic-go/src/github/lucas-clemente/quic-go/stream_framer.go:32-34 | a lost frame goes to the end of the queue |
| StreamFramer.Framer.PopBlockedFrame | mpquic-go/src/github/lucas-clemente/quic-go/stream_framer.go:41-48 | BLOCKED frames leave in order |
| StreamFramer.VisitKeepsCounts | mpquic-go/src/github/lucas-clemente/quic-go/stream_framer.go:168-235 | a visit keeps the frames sent and the windows counted for the stream, for the connection and for every other stream |
| StreamFramer.Framer.OpenStream | mpquic-go/src/github/lucas-clemente/quic-go/session.go:917-925 | a stream is opened with its flow controller, and starts out counted |
| SendRuns.EveryRunIsOk | mpquic-go/src/github/lucas-clemente/quic-go/stream_framer.go:115-238 | in every sequence of openings, removals, writes, closings, resets, visits in any order, window updates and renegotiations: each stream has an exact log, its frames are those sent, and its controller counts its bytes |
| SendRuns.SendsWithinWindows | mpquic-go/src/github/lucas-clemente/quic-go/stream_framer.go:165-238 | in every such run: the first transmissions of a stream tile its written bytes from 0 and never pass the largest window advertised to it, and together those that count never pass the largest window of the connection |
| SendRuns.WindowsInForce | mpquic-go/src/github/lucas-clemente/quic-go/internal/flowcontrol/flow_controller.go:66-100 | in every such run a stream may send exactly what fits the largest update it has received, or the window negotiated last while there was none; and so for the connection |
| StreamFramer.LimitFor | mpquic-go/src/github/lucas-clemente/quic-go/stream_framer.go:174-188 | a visit takes at most what is left of the packet behind the frame header, and with data pending no more than the send window |
| PacketNumbers.NumbersIncrease | mpquic-go/src/github/lucas-clemente/quic-go/packet_number_generator.go:31-43 | until the counter wraps, later numbers are larger, so no number comes twice |
| PacketNumbers.SkipsOneAtMost | mpquic-go/src/github/lucas-clemente/quic-go/packet_number_generator.go:31-58 | one number at most is skipped, the marked one, and the next mark lies two numbers and the distance drawn ahead |
| PacketNumbers.SkipsAtMark | mpquic-go/src/github/lucas-clemente/quic-go/packet_number_generator.go:31-58 | over any number of packets, numbers are handed out one by one up to the mark, which is skipped |
| PacketNumbers.NewGeneratorNeverSkips | mpquic-go/src/github/lucas-clemente/quic-go/packet_number_generator.go:20-43 | a new generator never skips: the n-th packet has number n, whatever is drawn |
| PacketNumbers.Generator.Peek | mpquic-go/src/github/lucas-clemente/quic-go/packet_number_generator.go:27-29 | the number that Pop will hand out |
| PacketNumbers.Generator.Pop | mpquic-go/src/github/lucas-clemente/quic-go/packet_number_generator.go:31-43 | hands out next and moves on by one, or by two over a marked number |
| PacketNumbers.Generator.GenerateNewSkip | mpquic-go/src/github/lucas-clemente/quic-go/packet_number_generator.go:45-58 | the new mark lies at least two numbers ahead; a failing random source leaves it |
| PacketPacker.HeaderFits | mpquic-go/src/github/lucas-clemente/quic-go/internal/wire/public_header.go:274-311 | the written header has the length computed in advance, field by field for client and server and each encryption level |
| PacketPacker.WrappedLen | mpquic-go/src/github/lucas-clemente/quic-go/packet_packer.go:255-263 | dropping the 2-byte length of the last stream frame makes up for the two bytes by which the limit was raised |
| PacketPacker.Packer.TakeControlFrames | mpquic-go/src/github/lucas-clemente/quic-go/packet_packer.go:233-245 | control frames are taken from the end of the queue while they fit; the rest stays in order |
| PacketPacker.Packer.ComposeNextPacket | mpquic-go/src/github/lucas-clemente/quic-go/packet_packer.go:207-275 | for every queue of control frames, retransmissions and data: the payload is STOP_WAITING and ACK, the newest control frames that fit, and exactly the stream frames popped; it fits the limit, is refused exactly when STOP_WAITING and ACK alone do not fit, and nothing is popped when it is refused or may hold no stream data |
| PacketPacker.Packer.AddStreamFrames | mpquic-go/src/github/lucas-clemente/quic-go/packet_packer.go:255-272 | all stream frames popped are returned, they fit what is left of the payload once the last one has no length field, and used-up windows are queued as BLOCKED frames |
| PacketPacker.Packer.QueueControlFrame | mpquic-go/src/github/lucas-clemente/quic-go/packet_packer.go:277-286 | STOP_WAITING and ACK replace the ones of their path, other frames go to the queue |
| PacketPacker.Packer.WriteAndSealPacket | mpquic-go/src/github/lucas-clemente/quic-go/packet_packer.go:317-352 | a packet above the maximum is refused before its number is taken; otherwise the number is popped |
| PacketPacker.Packer.PackCryptoPacket | mpquic-go/src/github/lucas-clemente/quic-go/packet_packer.go:186-205 | a crypto packet carries all pending crypto data or is full, and always fits, by a margin |
| PacketPacker.Packer.PackPacket | mpquic-go/src/github/lucas-clemente/quic-go/packet_packer.go:127-184 | a packet never fails for its size or its number, is never larger than the maximum and never empty; its stream frames are exactly those popped; what was popped and what is left to send again make up what was to be sent again and what is new; where no packet is made, nothing was popped; where stream data may be sent, nothing is left that would fit |
| PacketPacker.NoPacketExactly | mpquic-go/src/github/lucas-clemente/quic-go/packet_packer.go:146-174 | no packet is made if and only if a PING is first on a path with a STOP_WAITING, or there is no ACK, no control frame that fits and no stream frame |
| PacketPacker.ControlKeptExactly | mpquic-go/src/github/lucas-clemente/quic-go/packet_packer.go:146-174 | control frames go out or stay queued, unless, and only unless, a PING is first on a path with a STOP_WAITING |
| PacketPacker.AckLostExactly | mpquic-go/src/github/lucas-clemente/quic-go/packet_packer.go:146-177 | an ACK that a packet clears is in it if and only if no PING is first |
| PacketPacker.PacketCarries | mpquic-go/src/github/lucas-clemente/quic-go/packet_packer.go:255-266 | the stream frames popped stand at the end of the packet, in order, only the last one without a length field |
| PacketPacker.NothingPopped | mpquic-go/src/github/lucas-clemente/quic-go/packet_packer.go:165-174 | where no packet is made, streams and frames to be sent again are as they were |
| PacketPacker.Packer.PackPackets | mpquic-go/src/github/lucas-clemente/quic-go/packet_packer.go:127-184 | over any sequence of calls, no packet fails for its size or number, each fits and is not empty, their numbers increase, and every byte and FIN mark taken for sending is in exactly one of them or still queued |
| Transport.StepKeepsInv | mpquic-go/src/github/lucas-clemente/quic-go/stream.go:99-207 | every step of writer, network and reader keeps the invariant that each frame anywhere is an exact slice of the written bytes |
| Transport.WireOverwritesNothing | mpquic-go/src/github/lucas-clemente/quic-go/stream_frame_sorter.go:33-39 | no frame that an honest sender ever puts on the wire overwrites data in the sorter, whenever it arrives |
| Transport.PopsHeldFrame | mpquic-go/src/github/lucas-clemente/quic-go/stream.go:119-204 | the frame popped after the lock was dropped and retaken is the one that was copied from |
| Transport.RunKeepsInv | mpquic-go/src/github/lucas-clemente/quic-go/stream.go:99-288 | the invariant holds in every reachable world |
| Transport.ReadIsSent | mpquic-go/src/github/lucas-clemente/quic-go/stream.go:99-288 | the reader is never ahead of what the sender has put into frames |
| Transport.DeliveredIsPrefixOfWritten | mpquic-go/src/github/lucas-clemente/quic-go/stream.go:99-288 | end-to-end safety: with losses, reordering, duplication and re-cut retransmissions, the bytes read are a prefix of the bytes written, and no longer than what was sent |
| Transport.ArrivedMeansReadable | mpquic-go/src/github/lucas-clemente/quic-go/stream.go:119-204 | in every run, once all written bytes have arrived and Head gives nothing more, all of them have been read |
| Transport.MarkMovesExactly | mpquic-go/src/github/lucas-clemente/quic-go/stream_frame_sorter.go:96-102 | a delivery puts a FIN mark in front of the end exactly when it takes in a FIN frame with data whose last byte was received before |
| Transport.EndMeansEverything | mpquic-go/src/github/lucas-clemente/quic-go/stream.go:194-207 | unless that happens, Read reports the end of the stream only after all written bytes |
| Transport.CutFrameKeepsFin | mpquic-go/src/github/lucas-clemente/quic-go/stream_frame_sorter.go:96-102 | a frame at the read position that loses its tail keeps its FIN |
| Transport.SendWhole | mpquic-go/src/github/lucas-clemente/quic-go/stream.go:209-288 | counterexample, step 1: data written and closed goes out as one frame with a FIN |
| Transport.SendAgain | mpquic-go/src/github/lucas-clemente/quic-go/stream_framer.go:129-163 | counterexample, step 2: declared lost with room for one byte, it is sent again in two parts, the second with the FIN |
| Transport.PushOutOfOrder | mpquic-go/src/github/lucas-clemente/quic-go/stream_frame_sorter.go:32-144 | counterexample, step 3: the second part arrives, then the original; the head has a FIN and lacks the tail |
| Transport.PrematureEnd | mpquic-go/src/github/lucas-clemente/quic-go/stream.go:99-207 | counterexample: Read reports the end of a stream of two or more bytes after exactly one byte |
| CaddyLexer.Lexer.constructor | mpquic-go/src/caddy/caddyfile/lexer.go:44-61 | a leading byte order mark is dropped |
| CaddyLexer.Lexer.Next | mpquic-go/src/caddy/caddyfile/lexer.go:73-150 | each call takes the first of the tokens that the scan of the remaining text gives, or finds that there is none; what the scan gives for any text is stated by the CaddyText lemmas |
| CaddyLexer.AllTokens | mpquic-go/src/caddy/caddyfile/parse.go:41-52 | the loop collects exactly the tokens of the text |
| CaddyText.MarkDropped | mpquic-go/src/caddy/caddyfile/lexer.go:44-61 | a byte order mark in front of a text is no part of it |
| CaddyText.CommentSkipsLine | mpquic-go/src/caddy/caddyfile/lexer.go:116-136 | for any text behind it, a comment reaches to the end of its line and no further |
| CaddyText.CommentInWord | mpquic-go/src/caddy/caddyfile/lexer.go:116-136 | a comment sign inside a word hides the rest of the word only; what follows the next blank is read again |
| CaddyText.CommentGoesOn | mpquic-go/src/caddy/caddyfile/lexer.go:116-136 | counterexample: such a comment does not skip the rest of its line |
| CaddyText.UnclosedQuote | mpquic-go/src/caddy/caddyfile/lexer.go:84-117 | a quoted string that is not closed takes the rest of the text; an empty one is no token |
| CaddyText.ReturnsIgnored | mpquic-go/src/caddy/caddyfile/lexer.go:116-119 | carriage returns outside quotes change no token |
| CaddyText.TokenLines | mpquic-go/src/caddy/caddyfile/lexer.go:116-145 | for any text, every token has the number of the line on which its first character stands, and the lexer starts afresh there |
| CaddyDispenser.Dispenser.Next | mpquic-go/src/caddy/caddyfile/dispenser.go:56-62 | moves to the next token, if there is one |
| CaddyDispenser.Dispenser.NextArg | mpquic-go/src/caddy/caddyfile/dispenser.go:68-83 | moves on exactly when the next token starts on the line of the same file on which this one ends, line breaks in quotes counted |
| CaddyDispenser.Dispenser.ConstructLine | mpquic-go/src/caddy/caddyfile/json.go:74-88 | the elements up to the end of the line, nested blocks included |
| CaddyDispenser.Dispenser.ConstructBlock | mpquic-go/src/caddy/caddyfile/json.go:93-104 | the lines up to the closing brace |
| CaddyText.LineKeepsTokens | mpquic-go/src/caddy/caddyfile/json.go:74-88 | whatever the tokens are, grouping a line keeps all of them in order, adds only closing braces that are missing at the end of the text, and stops where the line does |
| CaddyText.BlockKeepsTokens | mpquic-go/src/caddy/caddyfile/json.go:93-104 | the same for blocks |
| CaddyText.LineEndsWithFile | mpquic-go/src/caddy/caddyfile/dispenser.go:68-83 | where the file changes behind a token, its line ends |
| CaddyRoundTrip.TextComesBack | mpquic-go/src/caddy/caddyfile/json.go:139-144 | a safe string is read back as one token, whatever token separator follows |
| CaddyRoundTrip.TextComesBackExactly | mpquic-go/src/caddy/caddyfile/json.go:139-144 | a string on its own line is read back exactly when it is safe: quoted with every run of backslashes before a quote or at the end even, or unquoted, not empty and without comment sign and space characters |
| CaddyRoundTrip.LineLexes | mpquic-go/src/caddy/caddyfile/json.go:157-173 | a printed line gives the tokens of its elements, with their line numbers |
| CaddyRoundTrip.BlockLexes | mpquic-go/src/caddy/caddyfile/json.go:151-165 | the printed lines of a block and its brace give their tokens |
| CaddyRoundTrip.GroupArgs | mpquic-go/src/caddy/caddyfile/json.go:74-88 | the tokens of a line are grouped into that line |
| CaddyRoundTrip.GroupLines | mpquic-go/src/caddy/caddyfile/json.go:93-104 | the tokens of a block are grouped into that block |
| CaddyRoundTrip.BlockComesBack | mpquic-go/src/caddy/caddyfile/json.go:74-175 | round trip: a printed block of safe lines, at any depth and anywhere in a text, is lexed and regrouped to the same lines, and the rest of the text is untouched |
| CaddyExact.TokensLexed | mpquic-go/src/caddy/caddyfile/lexer.go:73-150 | whatever the text, a token has its backslashes paired or consists of plain characters |
| CaddyExact.CleanUnquoted | mpquic-go/src/caddy/caddyfile/lexer.go:73-150 | in printed text, even read out of step, no token is empty, and one without quoted characters is plain |
| CaddyExact.BlockInStep | mpquic-go/src/caddy/caddyfile/json.go:74-175 | a block that came back was read in step with its text, and its lines are safe |
| CaddyExact.BlockComesBackExactly | mpquic-go/src/caddy/caddyfile/json.go:74-175 | a printed block is lexed and regrouped to the same lines if and only if its lines are safe: strings as above, no line that starts with a closing brace, no argument that is an opening brace, and, where no spaces are printed, no element behind a nested block |
| CaddyExact.PrintAndRead | mpquic-go/src/caddy/caddyfile/json.go:74-175 | printing, lexing and regrouping with the code itself gives the block back if and only if its lines are safe |
| VHostTries.JoinSplit | mpquic-go/src/caddy/caddyhttp/httpserver/vhosttrie.go:110-113 | joining the labels of a host gives the host |
| VHostTries.SplitJoin | mpquic-go/src/caddy/caddyhttp/httpserver/vhosttrie.go:110-113 | a host joined from labels without dots is split into those labels |
| VHostTries.LabelsHaveNone | mpquic-go/src/caddy/caddyhttp/httpserver/vhosttrie.go:110-113 | no label has a dot |
| VHostTries.PatternStep | mpquic-go/src/caddy/caddyhttp/httpserver/vhosttrie.go:110-117 | the patterns of a host, label by label: the host itself, then a star in place of its first label in front of the patterns of the rest |
| VHostTries.PatternLast | mpquic-go/src/caddy/caddyhttp/httpserver/vhosttrie.go:110-117 | the patterns of a single label are the label and a star |
| VHostTries.WildcardServes | mpquic-go/src/caddy/caddyhttp/httpserver/vhosttrie.go:102-120 | a host that is not named itself is served by the wildcard for its first label |
| VHostTries.PathPart | mpquic-go/src/caddy/caddyhttp/httpserver/vhosttrie.go:142-161 | a path starts with a slash, and host part and path make up a key that has one |
| VHostTries.HostPart | mpquic-go/src/caddy/caddyhttp/httpserver/vhosttrie.go:142-161 | the key up to its first slash |
| VHostTries.MatchesOnce | mpquic-go/src/caddy/caddyhttp/httpserver/vhosttrie.go:78-98 | the reference lookup has one answer |
| VHostTries.NoBacktracking | mpquic-go/src/caddy/caddyhttp/httpserver/vhosttrie.go:78-98 | the first host pattern that is present decides: a site is found exactly when that host has one for a prefix of the path |
| VHostTries.LastInsertWins | mpquic-go/src/caddy/caddyhttp/httpserver/vhosttrie.go:45-66 | after any sequence of inserts the last one for a host and path counts |
| VHostTries.OnlyInserted | mpquic-go/src/caddy/caddyhttp/httpserver/vhosttrie.go:45-66 | nothing else is in the map |
| VHostTries.InsertRefines | mpquic-go/src/caddy/caddyhttp/httpserver/vhosttrie.go:45-66 | inserting into the trie is putting into the plain map |
| VHostTries.VHostTrie.InsertPath | mpquic-go/src/caddy/caddyhttp/httpserver/vhosttrie.go:55-66 | the nodes along the path are grown in place, and only the last one gets the site |
| VHostTries.VHostTrie.Insert | mpquic-go/src/caddy/caddyhttp/httpserver/vhosttrie.go:45-51 | the trie holds the plain map with the new entry |
| VHostTries.VHostTrie.MatchHost | mpquic-go/src/caddy/caddyhttp/httpserver/vhosttrie.go:102-120 | the subtree of the first pattern present: the host itself, then with more and more labels from the left replaced by wildcards |
| VHostTries.VHostTrie.MatchPath | mpquic-go/src/caddy/caddyhttp/httpserver/vhosttrie.go:124-139 | the node of the longest prefix that has a site |
| VHostTries.VHostTrie.Match | mpquic-go/src/caddy/caddyhttp/httpserver/vhosttrie.go:78-98 | Match answers as the plain map does |
| VHostTries.Route | mpquic-go/src/caddy/caddyhttp/httpserver/server.go:88-151 | for every group of sites and every request, the trie built from the group answers as the plain map of all its inserts |
| Policies.ProbesDiffer | mpquic-go/src/caddy/caddyhttp/proxy/policy.go:127-138 | with a power of two, no two rounds of the probing look at the same host, 32-bit wrap-around included |
| Policies.PowerOfTwoCovers | mpquic-go/src/caddy/caddyhttp/proxy/policy.go:127-138 | a pool whose size is a power of two is visited completely, each host once, for every hash |
| Policies.OthersMiss | mpquic-go/src/caddy/caddyhttp/proxy/policy.go:127-138 | for any other size, as long as the index does not wrap, some host is never visited |
| Policies.FindsExactly | mpquic-go/src/caddy/caddyhttp/proxy/policy.go:127-138 | for sizes at which the index does not wrap: a host is found whenever one is available exactly when the size is a power of two |
| Policies.HostByHashing | mpquic-go/src/caddy/caddyhttp/proxy/policy.go:127-138 | the first available host in probing order; for powers of two, none exactly when none is available |
| Policies.TurnsCoverExactly | mpquic-go/src/caddy/caddyhttp/proxy/policy.go:111-124 | n rounds from any counter visit the whole pool, each host once, exactly when the 32-bit counter does not wrap in the middle: it does not wrap, it wraps before the first round, or n divides its range |
| Policies.Skipped | mpquic-go/src/caddy/caddyhttp/proxy/policy.go:111-124 | otherwise one host is passed over |
| Policies.RoundRobin.Select | mpquic-go/src/caddy/caddyhttp/proxy/policy.go:111-124 | the first available host after the counter, which stops there; none exactly when none is available, unless the counter wraps in the middle |
| Policies.RoundRobin.SelectInTurn | mpquic-go/src/caddy/caddyhttp/proxy/policy.go:111-124 | with all hosts available, consecutive selections take the hosts in turn; as many as there are hosts take each once exactly when the counter does not wrap in the middle |
| Policies.LeastConn | mpquic-go/src/caddy/caddyhttp/proxy/policy.go:78-101 | an available host with the fewest connections, whatever is drawn; none exactly when none is available |
| FastCgi.Encode | mpquic-go/src/caddy/caddyhttp/fastcgi/fcgiclient.go:138-144 | a record is padded to a multiple of 8 bytes |
| FastCgi.Header | mpquic-go/src/caddy/caddyhttp/fastcgi/fcgiclient.go:126-144 | the eight header bytes: version 1, type, request id and length with their high bytes first, padding and zero |
| FastCgi.CutRecordFails | mpquic-go/src/caddy/caddyhttp/fastcgi/fcgiclient.go:151-173 | a record that is cut off anywhere is an error, of the kind that says where |
| FastCgi.VersionChecked | mpquic-go/src/caddy/caddyhttp/fastcgi/fcgiclient.go:154-157 | the version error is given exactly for another version |
| FastCgi.RecordComesBack | mpquic-go/src/caddy/caddyhttp/fastcgi/fcgiclient.go:138-173 | a record is read back as it was written, and reading stops behind its padding |
| FastCgi.EndComesBack | mpquic-go/src/caddy/caddyhttp/fastcgi/fcgiclient.go:158-161 | the record that ends a request reads as the end of the stream |
| FastCgi.ChunksAre | mpquic-go/src/caddy/caddyhttp/fastcgi/fcgiclient.go:323-337 | cutting a stream into records loses nothing; no record is empty or above the maximum, and all but the last are full |
| FastCgi.Client.WriteRecord | mpquic-go/src/caddy/caddyhttp/fastcgi/fcgiclient.go:222-238 | header, content and padding are appended to the connection |
| FastCgi.StreamWriter.Write | mpquic-go/src/caddy/caddyhttp/fastcgi/fcgiclient.go:323-337 | the loop writes exactly those records |
| FastCgi.StreamWriter.Close | mpquic-go/src/caddy/caddyhttp/fastcgi/fcgiclient.go:339-342 | an empty record closes the stream |
| FastCgi.StreamReader.Refill | mpquic-go/src/caddy/caddyhttp/fastcgi/fcgiclient.go:352-371 | records of standard error are diverted in order, up to the first other record or an error |
| FastCgi.StreamReader.Read | mpquic-go/src/caddy/caddyhttp/fastcgi/fcgiclient.go:349-381 | one call hands out buffered data, or that of the next data record, as much as fits |
| FastCgi.ReadKeeps | mpquic-go/src/caddy/caddyhttp/fastcgi/fcgiclient.go:349-381 | what was delivered, what is buffered and what is to come always make up the data of the stream |
| FastCgi.ReadMany | mpquic-go/src/caddy/caddyhttp/fastcgi/fcgiclient.go:349-381 | for every sequence of read sizes the bytes read are a prefix of the data; at the end they are all of it and standard error is complete; enough reads reach the end |
| FastCgi.StreamComesBack | mpquic-go/src/caddy/caddyhttp/fastcgi/fcgiclient.go:323-381 | data cut into records is a stream from which it is read back |
| FastCgi.Transfer | mpquic-go/src/caddy/caddyhttp/fastcgi/fcgiclient.go:323-381 | data written, closed and read with any sizes comes back as a prefix; at the end it is all of the data, and enough reads reach the end |
| FastCgi.SizeComesBack | mpquic-go/src/caddy/caddyhttp/fastcgi/fcgiclient.go:285-293 | sizes below 2^31 survive the one-byte and four-byte forms |
| FastCgi.PairsComeBack | mpquic-go/src/caddy/caddyhttp/fastcgi/fcgiclient.go:252-283 | the pairs of a record are decoded from that record alone |
| FastCgi.Shortened | mpquic-go/src/caddy/caddyhttp/fastcgi/fcgiclient.go:257-262 | a pair is kept if and only if name and value and eight bytes fit a record; otherwise it loses the end of its value, and what is sent fits |
| FastCgi.CutAlthoughItFits | mpquic-go/src/caddy/caddyhttp/fastcgi/fcgiclient.go:257-262 | a pair that would fit a record is cut if and only if its name or its value is at most 127 bytes long and both together have 65493 to 65495 bytes |
| FastCgi.CutExample | mpquic-go/src/caddy/caddyhttp/fastcgi/fcgiclient.go:257-262 | a one-byte name with a value of 65494 bytes fills a record exactly and loses three bytes |
| FastCgi.BufWriter.Write | mpquic-go/src/caddy/caddyhttp/fastcgi/fcgiclient.go:297-315 | buffered writes lose nothing and write nothing through while they fit; a large block on an empty buffer goes straight through |
| FastCgi.BufWriter.WriteString | mpquic-go/src/caddy/caddyhttp/fastcgi/fcgiclient.go:297-315 | the same for strings, which always fill the buffer first |
| FastCgi.WritePairs | mpquic-go/src/caddy/caddyhttp/fastcgi/fcgiclient.go:252-283 | the pairs go out in groups, one record each, all of them in order, then the closing record; a new record is begun only for a pair that does not fit |
| FastCgi.RecordHoldsGroup | mpquic-go/src/caddy/caddyhttp/fastcgi/fcgiclient.go:252-283 | no pair straddles two records |
| Schedulers.Scheduler.SelectPathRoundRobin | mpquic-go/src/github/lucas-clemente/quic-go/scheduler.go:122-174 | for every order of the walk: an eligible path with the lowest quota; none exactly when all eligible quotas are full; quotas keep their values |
| Schedulers.Scheduler.SelectPathLowLatency | mpquic-go/src/github/lucas-clemente/quic-go/scheduler.go:176-254 | for every order of the walk: the reinjection shortcut if it applies, otherwise the result of the walk |
| Schedulers.Scheduler.WalkLowLatency | mpquic-go/src/github/lucas-clemente/quic-go/scheduler.go:200-254 | none exactly when no path is eligible; else an eligible path with the least round-trip time among probed ones, or, if none is probed, with the least quota |
| Schedulers.Scheduler.PacketSent | mpquic-go/src/github/lucas-clemente/quic-go/scheduler.go:368-369 | the quota of the path grows by one, 64 bits wide |
| Schedulers.Scheduler.RoundRobinRound | mpquic-go/src/github/lucas-clemente/quic-go/scheduler.go:122-174 | selection and sending are one round of the fairness theorem; the quota does not wrap |
| Schedulers.RoundRobinFair | mpquic-go/src/github/lucas-clemente/quic-go/scheduler.go:122-174 | over every run in which p stays eligible, the quota of any path q is at most its start or one above that of p, however q changes |
| Schedulers.EqualShares | mpquic-go/src/github/lucas-clemente/quic-go/scheduler.go:122-174 | paths that stay eligible and start equal never differ by more than one packet |
| Schedulers.RoundsAddUp | mpquic-go/src/github/lucas-clemente/quic-go/scheduler.go:368-369 | a quota counts the packets sent on its path |
| RedundantSends.Redundancy.SendCopies | mpquic-go/src/github/lucas-clemente/quic-go/scheduler.go:574-604 | each copy is counted and mapped, in both directions if it may be dropped |
| RedundantSends.Redundancy.CrossAckHandling | mpquic-go/src/github/lucas-clemente/quic-go/scheduler.go:617-632 | an acknowledgement drops the counterpart and deletes both keys |
| RedundantSends.DuplicateKeeps | mpquic-go/src/github/lucas-clemente/quic-go/scheduler.go:574-604 | a copy with a new id keeps the accounting: each key stands for a duplicate not yet charged |
| RedundantSends.CrossAckKeeps | mpquic-go/src/github/lucas-clemente/quic-go/scheduler.go:617-632 | an acknowledgement charges one duplicate, and no key is left that stands for it |
| RedundantSends.CopyingIsDuplicateAll | mpquic-go/src/github/lucas-clemente/quic-go/scheduler.go:574-604 | the scheduler's round of copies is a sequence of steps of the run |
| RedundantSends.RunIsSound | mpquic-go/src/github/lucas-clemente/quic-go/scheduler.go:574-632 | the accounting holds in every run, because numbers are never reused |
| RedundantSends.DroppedNeverExceedsDuplicated | mpquic-go/src/github/lucas-clemente/quic-go/scheduler.go:574-632 | over every interleaving of sends, copies and acknowledgements on any number of paths, no more packets are dropped than were duplicated |
| RedundantSends.AckDropsCounterpart | mpquic-go/src/github/lucas-clemente/quic-go/scheduler.go:574-632 | in every run, the first acknowledgement of an original or of a dropable copy finds its counterpart, drops it if it is still there, and leaves no key of the two |
| RedundantSends.OthersDropNothing | mpquic-go/src/github/lucas-clemente/quic-go/scheduler.go:591-632 | a copy that is not dropable never drops anything |
| PathManagers.PathManager.constructor | mpquic-go/src/github/lucas-clemente/quic-go/path_manager.go:34-78 | first ids: 1 for the client, 2 for the server; path 0 exists; the remote address is in the list of its version only |
| PathManagers.PathManager.CreatePath | mpquic-go/src/github/lucas-clemente/quic-go/path_manager.go:132-161 | a path is created unless one with both addresses exists |
| PathManagers.PathManager.CreatePaths | mpquic-go/src/github/lucas-clemente/quic-go/path_manager.go:163-196 | paths are created in order until a ping fails; unless one fails or ids wrap, every pair of addresses of one IP version has a path afterwards |
| PathManagers.CreateUntilIs | mpquic-go/src/github/lucas-clemente/quic-go/path_manager.go:163-196 | what is created: everything if no ping fails, else the paths up to the new one whose ping failed |
| PathManagers.WantedOnly | mpquic-go/src/github/lucas-clemente/quic-go/path_manager.go:163-196 | only pairs of addresses of one IP version are wanted |
| PathManagers.CreatesOnlyWanted | mpquic-go/src/github/lucas-clemente/quic-go/path_manager.go:132-196 | nothing is created but what is wanted |
| PathManagers.PathManager.CreatePathFromRemote | mpquic-go/src/github/lucas-clemente/quic-go/path_manager.go:198-233 | a path of the peer is taken unless the id exists or has the wrong parity |
| PathManagers.PathManager.HandleAddAddressFrame | mpquic-go/src/github/lucas-clemente/quic-go/path_manager.go:235-248 | the address goes to the list of its version and the missing paths are created |
| PathManagers.OverwritesExactly | mpquic-go/src/github/lucas-clemente/quic-go/path_manager.go:34-42 | a new path overwrites another exactly when the endpoint has given out all its ids: 128 for the client, 127 for the server |
| PathManagers.CreateKeeps | mpquic-go/src/github/lucas-clemente/quic-go/path_manager.go:132-161 | creating keeps all paths, and those the endpoint created have distinct addresses |
| PathManagers.AcceptKeeps | mpquic-go/src/github/lucas-clemente/quic-go/path_manager.go:198-233 | a path of the peer never touches the endpoint's own ids |
| PathManagers.CreateAllCompletes | mpquic-go/src/github/lucas-clemente/quic-go/path_manager.go:163-196 | all wanted paths exist afterwards and none is lost |
| PathManagers.ArrivesKeepsOk | mpquic-go/src/github/lucas-clemente/quic-go/path_manager.go:198-233 | a packet from the peer on an unknown path is never refused |
| PathManagers.RunKeepsOk | mpquic-go/src/github/lucas-clemente/quic-go/path_manager.go:34-233 | in every interleaving of creations and arrivals at both ends, until ids wrap: parity tells who created a path, and paths an endpoint created have distinct addresses |
| PathManagers.RunKeepsPaths | mpquic-go/src/github/lucas-clemente/quic-go/path_manager.go:34-233 | in every such run no path is overwritten |

## Left out

- Write deadlines: a timed-out Write leaves its data pending, and the next one replaces it; runs are modelled without them.
- Reset errors that are nil: `Reset` and `RegisterRemoteError` are always given an error.
- Aliasing of frames: a frame is a value here, while the code splits and trims frames that others may still point to; `Transport` lets a lost frame come back as any part of a frame that was sent.
- The signals, locks and contexts of streams: each method, and each visit of the framer, is one atomic step; `Read` is cut where it drops the lock.
- StreamReader.Reader.Read: leaves out read deadlines and errors that arrive during a call; the wait for data is a status of the result.
- The receiving half of flow control and the growth of receive windows.
- Overflow of byte offsets and of packet counters: offsets stay below the largest byte count, and numbers below 2^64.
- FrameSorter.Sorter.Push: takes frames of one stream that end at the largest byte count at most; parsing refuses others.
- Streams.Stream.BeginWrite: models the start of a Write; the wait for the data to be taken is the step that ends it.
- PackAckPacket, PackPing, PackConnectionClose and PackHandshakeRetransmission, which pack fixed frames.
- Encryption, sealing and the encodings of frames other than the lengths they declare.
- PacketNumbers.SkipsOneAtMost: the distance to the next skipped number is a parameter; how it is scaled from the random number is not modelled.
- Congestion control, acknowledgement handling, round-trip time estimation: whether a path may send, its smoothed time and whether a packet could be removed are parameters.
- Policies.FindsExactly: for sizes above 92680 that are not powers of two the 32-bit index wraps within a selection, and nothing is claimed about them beyond the probing order.
- Policies.OthersMiss: the same; whether the wrapped index still reaches every host depends on the residues of 2^32 modulo the size, which no condition short of walking the sequence decides.
- Policies.LeastConn: states that a least host is chosen, not that each is chosen with the same probability.
- Policies.HostByHashing: needs a pool that is not empty, since the code divides by its size, and fewer than 2^32 hosts.
- FastCgi.WritePairs: needs names of at most 65492 bytes, since the code slices out of range otherwise; pairs come in the order of the map walk, which is a parameter.
- CaddyExact.BlockComesBackExactly: is about a block printed on its own. Numbers and booleans in JSON, keys of server blocks, imports, snippets and environment variables are not part of the model.
- CaddyDispenser.Dispenser.ConstructLine: called with a token loaded, as every caller does.
- VHostTries.VHostTrie.Match: lower-casing a host and stripping its port are a function given as a parameter.
- PathManagers.RunKeepsOk: addresses of a path do not change after its creation. Closing paths only changes flags that are not modelled.
- Schedulers.Scheduler.SelectPathRoundRobin: a session with one path has path 0, which the code uses without a check.
- Schedulers.Scheduler.SelectPathLowLatency: duplicating packets on unprobed paths and the choice among the scheduling algorithms are not modelled.
- Sessions, clients, servers, timers, sockets, logging and statistics.
- Caddy's plugins, middleware, TLS, health checks and the other policies, which are one-branch selections.
