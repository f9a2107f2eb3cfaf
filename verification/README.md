# Verification of Zimr

Zimr is a web server whose processes talk through multiplexed message streams. This project models its
intricate parts in Dafny and proves what they are for.

- **Messages over a shared stream** (`MsgCore`, `MsgFacts`, `Conversation`, `TwoSwitches`, `Runs`,
  `MsgSwitch`). Two switches carry many messages over one connection: packets with stop-and-wait
  acknowledgement, a window of two packets, translated ids, a send list and a two-way disconnect.
  `MsgCore` is the effect of each operation on its message; `Conversation` is one message seen from both
  ends with an inductive invariant; `TwoSwitches` interleaves all messages of both switches and projects
  every state onto its conversations; `Runs` draws the conclusions for every run. `MsgSwitch` is the
  switch as a class of mutable tables and queues, each operation of which makes exactly its step. `Steps` says
  where the records and frames after a step come from, `EmptyPackets` when a read returns nothing, `LateAcks`
  when an id is free of its past, `Turns` whose turn it is to send, and `Failures` follows the runs in which the
  code fails.
- **Frames** (`Framing`, `Wire`, `WireRuns`): reading frames from chunks of bytes, their layout, and the runs
  of two switches on bytes.
- **The list library** (`SimcList`, `SimcListSort`): doubly linked nodes with a middle pointer and spare
  nodes, and the sort.
- **MD5** (`Md5`, `Md5Bits`, `Md5Vector`): the streaming digest against RFC 1321, its functions bit by bit, and
  one digest of the RFC evaluated step by step.
- **Readiness** (`FdHash`, `ZSocket`): the ordered set of descriptors, and the buffered sockets with their
  counter of waiting events.
- **Text** (`Strings`, `Path`, `Params`, `Headers`): path normalisation, query strings and header blocks.

`dafny verify dfyconfig.toml` checks everything.

## What does not hold

Some promises hold only under a condition, which the model states exactly.

- A disconnect that finds a message on the send list while its flag PACKET_AVAIL_TO_READ is set empties the
  send queue and leaves the message on the list (`src/msg_switch.c:307-310`): `MsgFacts.DrainLeavesStaleEntry`
  gives the condition, and `Failures.StaleEntry` a run that then takes a packet from the empty queue.
- A flush after a disconnect queues what was half filled: `Runs.FlushAfterDisconnect` gives the condition, and
  `Failures.FlushedAstray` a run in which the peer then fails an assertion.
- Ids are given out again at once (`src/msg_switch.c:70-77`), while the last acknowledgement of the old message
  may still be on its way: `Runs.ReuseUnexpected` gives the condition, and `Failures.ReusedTooSoon` and
  `Failures.TakenTooSoon` runs that fail an assertion, for a message that is opened and for one that a packet
  creates. The acknowledgement may also come later (`Failures.ReusedUnderWay`), but not once none is due
  (`LateAcks.Silence`). `Runs.ReuseAfterRetire` is a condition under which reuse keeps every result.
- Runs keep to these three conditions, and to no more: they are what `TwoSwitches.Guarded` adds to what must be
  there for a step to happen at all. The methods of the class `MsgSwitch` do not assume them.
- A 0 from `msg_read`, which its callers take for the end (`src/zimrd/main.c:369-372`, `src/lib/zimr.c:504-507`),
  need not be the end: `EmptyPackets.ZeroRead` says when it is returned, `Failures.ZeroBeforeEnd` is a run, and
  `EmptyPackets.ZeroIsEnd` says what keeps it right. `zimr_connection_write` of 0 bytes (`src/lib/zimr.c:730-733`)
  makes the calls that break it.
- A message that its peer disconnected before it was accepted is freed by the accept, with all that it holds
  (`Runs.AcceptDrops`, `Failures.AcceptLoses`). Until then nothing of it is lost (`Runs.DisconnectedHasAll`).
- A chunk that ends inside a type word is misread (`Framing.ChunkingIrrelevant`).
- `list_delete_range` over a whole list follows a null pointer (`SimcList.List.DeleteRange`), and removing the
  last element breaks the library's own representation check (`SimcList.List.DeleteAt`).
- `zs_close` leaves a descriptor watched for reading when a read was still wanted (`ZSocket.Sockets.Close`,
  `ZSocket.WatchLeftBehind`). A failed write is reported as error 1, and the socket is never writable again
  (`ZSocket.FailedWriteReported`, `ZSocket.Sockets.Write`).
- A percent code that is cut off repeats what stands before it (`Params.DecodedMeans`), and the repeated
  characters overrun the buffers of `params_parse_qs` (`Params.NameOverruns`, `Params.ValueOverruns`), which
  otherwise suffice but for a `=` behind the query (`Params.BuffersSuffice`).
- `normalize_path` overruns its index stack when 100 components are stacked (`Path.NormalizePath`,
  `Path.TooDeep`), and `headers_set_header` its table when it is full (`Headers.Headers.Set`).
- A repeated slash behind names that were all taken back makes a relative path absolute, and a `..` takes back the
  slash of an absolute one (`Path.SlashSkipped`, `Path.UpFromNothing`).
- The comment in `list_concat` about the number of moves disagrees with its code; the model follows the code.

## Model

| member | source | states |
|---|---|---|
| `Runs.EndToEndFifo` | src/msg_switch.c:578-687 | In every state any run of two switches reaches, for every message and direction: what the reader was given is a prefix of what the writer handed in; while the reader's record is there and open, or not there yet, the bytes accepted are exactly those delivered, then those unread, then those in transit, then those still queued at the writer. |
| `Runs.OneTokenAndWindow` | src/msg_switch.c:180-252 | A sender that has not disconnected waits exactly while one packet is in transit, its acknowledgement is owed, or the acknowledgement is in transit, and there is never more than one of the three; no read queue ever holds more than two packets although the sender never sees it. |
| `Runs.NoAssertionFails` | src/msg_switch.c:274-333 | In every reachable state every step within the three conditions above finds what the code asserts (an acknowledgement is owed when one is sent, awaited when one arrives, an unknown packet has a negative id) and never takes from an empty queue. |
| `Runs.OneDisconnect` | src/msg_switch.c:292-333 | Each end disconnects at most once, no packet follows a disconnect, and an end that disconnects by itself has closed and has nothing left to send. |
| `Runs.EofMeansComplete` | src/msg_switch.c:649-651 | When `msg_read` has taken its end-of-file branch, every byte the peer wrote has been delivered. |
| `EmptyPackets.ZeroRead` | src/msg_switch.c:649-687 | In every reachable state, a read of an open message for at least one byte returns 0 if and only if the peer has disconnected and no packet is left, or packets are left and none has a byte to give. |
| `Failures.ZeroBeforeEnd` | src/msg_switch.c:604-608 | The run that shows the second case: nothing is written, flushed, and then a byte is written; the peer reads 0 from a message that both ends have open, and nothing has been delivered. |
| `EmptyPackets.ZeroIsEnd` | src/msg_switch.c:578-687 | In every run in which nobody writes nothing into a message that takes it and has no half filled packet, a read returns 0 if and only if the peer has disconnected and nothing is left, and then every byte the peer wrote has been delivered. |
| `Runs.DisconnectedHasAll` | src/msg_switch.c:297-311 | In every reachable state, what was written to an open message whose peer has disconnected is what it delivered and what it still holds. |
| `Runs.AcceptDrops` | src/msg_switch.c:499-503 | In every reachable state, accepting a disconnected message that was not accepted before can happen, frees it, and loses exactly what was unread: bytes are lost if and only if there were any. |
| `Failures.AcceptLoses` | src/msg_switch.c:499-503 | The run that shows it: a byte is written and the message closed; its reader, who never closes, accepts too late and gets nothing. |
| `Runs.StalledMeansPeerFull` | src/msg_switch.c:335-348 | No lost wake-up: if queued packets are not scheduled and nothing of the message is in transit, the peer is live and its window of two is full. |
| `Runs.EndpointConsistent` | src/msg_switch.c:47-54 | In every reachable state the send list holds exactly the writing messages, each once; the connection is watched for writing exactly when something is to be sent; the id map and the messages' imsgid fields are inverse; the flags mirror the queues. |
| `Runs.RunKeeps` | src/msg_switch.c:748-845 | The invariant of two switches holds after any finite interleaving of their steps, by induction over the run. |
| `Runs.FlushAfterDisconnect` | src/msg_switch.c:554-576 | A flush after the peer's disconnect keeps a message consistent if and only if no packet was half filled. |
| `Failures.FlushedAstray` | src/msg_switch.c:827-830 | The run that shows it: an answer is half written when the disconnect comes and is flushed after it; its packet reaches a peer that has forgotten the message, and the assertion on the sign of its id fails, whatever id is free there. |
| `Runs.AckAfterDisconnect` | src/msg_switch.c:543-549 | What a close sends when nothing waits to be sent: a disconnect unless the message had no traffic, and behind it an acknowledgement if and only if the window was full. |
| `Runs.LeftOver` | src/msg_switch.c:822-826 | In every reachable state, all that can still be on its way to a message that is gone is one acknowledgement. |
| `Runs.ReuseUnexpected` | src/msg_switch.c:70-77 | In every reachable state, giving out an id, to a message that is opened or to one that its first packet creates, meets an acknowledgement the new message did not ask for if and only if this switch gave out the id before, for a message it opened, and the late acknowledgement of that message is still on its way. |
| `LateAcks.Silence` | src/msg_switch.c:79-102 | When a message is gone, no packet of it is under way, none of its packets is unacknowledged at the peer and no acknowledgement is on its way, then in every run from there nothing is ever again on its way to it. |
| `Runs.ReuseAfterRetire` | src/msg_switch.c:79-102 | Once both ends of a message are gone and nothing of it is on its way, the run goes on, with all the results above, as one in which the id may be given out again. |
| `Failures.ReusedTooSoon` | src/msg_switch.c:318 | The run that shows a reuse failing: a message is closed with a full window, its peer closes too, id 1 is the least free and is given out again, and the acknowledgement trips the assertion that it was awaited. |
| `Failures.TakenTooSoon` | src/msg_switch.c:831-833 | The run that shows it for a received packet: the peer's packet makes a message that gets id 1, the least free, and the acknowledgement behind it, meant for the old message 1, trips the same assertion. |
| `Failures.ReusedUnderWay` | src/msg_switch.c:318 | The run that shows why a packet under way counts: nothing is on its way to the old message when its id is given out again, but its last packet is still to arrive, and is acknowledged later. |
| `TwoSwitches.StepKeeps` | src/msg_switch.c:748-845 | Every step of either switch (open, write, flush, read, accept, close, send a frame, receive a frame) within the three conditions above is safe and keeps the invariant of the whole system, whatever other messages are open; so does forgetting a conversation that is over. |
| `TwoSwitches.SendListExact` | src/msg_switch.c:716-726 | The number of entries of a message on the send list is one if it is writing and zero otherwise. |
| `Turns.RoundRobin` | src/msg_switch.c:716-780 | Round robin, in every run from a reachable state: a message that waits k places down the send list has had its turn once its switch has sent k + 1 packets: its next packet was put on the wire and it waits for the acknowledgement, or it is gone or disconnected. |
| `Turns.ComesForward` | src/msg_switch.c:716-726 | Until then it stays on the list, and every packet that its switch sends brings it forward by one place, whoever else comes to have something to send. |
| `Conversation.StepKeeps` | src/msg_switch.c:158-348 | For one message seen from both ends: the window, the order of disconnects, the start of the conversation and the byte stream are kept by every step of either end. |
| `Conversation.EnabledIsSafe` | src/msg_switch.c:274-348 | The two-ended invariant implies the assertions of the code and the non-emptiness of the queues it pops. |
| `Conversation.OpenedInv` | src/msg_switch.c:459-478 | A message that was just opened, and its peer that does not know it yet, satisfy the invariant. |
| `Conversation.WriteKeeps` | src/msg_switch.c:578-632 | Writing any number of bytes keeps the two-ended invariant: they are appended to the stream and nothing else moves. |
| `Conversation.ReadKeeps` | src/msg_switch.c:634-687 | Reading any number of bytes keeps the two-ended invariant, including the acknowledgement it may release and the end of file it may report. |
| `Conversation.CloseKeeps` | src/msg_switch.c:512-552 | Closing keeps the two-ended invariant: what was written is flushed before the disconnect. |
| `Conversation.SendKeeps` | src/msg_switch.c:180-205 | Taking a packet off the send queue keeps the two-ended invariant: one token more in transit, none lost. |
| `Conversation.RecvPackKeeps` | src/msg_switch.c:207-227 | Receiving a packet, also the first of an unknown message, keeps the two-ended invariant. |
| `Conversation.RecvOkKeeps` | src/msg_switch.c:316-333 | Receiving an acknowledgement, also one that comes after the own disconnect, keeps the two-ended invariant. |
| `Conversation.RecvDisconKeeps` | src/msg_switch.c:297-314 | Receiving a disconnect, as its sender or not, keeps the two-ended invariant. |
| `MsgFacts.WriteFacts` | src/msg_switch.c:578-632 | A write is refused with EBADMSG if and only if the message is closed, with EPIPE if and only if it is open and its peer has disconnected, with EAGAIN if and only if it is neither and two packets are queued, and then changes nothing; otherwise it appends exactly its bytes to what waits to be sent and keeps flags and queues consistent. |
| `MsgFacts.WriteFills` | src/msg_switch.c:616-630 | A write queues no packet that is not full: what it puts behind the packets already queued has 8180 bytes each. |
| `MsgFacts.ClosedRefuses` | src/msg_switch.c:480-687 | A closed message refuses write, read, flush and close with EBADMSG, and accept, and is left as it is. |
| `MsgFacts.DisconFrees` | src/msg_switch.c:499-541 | An open message whose peer has disconnected is freed without a word by a close, and by its first accept; an accept of one already accepted changes nothing. |
| `MsgFacts.ReadFacts` | src/msg_switch.c:634-687 | A read returns a prefix of the unread bytes of the requested length, or all of them, and leaves the rest unread. |
| `MsgFacts.CloseFacts` | src/msg_switch.c:512-552 | A close frees the message if and only if it never had any traffic; otherwise everything written stays to be sent, the disconnect goes out if and only if nothing is left to send, and an owed acknowledgement follows it. |
| `MsgFacts.DrainLeavesStaleEntry` | src/msg_switch.c:307-310 | The first disconnect a message receives leaves the send list correct if and only if the message was not writing or its flag PACKET_AVAIL_TO_READ was clear; otherwise the drained message stays listed with an empty queue. |
| `Failures.StaleEntry` | src/msg_switch.c:723-726 | The run that shows it: an answer waits on the send list when the disconnect comes, and the turn of the message finds its queue empty. |
| `MsgSwitch.MsgSwitch.Write` | src/msg_switch.c:578-632 | On the mutable tables, the loop over packets makes exactly the step proved safe in `TwoSwitches`; the result is EBADMSG, EPIPE, EAGAIN or the number of bytes, by the three guards of the source. |
| `MsgSwitch.MsgSwitch.Read` | src/msg_switch.c:634-687 | The same for the copying loop of a read, whose buffer is the bytes of that step. |
| `MsgSwitch.MsgSwitch.Flush` | src/msg_switch.c:554-576 | The same for a flush, also after a disconnect: EBADMSG for an unknown or closed message, 0 otherwise. |
| `MsgSwitch.MsgSwitch.Accept` | src/msg_switch.c:480-510 | The same for an accept: true exactly for a live, open, not yet connected message, which is connected then and otherwise as it was; a disconnected one is freed. |
| `MsgSwitch.MsgSwitch.Close` | src/msg_switch.c:512-552 | The same for a close, including the loop that drops unread packets and the two ways the message is freed: EBADMSG for an unknown or closed message, 0 otherwise. |
| `MsgSwitch.MsgSwitch.Open` | src/msg_switch.c:70-102 | The least free id, whether it was used before or not, is given to a fresh connected message. |
| `MsgSwitch.MsgSwitch.SwitchWrite` | src/msg_switch.c:748-780 | Responses go before packets, packets in the order of the send list, and the frame is the one the system step puts on the wire. |
| `MsgSwitch.MsgSwitch.Deliver` | src/msg_switch.c:819-844 | A decoded frame reaches its message, creates it on the least free id, or is dropped, exactly as in the system step; only a frame that creates needs a free id. |
| `Framing.ChunkingIrrelevant` | src/msg_switch.c:782-845 | For every frame sequence and every way its bytes are cut: reading chunk by chunk yields exactly the frames that are complete and the part of the next, whatever bytes lie behind a chunk in the buffer, if and only if no cut falls inside a type word. |
| `Framing.StreamDecodes` | src/msg_switch.c:796-844 | A whole encoded stream, in chunks that split no type word, is read back as exactly its frames, with nothing left over. |
| `Framing.FoursNeverSplit` | src/msg_switch.c:775 | Both frame sizes are multiples of four, so chunks of lengths divisible by four never split a type word. |
| `Framing.FrameReader.Read` | src/msg_switch.c:796-844 | The loop with its partial frame in `typ`, `data` and `cur` computes that reading, and reports where its assertion on the type fails. |
| `Wire.FrameBack` | src/msg_switch.h:76-90 | The layout of responses and packets in memory, 32-bit two's complement fields included, determines the frame. |
| `Wire.Layout` | src/msg_switch.h:68-90 | Types 1 and 2, statuses 1 and 2, bodies of 8 and 8192 bytes; the id at offset 0, in a response the status at 4, in a packet the size at 4, the type at 8 and the data at 12. |
| `Wire.WireIsFifo` | src/msg_switch.c:748-845 | The bytes one switch writes come out of the other's reader as the same frames in the same order. |
| `WireRuns.RunsOnBytes` | src/msg_switch.c:748-845 | In every run whose ids and types are 32-bit ints, every frame between the switches has that layout, so that its bytes, in chunks that split no type word, are read as exactly the frames in transit. |
| `SimcList.List.FindPos` | src/simclist.c:353-377 | The node at the requested index is returned whichever of the three anchors the walk starts from; -1 and the size give the sentinels, anything else none. |
| `SimcList.List.GetAt` | src/simclist.c:318-324 | A position in the list gives its element; the size itself passes for one and gives the data of the tail sentinel; anything beyond is refused. |
| `SimcList.List.InsertAt` | src/simclist.c:397-444 | Refines insertion into a sequence, keeps links inverse and `mid` at (n-1)/2, reuses the last spare node, and refuses while iterating or past the end. |
| `SimcList.List.DeleteAt` | src/simclist.c:446-462 | Refines removal from a sequence; the representation check holds afterwards if and only if the list is not empty, since removing the last element leaves `mid` at the head sentinel. |
| `SimcList.List.DropElem` | src/simclist.c:1272-1296 | The node is bridged over, `mid` ends where the middle of the shorter list is, and the node is kept as a spare while there are fewer than five. |
| `SimcList.List.ExtractAt` | src/simclist.c:379-395 | Returns the element at the index and removes exactly it. |
| `SimcList.RangeShiftLands` | src/simclist.c:475-488 | The unsigned and signed 32-bit arithmetic that moves `mid` lands on the middle of what is left whenever something is left; when the whole range goes it sends the pointer past the head sentinel, and further if and only if the list is shorter than 2 to the 31 less 1. |
| `SimcList.List.DeleteRange` | src/simclist.c:464-524 | Refused while iterating or out of range; follows a null pointer if and only if the range is the whole list (shorter than 2 to the 31 less 1); otherwise removes exactly the range, keeps every invariant and fills the spares from it up to five. |
| `SimcList.List.Clear` | src/simclist.c:526-566 | Empties the list, keeps the first nodes as spares up to five, and restores the representation. |
| `SimcList.ConcatShiftLands` | src/simclist.c:650-659 | The truncating division that corrects `mid` after concatenation lands on (n-1)/2 of the result for all lengths. |
| `SimcList.List.Concat` | src/simclist.c:612-663 | The result holds the elements of both lists in order in fresh nodes, also when both are the same list, and satisfies the representation check; it is refused when the result is one of the operands. |
| `SimcListSort.DirectedCompares` | src/simclist.c:754-756 | Multiplying a comparator by any direction gives a comparator again. |
| `SimcListSort.SelectionSort` | src/simclist.c:693-713 | The sublist becomes a sorted permutation of itself and nothing outside it changes. |
| `SimcListSort.Approach` | src/simclist.c:749-767 | When the two ends meet the pivot, no element on a finished side is out of place and the sublist is a permutation of itself. |
| `SimcListSort.PivotLeft` | src/simclist.c:769-783 | The pivot that moves left through rings of three ends with nothing greater before it and nothing less behind it. |
| `SimcListSort.PivotRight` | src/simclist.c:784-799 | The same when the right part is longer. |
| `SimcListSort.BothSorted` | src/simclist.c:832-833 | Sorting the two parts of a partition gives a sorted permutation of the whole. |
| `SimcListSort.QuickSort` | src/simclist.c:715-835 | Terminates for every random choice of pivots with a sorted permutation of the sublist, and nothing outside it changes. |
| `SimcListSort.Sort` | src/simclist.c:665-674 | For any total preorder and any direction the list ends in order with the same elements; only node data is written, so links and `mid` are what they were; it is refused while iterating or without a comparator. |
| `Md5.Process` | src/md5.c:131-310 | The 64 unrolled operations equal the indexed definition of RFC 1321, section 3.4, on the words of the block; `Md5Bits` and `Md5Vector` say what that definition computes. |
| `Md5Bits.Mixes` | src/md5.c:202-280 | On any set of bits, F has the bits of y where x has ones and those of z where it has zeros; G those of x and y by z; H those of x where y and z agree and their opposites where they differ; I those of y where x has zeros and z ones, and their opposites elsewhere. |
| `Md5Bits.Rotates` | src/md5.c:197 | For each shift of the four rounds, a rotation brings the high bits down and moves the others up. |
| `Md5Bits.InitBytes` | src/md5.c:314-320 | The registers start as the bytes 01 23 45 67 89 ab cd ef fe dc ba 98 76 54 32 10. |
| `Md5Vector.DigestOfAlphabet` | src/md5.c:65-381 | The digest of abcdefghijklmnopqrstuvwxyz is the one RFC 1321 gives in appendix A.5, evaluated in 64 steps; every constant, shift, word index and function has a part in it, and so have padding, length and the order of bytes. |
| `Md5.Schedule1` | src/md5.c:66-129 | The masked constants, word indices and shifts of the first round are those of the table; likewise for the other three rounds. |
| `Md5.CountedCounts` | src/md5.c:327-337 | Adding bytes keeps the two words equal to eight times the length modulo 2 to the 64, carry included. |
| `Md5.State.Append` | src/md5.c:322-358 | After any appended bytes the registers are the fold of the block function over the full blocks of all bytes so far, the buffer holds the rest, and the count is right. |
| `Md5.LengthByte` | src/md5.c:372-373 | Each byte saved from the two words is the byte of the 64-bit length, low-order first. |
| `Md5.State.Finish` | src/md5.c:360-381 | Exactly message, 0x80, zeros to 56 modulo 64 and the length are processed, no partial block is left, and the digest is that of RFC 1321, sections 3.1 to 3.5. |
| `Md5.DigestOf` | src/md5.c:322-381 | However a message is cut into pieces, appending the pieces gives the digest of the message. |
| `Md5.LoadStore` | src/md5.c:379-380 | Storing a register low-order byte first and assembling it again are inverse. |
| `FdHash.Membership` | src/fd_hash.c:29-31 | The test on next, previous and head is exactly membership. |
| `FdHash.Unlinked` | src/fd_hash.c:43-61 | Unlinking any member, at either end or inside, leaves the table threading the remaining members in their order. |
| `FdHash.Added` | src/fd_hash.c:33-40 | Appending a descriptor leaves the table threading the old members and then the new one. |
| `FdHash.Hash.Add` | src/fd_hash.c:29-41 | A descriptor is appended if it is absent; the order is otherwise unchanged. |
| `FdHash.Hash.Remove` | src/fd_hash.c:43-61 | A descriptor is removed in place if it is present; the order of the others is unchanged. |
| `FdHash.Hash.Next` | src/fd_hash.c:68-71 | The successor of a member in the order of insertion; none for a descriptor that was removed, so that a walk ends there. |
| `FdHash.Hash.Walk` | src/zfildes.c:112-122 | Following head and next visits every member once, in the order of insertion, and ends. |
| `ZSocket.Recount` | src/zsocket.c:289-297 | How a change of one socket's flags changes the number of waiting events. |
| `ZSocket.Sockets.Read` | src/zsocket.c:720-783 | EBADF, EAGAIN or the error of an earlier read by the guards of the source; otherwise the oldest buffered bytes, and only when they run out what one more read of the system gives: bytes, the end of the file or an error. End of file is reported only when nothing is left; counter, flags, watching and the byte stream of every socket are kept. |
| `ZSocket.Sockets.Write` | src/zsocket.c:785-824 | A writable socket has no write buffer, so the assertion holds; the bytes are taken whole; an earlier error is reported once, as error 1 whatever it was. A socket is dead when nothing it waits for can make it writable; a write makes its socket dead if and only if such an error is reported, and no call on any socket but closing it ends that, as their contracts say. |
| `ZSocket.Sockets.InternalWrite` | src/zsocket.c:376-408 | By the answer of the system alone: the bytes it took are gone from the buffer; after an error, a write of nothing or of everything the buffer is given up and the socket writable, otherwise it goes on waiting; the error is kept for the next write. Bytes written followed by bytes buffered stay equal to the bytes taken until bytes are given up; a socket closed meanwhile goes when the buffer does. |
| `ZSocket.Sockets.InternalRead` | src/zsocket.c:446-472 | By the answer of the system alone: the buffer holds the bytes read, the end of the file or the error is noted, and the socket is readable, or it goes on wanting to read. Bytes handed out followed by bytes buffered stay equal to the bytes received. |
| `ZSocket.FailedWriteReported` | src/zsocket.c:387-815 | For every open socket with bytes to go out: when the system refuses them with any error, the next write answers -1 with error 1 and takes nothing, and the one after it EAGAIN. |
| `ZSocket.FailedReadReported` | src/zsocket.c:457-737 | When the system refuses a read, every later read answers with its error and hands out nothing. |
| `ZSocket.Sockets.Watched` | src/zsocket.c:598-625 | A socket with bytes to go out is watched for writing; a connected one is watched for writing exactly when it has a write buffer or the program is interested and it is not writable; any socket is watched for reading exactly when it is not readable and the program is interested or a read was put off. |
| `ZSocket.Sockets.InternalAccept` | src/zsocket.c:475-511 | An accepted connection is watched, writable and waits at its listener; a failed accept only records its error. |
| `ZSocket.Sockets.Accept` | src/zsocket.c:685-718 | A readable listener has a connection to give, so the assertion holds, and gives it once. |
| `ZSocket.Sockets.Close` | src/zsocket.c:826-876 | A socket with unsent bytes lives on until they are sent; otherwise it goes, and stays watched for reading if and only if it still wanted to read. |
| `ZSocket.WatchLeftBehind` | src/zsocket.c:848-853 | The run that shows it: connect, declare interest, a read that would block, close; the descriptor is not in the table and is still watched. |
| `ZSocket.Sockets.SetRead` | src/zsocket.c:627-637 | Counter, list of active descriptors and watching stay exact when interest is declared. |
| `ZSocket.Sockets.ClrWrite` | src/zsocket.c:668-679 | The same when interest is withdrawn. |
| `ZSocket.Sockets.NeedSelect` | src/zsocket.c:878-880 | The counter is nonzero if and only if some active descriptor has an event to be delivered. |
| `Path.NormalizePath` | src/general.c:76-107 | Every write stays within the index stack if and only if fewer than 100 components are ever stacked; then buffer and index stack compute the path of the stack machine on slash-terminated components, of which the rows below say what it makes of every path. |
| `Path.UpCancels` | src/general.c:87-89 | For any beginning that is empty or ends in a slash and any name d other than . and ..: d/../ can be left out, whatever follows, and so can d/.. at the end. |
| `Path.UpFromNothing` | src/general.c:87-89 | Behind a beginning that comes to nothing ../ can be left out; the leading slash of an absolute path is taken back like a name. |
| `Path.HereSkipped` | src/general.c:85-86 | ./ can be left out anywhere, and so can . at the end. |
| `Path.SlashSkipped` | src/general.c:90-91 | A repeated slash can be left out, unless the beginning comes to nothing: then it makes the path absolute. |
| `Path.FixedPoints` | src/general.c:76-107 | A path is its own normal form if and only if none of its names is . or .. and none is empty but the first. |
| `Path.TooDeep` | src/general.c:98-101 | A hundred directories in a row are more than the index stack holds. |
| `Path.Idempotent` | src/general.c:76-107 | Normalising a normalised path changes nothing. |
| `Path.NeverLonger` | src/general.c:76-107 | The result is no longer than the path. |
| `Path.Clean` | src/general.c:85-91 | No component of the result is . or .., and none is empty but a leading slash. |
| `Path.NeverAbove` | src/connection.c:108-113 | The result never starts with ../, so the loop that strips it never runs. |
| `Params.ParseQs` | src/params.c:31-92 | On every query, whatever stands behind it: no write leaves its buffer if and only if no field overruns, and then the scan with two pointers reads the query as fields between &, name and value split at the first =, up to the first name that is too long or not ASCII. |
| `Params.BuffersSuffice` | src/params.c:53-75 | A query none of whose codes is cut off overruns a buffer if and only if it ends in a name without a value and a = stands behind it. |
| `Params.NameOverruns` | src/params.c:51-54 | A name of 126 letters and a percent sign passes the check of its length and overruns its buffer. |
| `Params.ValueOverruns` | src/params.c:73-75 | A value of letters and a percent sign overruns its buffer. |
| `Params.RoundTrip` | src/params.c:127-139 | Parsing a generated query gives back the same parameters in order and overruns nothing, for names and values free of the separators and of percent signs. |
| `Params.CodedRoundTrip` | src/params.c:31-92 | Names and values sent with any of their characters as percent codes, in capitals or not, come back as what the codes stand for, with the length each value had on the way; nothing is overrun if no code stands for more than three characters. |
| `Params.QueryMeans` | src/params.c:31-92 | A generated query is read field by field, name and value decoded, and then comes what follows it behind a &. |
| `Params.BadName` | src/params.c:53-64 | A name of 128 characters or more, or one that decodes to a character beyond 127, ends the query: nothing is read from it on. |
| `Params.NameAlone` | src/params.c:66-82 | A name without a = has the empty value. |
| `Params.GenQs` | src/params.c:127-139 | The generator concatenates the parameters with separators between them. |
| `Params.UrlDecode` | src/urldecoder.c:284-312 | The loop computes the decoding of the string up to its first zero, of which the rows below say what it is. |
| `Params.CodeMeans` | src/general.c:111-157 | A percent sign and two hexadecimal digits h and l, in either case, give entry 16 h + l of the table; if just the first is no digit entry l, and if the second is none entry 0. |
| `Params.DecodedPieces` | src/urldecoder.c:296-311 | A string put together from plain characters and codes decodes to the plain characters and the entries of the codes, in order. |
| `Params.PercentBack` | src/urldecoder.c:296-311 | Bytes written as percent codes, high digit first and in either case, are decoded to themselves where every entry of the table is the one byte it stands for. |
| `Params.ZeroEnds` | src/urldecoder.c:285-288 | Nothing behind a zero byte is decoded. |
| `Params.DecodedMeans` | src/urldecoder.c:296-309 | The decoder returns what is meant, a code that is cut off staying as it stands, if and only if nothing stands between the last whole code and one that is cut off; otherwise the result is longer by just those characters. |
| `Params.WantedFits` | src/urldecoder.c:296-309 | With codes of at most three bytes, the decoded string is longer than the undecoded by at most the characters that come twice, so by none when no code is cut off. |
| `Params.DecodedPlain` | src/urldecoder.c:296-311 | A string without percent signs is unchanged. |
| `Headers.CanonicalNames` | src/headers.c:25-34 | The canonical spelling is idempotent, and two names share it if and only if they differ in case only. |
| `Headers.Capitals` | src/headers.c:25-34 | In the canonical spelling a letter at the start or behind a dash is the capital, with the code 32 below the small letter, every other letter is small, and no other character changes. |
| `Headers.SameCanonical` | src/headers.c:25-34 | Two names have the same canonical spelling if and only if they differ in capitals only, letter by letter. |
| `Headers.CookieName` | src/headers.c:87 | The canonical spelling is Set-Cookie if and only if the name is set-cookie but for capitals. |
| `Headers.FormatName` | src/headers.c:25-34 | The loop over dashes, in place, makes the first letter and each letter behind a dash a capital, and changes nothing else; `Headers.Capitals` says it without the function for capitals. |
| `Headers.HeadersParse` | src/headers.c:36-66 | The loop reads line after line, at most 32; `Headers.LineMeans` and `Headers.Stops` say what a line is. |
| `Headers.LineMeans` | src/headers.c:42-62 | Any name up to a colon, any number of spaces, and any value up to a line end make a header with the canonical name, cut to 127 characters, and the value, cut to 2047; what follows the line end is read next. |
| `Headers.Stops` | src/headers.c:38-55 | Nothing is read at an empty line, a line feed or the end, nor from text without a colon, without a name before it or without a line end. |
| `Headers.HeadersToString` | src/headers.c:68-82 | The loop prints each header on a line of its own and an empty line behind them. |
| `Headers.RoundTrip` | src/headers.c:68-82 | Parsing printed headers gives back the same headers in order, as many as there is room for. |
| `Headers.Headers.Get` | src/headers.c:99-115 | The first header of the name in its canonical spelling, so lookup ignores case. |
| `Headers.Headers.Set` | src/headers.c:84-97 | Every write stays within the table of 32 and the two buffers if and only if the value fits and, where a header is added, the name fits and the table has room; then the lookup finds the value set, other headers are unchanged, and each cookie is added anew. |
| `Headers.SetCookies` | src/headers.c:84-97 | Two cookies set under any spellings of set-cookie leave two headers, both named Set-Cookie. |
| `Headers.SetAgain` | src/headers.c:84-97 | Any other header set again, in any spelling, replaces the value set before and adds no header. |

## Left out

- TwoSwitches.StepKeeps: assumes that a new message takes an id never used or one whose conversation was retired, that a disconnect does not find a message on the send list with PACKET_AVAIL_TO_READ set, and that nothing half filled is flushed after a disconnect, because the code fails otherwise. A conversation is retired when both ends are gone and nothing of it is on its way; a switch whose peer still keeps a disconnected record, or is still to receive the last disconnect, gives out the id sooner; of that the model says only that nothing more comes to the old message once no acknowledgement is due (`LateAcks.Silence`).
- MsgSwitch.MsgSwitch.Close: returns at once when it frees a message, where the source goes on to read the freed record.
- MsgSwitch.MsgSwitch.Open: assumes a free id below 1024, because the source does not check for its absence.
- MsgSwitch.MsgSwitch.SwitchWrite: removes the message from the send list after the packet was taken, where the source does so before; the result is the same, because taking the packet only appends to that list.
- SimcList.List.FindPos: compares exact ratios, where the source rounds to float; lists beyond float precision are not modelled.
- SimcList.List.DeleteRange: lists of 2 to the 31 elements and more are not modelled; neither is what happens after the null pointer.
- SimcListSort.Sort: multiplies without overflow; comparators and directions whose product exceeds 32 bits are not modelled.
- Md5.State.Append: the sum of the bytes buffered and appended stays below 2 to the 31, as the source's ints require; `nbytes << 3` on an int, which C leaves undefined from 2 to the 28 bytes on, is taken to keep the low 32 bits.
- Path.NormalizePath: nothing is said about the buffer once the index stack is overrun. The order of the increment and the read in `pathindcies[++i] = pathindcies[i-1] + ...`, which C leaves open, is taken to be from left to right.
- Params.ParseQs: nothing is said about the parameters once a buffer is overrun.
- ZSocket.Sockets.Listen: the search for a listener of the same address is replaced by its result, and a fresh descriptor must not be watched already.
- Records and queues of messages are values in tables of the switch: aliasing of `msg_t` pointers and memory management are not modelled.
- The `selectable` bit, its counter and `msg_switch_select`: the bit toggles and does not say whether a message is ready.
- I/O failure of a switch (`msg_switch_failed`, the `connected` flag) and `msg_switch_destroy`.
- A message closed on one side while the peer disconnects first is kept by the source until the switch goes; the model keeps it too and states nothing about it.
- Encrypted sockets, and the flags only they set.
- System calls, their timing and errno values beyond those returned: their results are parameters. Which handler is registered for a watched descriptor is not modelled.
- `list_locate` with a comparator, `list_seek`, iterators, copied element data, `list_hash`, dump and restore, and sorting with threads.
- `params_parse_multiparts`, `params_get_param`, `headers_header_range_parse` and header attributes: single searches.
- EmptyPackets.ZeroIsEnd: keeping to the condition is enough for a 0 to mean the end; a run that breaks it may still do without empty packets reads, when more is written before the packet goes.
- Headers.Headers.Set: nothing is said about the table once it is overrun.
- The table of percent codes and the C locale: the table is a parameter, letters are ASCII.
- Websites, connections, modules, cookies, daemons, configuration, logging and the Python bindings.
- Allocation failure.
