# Verified models of UniMRCP

UniMRCP is a stack for the Media Resource Control Protocol.  This project models its media timing code, its
message-passing protocols and its text codecs in Dafny, and proves what they promise for all inputs, all runs and all
interleavings.

| file | models |
|---|---|
| `FrameRing.dfy`, `JitterModel.dfy`, `JitterRing.dfy`, `JitterDelays.dfy`, `JitterIdeal.dfy`, `JitterStream.dfy`, `JitterEvents.dfy`, `JitterBuffer.dfy` | the adaptive jitter buffer: its steps, its ring as a map from frame index to frame, its delays, an ideal buffer it is equal to, streams, events, and the object |
| `ClientSession.dfy` | session termination: sub-requests, their replies, one response |
| `TaskTree.dfy` | offline and online requests through a tree of tasks |
| `Text.dfy`, `TextWriter.dfy` | lines, header fields and sections, read and written |
| `MessageAutomaton.dfy`, `MessageParser.dfy`, `MessageCodec.dfy`, `MessageGenerator.dfy` | the incremental message parser against a byte automaton, and the generator |
| `Multipart.dfy`, `Decimal.dfy` | multipart content and decimal lengths |
| `MediaContext.dfy` | the association matrix and the topology built from it |
| `TimerQueue.dfy` | one-shot timers |
| `RtpReceiver.dfy`, `RtpPorts.dfy` | sequence numbers and losses; port ranges and port search |
| `DtmfModel.dfy`, `DtmfOnAir.dfy`, `Dtmf.dfy` | out-of-band DTMF generator and detector |
| `CyclicQueue.dfy`, `MediaEngine.dfy`, `SessionMedia.dfy` | batched, queued media commands, and what a session sees of them |
| `ByteBuffer.dfy` | media chunks read in frames |
| `Recorder.dfy` | the recorder state machine |
| `Common.dfy` | machine words and counting arithmetic |

Objects that the source updates in place are classes.  Their methods are proved against step functions over values, and
what the source promises is proved about runs of these steps: runs and interleavings are sequences of events, and every
theorem about runs is about all of them.  Environment behaviour
(which requests are accepted, which ports can be bound, what callbacks do, in which order replies arrive) is passed in
as parameters.  `dafny verify dfyconfig.toml` checks everything.

Where a promise does not hold for all inputs, the code is modelled as it is, and the exact condition is a lemma:
the too-early test of the jitter buffer, its rounded initial delay, frames lost or read back after its restart, lost
fields of a header section, boundaries of multipart content, lengths of 20 digits, termination of malformed
sessions, timers missed by a rebase, deadlines beyond 32 bits, RTP loss with duplicates, port searches up to 65535 or
from outside their part, tones of one frame, repeated ends of long tones, queues of one place, recorder responses with
another method, and the size of a restarted byte buffer.  Header sections with continuation lines depend on where they
are cut; this is shown for a cut between a field and its one continuation line.

## Model

| member | source | states |
|---|---|---|
| `FrameRing.PutMirrors` | libs/mpf/src/mpf_jitter_buffer.c:157-161 | storing a frame in its slot inside the window updates what the ring shows for that frame index and for no other |
| `FrameRing.TakeMirrors` | libs/mpf/src/mpf_jitter_buffer.c:467-499 | clearing the slot of the read index and moving on keeps the ring equal to the map of frames last written |
| `FrameRing.PutAudioIsPutAt` | libs/mpf/src/mpf_jitter_buffer.c:333-343 | the placement loop over 32-bit timestamps equals the loop over unbounded frame indices while no timestamp wraps |
| `FrameRing.PutAudioMirrors` | libs/mpf/src/mpf_jitter_buffer.c:333-343 | all frames of a packet placed inside the window: the ring still shows, for every index of the window, what was last written for it |
| `FrameRing.TooEarlyTestIsSafeExactlyUpToCapacity` | libs/mpf/src/mpf_jitter_buffer.c:325-343 | over all ring contents, a write touches no unread frame of another index if and only if it starts at most frame_count frames ahead of the reader or brings no complete frame |
| `JitterModel.EffectiveExactly` | libs/mpf/src/mpf_jitter_buffer.c:87-103 | the delays a buffer works with: the initial one rounded up to whole frames; the maximal one as given, 600 ms if not given, or twice the initial one if it is below that |
| `JitterModel.InitialDelayBounded` | libs/mpf/src/mpf_jitter_buffer.c:87-115 | the initial playout delay respects the maximal one if and only if the delays that are given allow for rounding the initial one up to whole frames |
| `JitterModel.RoundingCanExceedMaximum` | libs/mpf/src/mpf_jitter_buffer.c:87-115 | an initial delay of 95 ms with a maximum of 96 ms breaks the bound |
| `JitterModel.HasFramesExactly` | libs/mpf/src/mpf_jitter_buffer.c:87-103 | there is a frame at all if and only if the given maximum is zero or at least one frame, or is replaced by twice an initial delay of at least half a frame |
| `JitterDelays.SetupModerate` | libs/mpf/src/mpf_jitter_buffer.c:76-133 | a buffer created with a maximal delay of at least one frame, which the rounded initial delay keeps and which is below 2^26 units, has as many frames as fit that delay, and at least one |
| `JitterModel.SyncPosition` | libs/mpf/src/mpf_jitter_buffer.c:198-210 | a synchronising packet is placed exactly the playout delay ahead of the reader, whatever its timestamp, and lengths are measured anew from the delay on |
| `JitterDelays.AdjustedLands` | libs/mpf/src/mpf_jitter_buffer.c:263-296 | widened by the spread of lengths and reduced by the corrected skew, the adjustment still brings a late packet to the reader |
| `JitterDelays.ExtendedLands` | libs/mpf/src/mpf_jitter_buffer.c:298-321 | the playout delay grows if and only if the buffer is adaptive and the maximum is kept, and the packet then lands less than the maximum ahead |
| `JitterDelays.MeasuredBounded` | libs/mpf/src/mpf_jitter_buffer.c:163-188 | in every run, a measurement keeps minimal and maximal length ordered and makes them enclose the current length, without overflow while they are used |
| `JitterDelays.LateLands` | libs/mpf/src/mpf_jitter_buffer.c:253-322 | an accepted late packet lands in [read_ts, read_ts + max_playout_delay_ts); without skew detection it is accepted if and only if the buffer is adaptive and has room, and lands at read_ts |
| `JitterDelays.LocateLands` | libs/mpf/src/mpf_jitter_buffer.c:222-322 | a packet on time keeps its position, only packets behind the reader can be refused, and accepted ones land in front of the reader |
| `JitterDelays.LateAdapts` | libs/mpf/src/mpf_jitter_buffer.c:263-321 | with skew detection, a late packet keeps the spread of lengths; if the buffer was never filled up to the delay, the statistics are moved to reach it up to a frame; otherwise the new delay is what the packet needs, or covers the spread up to a frame |
| `JitterDelays.PlaceEventLands` | libs/mpf/src/mpf_jitter_buffer.c:411-444 | a late event is accepted if and only if the buffer is adaptive and has room, and moves to the reader; the delay stays within its bounds |
| `JitterDelays.DelayInEveryRun` | libs/mpf/src/mpf_jitter_buffer.c:139-499 | in every run of fewer than 7 * 2^28 units, whatever packets, events, reads and restarts it consists of, initial <= playout delay <= maximal delay and minimal <= maximal length |
| `JitterDelays.LandsInEveryRun` | libs/mpf/src/mpf_jitter_buffer.c:139-499 | after every such run, a packet on time keeps its position and an accepted late one lands in [read_ts, read_ts + max_playout_delay_ts) |
| `JitterDelays.ReadMeasures` | libs/mpf/src/mpf_jitter_buffer.c:467-499 | in every such run, a read moves the reader by one frame and measures the length that is left |
| `JitterModel.SegmentLeavesNoTrace` | libs/mpf/src/mpf_jitter_buffer.c:356-463 | an update of an event that is not a start and not at the position of the last start is dropped: ring, write position and log stay |
| `JitterRing.AudioKeeps` | libs/mpf/src/mpf_jitter_buffer.c:222-354 | after every audio write within reach, the ring shows for every index of the window what was last written for it, unread frames lie before the write position, and frames already read stay right |
| `JitterRing.EventKeeps` | libs/mpf/src/mpf_jitter_buffer.c:356-465 | so it does after every event |
| `JitterRing.FetchDelivers` | libs/mpf/src/mpf_jitter_buffer.c:467-499 | a read delivers exactly what was last written for the read index, silence if nothing was |
| `JitterRing.RunDelivers` | libs/mpf/src/mpf_jitter_buffer.c:139-499 | in every run from a new buffer whose placements stay within reach and whose restarts leave nothing unread, up to 2^32 timestamp units, the k-th frame read is what the whole run has last written for index k |
| `JitterRing.RunShows` | libs/mpf/src/mpf_jitter_buffer.c:139-499 | in every run whose placements stay within reach, whatever restarts it contains, the k-th frame read is what the whole run has last written for index k if the write position was ahead at that read, and silence otherwise |
| `JitterRing.RestartLosesExactly` | libs/mpf/src/mpf_jitter_buffer.c:139-155 | the reads after a restart deliver silence, so they deliver what was last written for their indices if and only if nothing was |
| `JitterRing.UnreadFrameIsLost` | libs/mpf/src/mpf_jitter_buffer.c:139-155 | a packet that is not read before a restart is lost, at a concrete input |
| `JitterRing.RestartReadsBack` | libs/mpf/src/mpf_jitter_buffer.c:139-155 | slots are not cleared: if the write position is moved ahead again before the next read and nothing new is placed for its index, the read delivers the frame from before the restart |
| `JitterRing.OldFrameIsReadBack` | libs/mpf/src/mpf_jitter_buffer.c:139-155 | the same at a concrete input: the old frame is delivered after the restart |
| `JitterIdeal.PlaysIdeally` | libs/mpf/src/mpf_jitter_buffer.c:139-499 | every run of packets at most frame_count frames ahead, reads and restarts, in any order and with markers, duplicates and losses, plays the frames of an ideal buffer without words, ring or offsets, in which each packet is kept and played where its timestamp belongs; without skew detection this includes late packets, with it packets are on time |
| `JitterIdeal.ReportsIdeally` | libs/mpf/src/mpf_jitter_buffer.c:222-331 | and a packet is reported as stored, too late or too early as by the ideal buffer |
| `JitterStream.StreamIsPlayed` | libs/mpf/src/mpf_jitter_buffer.c:196-354 | packets of whole frames with consecutive timestamps, then reads: silence for the initial delay, then every frame of the concatenated payloads once and in order, then silence |
| `JitterEvents.EventIsRead` | libs/mpf/src/mpf_jitter_buffer.c:356-499 | in every run, an accepted event that nothing is placed over is read as that event: with the start marker if it has the RTP marker, has another id than the event before or has not the position of its start, otherwise with the end marker if it has the end bit, otherwise with the marker its frame had |
| `JitterEvents.EventIsPlayed` | libs/mpf/src/mpf_jitter_buffer.c:356-499 | an event and its updates, then reads: it starts where its timestamp belongs, each update that brings news is read where the one before it has ended, and the first with the end bit ends it |
| `JitterEvents.GapStartsExactly` | libs/mpf/src/mpf_jitter_buffer.c:365-385 | a later packet of the same event without marker starts it anew if and only if it lies more than four frames behind its end; otherwise it leaves no trace |
| `JitterEvents.StartIsFound` | libs/mpf/src/mpf_jitter_buffer.c:411-444 | after the start of an event was accepted, late or not, packets with its timestamp are its updates |
| `JitterEvents.RefusedExactly` | libs/mpf/src/mpf_jitter_buffer.c:411-444 | an event is reported as too early or too late exactly if it lies behind the window, or before the reader with no room for a longer delay |
| `JitterDelays.CalmRun` | libs/mpf/src/mpf_jitter_buffer.c:139-499 | a run in which packets on time are at most frame_count frames ahead and no restart leaves a frame unread stays within reach, and the writer stays at most the maximal delay and one frame ahead |
| `JitterDelays.PlayedFaithfully` | libs/mpf/src/mpf_jitter_buffer.c:139-499 | so every such run of fewer than 7 * 2^28 units delivers, for every k, what was last written for index k |
| `JitterBuffers.JitterBuffer.constructor` | libs/mpf/src/mpf_jitter_buffer.c:76-133 | a new buffer is the initial state of the delays that are given, with an empty ring of frame_count slots |
| `JitterBuffers.JitterBuffer.Read` | libs/mpf/src/mpf_jitter_buffer.c:467-499 | the object takes the read step of the model: frame, ring, position and statistics |
| `JitterBuffers.JitterBuffer.AlignToFrame` | libs/mpf/src/mpf_jitter_buffer.c:190-194 | a distance is rounded down to whole frames |
| `JitterBuffers.JitterBuffer.PlaceFrames` | libs/mpf/src/mpf_jitter_buffer.c:333-343 | the dissecting loop places the complete frames of the payload, in order and no more than available |
| `JitterBuffers.JitterBuffer.FramesAvailable` | libs/mpf/src/mpf_jitter_buffer.c:325 | the free frames as an unsigned difference, zero only at a distance of exactly frame_count |
| `JitterBuffers.JitterBuffer.Write` | libs/mpf/src/mpf_jitter_buffer.c:222-354 | the object takes the audio step of the model, in 32-bit arithmetic: offset, skew, delay, statistics, ring, write position and result |
| `JitterBuffers.JitterBuffer.StoreEvent` | libs/mpf/src/mpf_jitter_buffer.c:446-463 | an event goes into the slot of its position only, and the update pointer into the ring then designates it |
| `JitterBuffers.JitterBuffer.StoreFrames` | libs/mpf/src/mpf_jitter_buffer.c:333-352 | audio leaves the event that the update pointer designates |
| `JitterBuffers.JitterBuffer.EventWrite` | libs/mpf/src/mpf_jitter_buffer.c:356-465 | the object takes the event step of the model: classification, late placement, slot, update pointer and result |
| `JitterBuffers.Perform` | libs/mpf/src/mpf_jitter_buffer.c:139-499 | every operation of the object is one step of the model and keeps it faithful within reach |
| `JitterBuffers.Play` | libs/mpf/src/mpf_jitter_buffer.c:76-499 | for every configuration and every run, the object delivers the frames of the model run; those of the ideal buffer if packets are at most frame_count ahead, time does not wrap and, with skew detection, packets are on time; and if no restart leaves a frame unread, the k-th is what was last written for index k |
| `ClientSessions.EveryRunAnswersOnce` | libs/mrcp-client/src/mrcp_client_session.c:822-898 | for every interleaving of media, channel and signalling replies with disconnections and further requests: no response before the last reply and requests wait in order; then exactly one response, to the terminate request, with the session taken out of service and its control channels destroyed; it says failure if and only if the last reply is a control channel that could not be removed, and disconnected if the session was |
| `ClientSessions.SendsExactly` | libs/mrcp-client/src/mrcp_client_session.c:822-898 | a terminate request asks for the removal of every control channel, destroys the topology first, subtracts every termination once, terminates the signalling session, and counts exactly that |
| `ClientSessions.UnlistedAnswers` | libs/mrcp-client/src/mrcp_client_session.c:1218-1223 | a session that was never registered sends nothing and answers at once |
| `ClientSessions.ChannelPathAnswers` | libs/mrcp-client/src/mrcp_client_session.c:1023-1033 | if the last reply is that of a channel termination, the session stays in service and the first waiting request becomes active |
| `ClientSessions.AnswersOnceExactly` | libs/mrcp-client/src/mrcp_client_session.c:1006-1091 | all complete runs answer properly if and only if the terminations are distinct and there is an RTP termination exactly when there is a media context |
| `ClientSessions.IllFormedFails` | libs/mrcp-client/src/mrcp_client_session.c:419-467 | a complete run without a proper answer for every session that is not well-formed |
| `ClientSessions.StuckRun` | libs/mrcp-client/src/mrcp_client_session.c:83-92 | once a reply finds nobody waiting, the counter stays above the replies to come, so that the session is never answered |
| `ClientSessions.WithChannelShaped` | libs/mrcp-client/src/mrcp_client_session.c:680-810 | adding a channel with new terminations keeps channels, RTP slots and context in step |
| `ClientSessions.ShapedWellFormed` | libs/mrcp-client/src/mrcp_client_session.c:680-810 | sessions built by adding channels are well-formed, so their termination is answered once |
| `ClientSessions.ClientSession.Terminate` | libs/mrcp-client/src/mrcp_client_session.c:822-898 | the terminate request counts and flags exactly the commands, removals and the signalling request that it sends |
| `ClientSessions.ClientSession.RemoveChannels` | libs/mrcp-client/src/mrcp_client_session.c:842-870 | the loop over channels flags each accepted removal and each media termination and counts one sub-request for each |
| `ClientSessions.ClientSession.OnTerminationSubtract` | libs/mrcp-client/src/mrcp_client_session.c:1006-1035 | a subtract reply releases the first slot, else the first channel, that waits for it, and answers through the slot or the channel path only as the last reply |
| `ClientSessions.ClientSession.OnMediaReply` | libs/mrcp-client/src/mrcp_client_session.c:1037-1091 | a topology reply counts down and never answers while terminating |
| `ClientSessions.ClientSession.OnChannelRemove` | libs/mrcp-client/src/mrcp_client_session.c:326-342 | a removed channel counts once, and answers with its status if it is last |
| `ClientSessions.ClientSession.OnTerminateReply` | libs/mrcp-client/src/mrcp_client_session.c:205-213 | the signalling reply counts down and answers if it is last |
| `ClientSessions.ClientSession.RaiseResponse` | libs/mrcp-client/src/mrcp_client_session.c:441-467 | the active request is answered once, with the disconnected status if the session was disconnected, and a pending request is taken only if asked for |
| `ClientSessions.ClientSession.RaiseTerminateResponse` | libs/mrcp-client/src/mrcp_client_session.c:419-439 | all control channels are destroyed and the session is taken out before the response |
| `ClientSessions.ClientSession.OnDisconnect` | libs/mrcp-client/src/mrcp_client_session.c:215-234 | a disconnection is ignored while terminating |
| `ClientSessions.ClientSession.OnAppRequest` | libs/mrcp-client/src/mrcp_client_session.c:381-404 | requests are queued behind the active one |
| `ClientSessions.RunTermination` | libs/mrcp-client/src/mrcp_client_session.c:822-898 | the session object follows the specified run for every schedule and meets the answer-once guarantee, with the status of the last reply |
| `ClientSessions.ClientSession.SubtractSlots` | libs/mrcp-client/src/mrcp_client_session.c:872-893 | the loop over RTP slots flags and counts each termination it sends |
| `ClientSessions.ClientSession.SubrequestRemove` | libs/mrcp-client/src/mrcp_client_session.c:83-92 | counting down reports the last sub-request exactly when it was the only one |
| `ClientSessions.ClientSession.SlotOf` | libs/mrcp-client/src/mrcp_client_session.c:564-575 | the first slot that holds a termination |
| `ClientSessions.ClientSession.ChannelOf` | libs/mrcp-client/src/mrcp_client_session.c:577-590 | the first channel that holds a termination |
| `TaskTree.RunKeeps` | libs/apr-toolkit/src/apt_task.c:301-330 | every interleaving keeps each pending counter equal to the children that have not completed plus their completions in the mailbox, and completions in child-before-parent order |
| `TaskTree.EveryRunCompletes` | libs/apr-toolkit/src/apt_task.c:406-436 | one request to the root: fewer than two messages per reached task in every run, exactly 2n-1 when none is left, each reached task completed once and after all its descendants |
| `TaskTree.AllReached` | libs/apr-toolkit/src/apt_task.c:406-436 | if all tasks accept messages all are reached |
| `TaskTree.KidsAreTheOthers` | libs/apr-toolkit/src/apt_task.c:136-144 | every reached task but the root is the child of exactly one reached task |
| `TaskTree.QuietIsComplete` | libs/apr-toolkit/src/apt_task.c:500-524 | when no message is left, exactly the reached tasks have raised completion |
| `TaskTree.DescendantsFirst` | libs/apr-toolkit/src/apt_task.c:546-562 | a task raises completion after all its descendants |
| `TaskTree.Tasks.RequestProcess` | libs/apr-toolkit/src/apt_task.c:406-436 | a task sends the request to each child that accepts it, counts them, and completes at once if there is none |
| `TaskTree.Tasks.RequestComplete` | libs/apr-toolkit/src/apt_task.c:500-524 | a completion counts down and the last one completes the task |
| `TaskTree.Tasks.RaiseCompletion` | libs/apr-toolkit/src/apt_task.c:546-562 | a completed task tells its parent once |
| `TaskTree.Tasks.Handle` | libs/apr-toolkit/src/apt_task.c:301-330 | the task objects follow the specified run for every order of messages |
| `TaskTree.Tasks.SendRequests` | libs/apr-toolkit/src/apt_task.c:408-413 | one request to each accepting child, and one count for each |
| `Text.LineLengthUnique` | libs/apr-toolkit/src/apt_text_stream.c:29-67 | the length of a line is determined by where its first end of line is |
| `Text.FieldLine` | libs/apr-toolkit/src/apt_text_stream.c:81-146 | a line made of white space, name, colon, white space and value is read as that name and value |
| `Text.ScannedLine` | libs/apr-toolkit/src/apt_text_stream.c:81-146 | the positions found by the single pass over a header line are those of its name and value |
| `Text.LineIsRead` | libs/apr-toolkit/src/apt_text_stream.c:29-67 | a line ended by CR LF, a lone CR or a lone LF is read as that line, and nothing after it is touched |
| `Text.FoldsAreRead` | libs/apr-toolkit/src/apt_text_message.c:65-115 | all continuation lines are appended, each without its white space, and nothing after them is touched |
| `Text.FieldIsUnfolded` | libs/apr-toolkit/src/apt_text_message.c:52-152 | a field of a header section is read with everything its continuation lines add |
| `Text.TextReader.LineRead` | libs/apr-toolkit/src/apt_text_stream.c:29-67 | a line is returned without its end; CR, LF and CR LF each end one; an unfinished line is left in the stream |
| `Text.TextReader.HeaderRead` | libs/apr-toolkit/src/apt_text_stream.c:81-146 | a header line is read as blank, malformed or a field, and consumed in every case |
| `Text.TextReader.Unfold` | libs/apr-toolkit/src/apt_text_message.c:65-115 | continuation lines are appended to the value without their leading white space |
| `Text.TextReader.FieldParse` | libs/apr-toolkit/src/apt_text_message.c:52-118 | a field is read with its continuation lines |
| `Text.TextReader.SectionParse` | libs/apr-toolkit/src/apt_text_message.c:127-152 | a header section is read up to its empty line; malformed lines are skipped |
| `Text.TextReader.WhiteSpacesSkip` | libs/apr-toolkit/include/apt_text_stream.h:184-188 | exactly the leading white space is skipped |
| `Text.TextReader.CharsSkip` | libs/apr-toolkit/include/apt_text_stream.h:197-200 | exactly the leading occurrences of a character are skipped |
| `Text.TextReader.SkipToChar` | libs/apr-toolkit/include/apt_text_stream.h:203-206 | exactly the characters before the first occurrence are skipped |
| `Text.TextReader.ScanHeader` | libs/apr-toolkit/src/apt_text_stream.c:83-129 | one pass finds the end of the line and the positions of name, colon and value |
| `Text.TextReader.FinishLine` | libs/apr-toolkit/src/apt_text_stream.c:37-60 | CR LF, a lone CR and a lone LF are each skipped as one end of line |
| `Text.TextReader.UnfoldLine` | libs/apr-toolkit/src/apt_text_message.c:67-84 | one continuation line without its leading white space; an unfinished one adds nothing |
| `Text.TextReader.CharSkip` | libs/apr-toolkit/include/apt_text_stream.h:191-194 | one character is skipped if it is there |
| `TextWriters.TextWriter.StringInsert` | libs/apr-toolkit/src/apt_text_stream.c:452-462 | a string is written completely or not at all, and one character always stays free |
| `TextWriters.TextWriter.EolInsert` | libs/apr-toolkit/include/apt_text_stream.h:138-146 | an end of line is written completely or not at all |
| `TextWriters.TextWriter.NameValueInsert` | libs/apr-toolkit/src/apt_text_stream.c:226-242 | a field reports success exactly when it fits with its end of line |
| `TextWriters.TextWriter.HeaderNameInsert` | libs/apr-toolkit/src/apt_text_stream.c:245-257 | a name and its separator are written completely or not at all |
| `TextWriters.TextWriter.SectionGenerate` | libs/apr-toolkit/src/apt_text_message.c:155-165 | success and a complete section together happen if and only if the section fits |
| `TextWriters.SectionCanLoseFields` | libs/apr-toolkit/src/apt_text_message.c:155-165 | a section can be reported as written although a field is missing |
| `MessageAutomaton.RunConcat` | libs/apr-toolkit/src/apt_text_message.c:254-341 | the reference parser, a byte automaton, does not depend on where its input is cut |
| `MessageAutomaton.RunSection` | libs/apr-toolkit/src/apt_text_message.c:127-152 | reading header lines at once takes the automaton where reading them byte by byte does |
| `MessageAutomaton.RunBody` | libs/apr-toolkit/src/apt_text_message.c:167-193 | reading a body at once takes the automaton where reading it byte by byte does |
| `MessageAutomaton.SectionIsLines` | libs/apr-toolkit/src/apt_text_message.c:65-152 | without lines that start with white space, reading fields and reading raw lines is the same |
| `MessageParsers.MessageParser.SkipPendingLf` | libs/apr-toolkit/src/apt_text_message.c:258-262 | the LF of a CR LF that was cut is skipped once |
| `MessageParsers.MessageParser.CollectFields` | libs/apr-toolkit/src/apt_text_message.c:282-295 | the header fields of a fragment are those of the raw lines the automaton collects |
| `MessageParsers.MessageParser.ReadStart` | libs/apr-toolkit/src/apt_text_message.c:269-280 | a start line is read as the automaton reads it |
| `MessageParsers.MessageParser.ReadHeader` | libs/apr-toolkit/src/apt_text_message.c:282-295 | header fields are collected as the automaton collects lines |
| `MessageParsers.MessageParser.FinishHeader` | libs/apr-toolkit/src/apt_text_message.c:297-319 | an empty line completes the message, or starts its body if the header announces one |
| `MessageParsers.MessageParser.ReadBody` | libs/apr-toolkit/src/apt_text_message.c:167-193 | the body is read as far as available and completed at its announced length |
| `MessageParsers.MessageParser.ParseNext` | libs/apr-toolkit/src/apt_text_message.c:254-341 | one call of the parser moves along the automaton and delivers a message exactly when the automaton completes one; only input that the automaton rejects is invalid, and a rejected start line is unless the stream ends with it |
| `MessageParsers.Receiver.Feed` | libs/mrcpv2-transport/src/mrcp_client_connection.c:598-653 | a fragment, put behind the unread remainder, takes the receiver exactly where the automaton goes |
| `MessageCodec.FeedAll` | libs/apr-toolkit/src/apt_text_message.c:254-341 | any cut of a text into non-empty fragments leads to the same state and the same messages |
| `MessageCodec.RunMessage` | libs/apr-toolkit/src/apt_text_message.c:385-439 | a generated message is parsed back to that message |
| `MessageCodec.WrittenExample` | libs/apr-toolkit/src/apt_text_message.c:155-165 | the text of a message with one field and a body, character by character |
| `MessageCodec.Transmit` | libs/apr-toolkit/src/apt_text_message.c:385-439 | generated messages, sent one after the other and received in arbitrary pieces, are delivered unchanged and in order |
| `MessageCodec.ContinuationDependsOnCut` | libs/apr-toolkit/src/apt_text_message.c:65-86 | for every field and every continuation line the cut between them changes the result: the continuation is lost, or becomes a field of its own if it has a colon |
| `MessageCodec.CollectCut` | libs/apr-toolkit/src/apt_text_message.c:282-295 | the parser, fed with the whole section or with its two pieces, collects these different headers |
| `MessageGenerators.MessageGenerator.WriteHead` | libs/apr-toolkit/src/apt_text_message.c:398-411 | start line and header are complete if and only if they fit, although success may be reported with fields missing |
| `MessageGenerators.MessageGenerator.WriteBody` | libs/apr-toolkit/src/apt_text_message.c:195-224 | as much of the body as there is room for is copied, and the rest is left for the next stream |
| `MessageGenerators.MessageGenerator.Run` | libs/apr-toolkit/src/apt_text_message.c:385-439 | one stream holds the head and a part of the body, or the next part of the body, and reports whether the message is complete; a stream without room is reported as incomplete and changes nothing |
| `MessageGenerators.CompleteIffHead` | libs/apr-toolkit/src/apt_text_message.c:385-439 | the whole message is sent if and only if the first stream holds its complete head |
| `MessageGenerators.Send` | libs/mrcpv2-transport/src/mrcp_client_connection.c:508-559 | the loop over streams sends the message completely if and only if its head fits into one stream, however long the body is |
| `MessageGenerators.Exchange` | libs/mrcpv2-transport/src/mrcp_client_connection.c:508-653 | messages whose heads fit are generated, sent in streams, parsed and delivered unchanged and in order |
| `Decimal.AtoiDec` | libs/apr-toolkit/src/apt_text_stream.c:388-410 | a number written in decimal is read back |
| `Decimal.SelfLengthIsLeast` | libs/apr-toolkit/src/apt_text_stream.c:465-499 | the digit rule gives the least number that counts its own digits |
| `Decimal.SelfLengthGenerate` | libs/apr-toolkit/src/apt_text_stream.c:465-499 | the two counting loops compute that number for all words of less than 20 digits and for no others, since 10^20 overflows; its digits are written if and only if they are at most max_count |
| `Multipart.MultipartWriter.Initialize` | libs/apr-toolkit/src/apt_multipart_content.c:68-83 | a delimiter is written completely if and only if it fits |
| `Multipart.MultipartWriter.LengthInsert` | libs/apr-toolkit/src/apt_multipart_content.c:130-142 | the length field is written completely if and only if it fits, although a number alone may be cut |
| `Multipart.MultipartWriter.Add` | libs/apr-toolkit/src/apt_multipart_content.c:107-156 | a part is written completely if and only if it fits |
| `Multipart.MultipartWriter.Finalize` | libs/apr-toolkit/src/apt_multipart_content.c:159-185 | the final delimiter is written completely if and only if it fits |
| `Multipart.MultipartReader.MatchBoundary` | libs/apr-toolkit/src/apt_multipart_content.c:249-272 | a delimiter line is compared without trailing spaces and final hyphens and without regard to case, or teaches the boundary |
| `Multipart.MultipartReader.Recognise` | libs/apr-toolkit/src/apt_multipart_content.c:284-296 | the last field whose name begins a known header name gives its value |
| `Multipart.MultipartReader.Get` | libs/apr-toolkit/src/apt_multipart_content.c:220-310 | the next part, the final marker, or failure, as a function of the text not read yet |
| `Multipart.MultipartWriter.FieldInsert` | libs/apr-toolkit/src/apt_multipart_content.c:114-128 | a header field is written completely if and only if it fits, and nothing if it is not given |
| `Multipart.MultipartReader.ReadDelimiter` | libs/apr-toolkit/src/apt_multipart_content.c:232-247 | preamble and hyphens are skipped and the delimiter line is read, or there is none |
| `Multipart.MultipartReader.TrimTrailing` | libs/apr-toolkit/src/apt_multipart_content.c:249-250 | exactly the trailing spaces are removed |
| `Multipart.MultipartReader.GetHeaderAndBody` | libs/apr-toolkit/src/apt_multipart_content.c:279-309 | header and body of a part as a function of the text after its delimiter |
| `Multipart.MultipartReader.ReadBody` | libs/apr-toolkit/src/apt_multipart_content.c:298-307 | the announced number of characters, or failure if there are fewer |
| `Multipart.WriteParts` | libs/apr-toolkit/src/apt_multipart_content.c:107-185 | the parts and the final delimiter are written if and only if they fit |
| `Multipart.ReadParts` | libs/apr-toolkit/src/apt_multipart_content.c:220-310 | the reader, called until the final delimiter or a failure, returns the parts of the text |
| `Multipart.SectionRoundTrip` | libs/apr-toolkit/src/apt_text_message.c:127-165 | a generated header section is read back, and nothing after it |
| `Multipart.DelimiterSeen` | libs/apr-toolkit/src/apt_multipart_content.c:232-277 | what the reader makes of a written delimiter: its leading hyphens are lost, and the rest is compared or learnt |
| `Multipart.FindsExactly` | libs/apr-toolkit/src/apt_multipart_content.c:107-310 | with a known boundary, all parts written are read back if and only if the boundary has no line end, does not start with a hyphen and, when there are parts, does not end with a space or two hyphens |
| `Multipart.LearnsExactly` | libs/apr-toolkit/src/apt_multipart_content.c:107-310 | with a boundary that has to be learnt, the exact condition |
| `Multipart.CaseDoesNotMatter` | libs/apr-toolkit/src/apt_multipart_content.c:258-272 | the boundary that is looked for may be written in any case |
| `Multipart.RecognisesLast` | libs/apr-toolkit/src/apt_multipart_content.c:284-296 | a header name is recognised if it begins a known one, and the last such field counts |
| `Multipart.WrittenExample` | libs/apr-toolkit/src/apt_multipart_content.c:107-185 | the text of an empty part and the final delimiter, character by character |
| `Multipart.GetRoundTrip` | libs/apr-toolkit/src/apt_multipart_content.c:220-310 | reading a written part returns type, id, length and body as given and leaves what follows, whatever the body contains |
| `Multipart.RoundTrip` | libs/apr-toolkit/src/apt_multipart_content.c:107-310 | all parts are written if and only if they fit, and reading then returns exactly these parts in order and the final marker if and only if the boundary can be found or learnt |
| `MediaContexts.MediaContext.Add` | libs/mpf/src/mpf_context.c:170-193 | a termination takes the first free slot; it fails if and only if there is none |
| `MediaContexts.MediaContext.Subtract` | libs/mpf/src/mpf_context.c:195-240 | exactly the row and the column of the slot are switched off, the counts of all others follow, and the slot is free |
| `MediaContexts.MediaContext.AssociationAdd` | libs/mpf/src/mpf_context.c:242-282 | exactly the directions are switched on in which the source can be received from and the sink sent to; in every context only such directions are on |
| `MediaContexts.MediaContext.AssociationRemove` | libs/mpf/src/mpf_context.c:284-320 | exactly the two entries are switched off |
| `MediaContexts.MediaContext.AssociationsReset` | libs/mpf/src/mpf_context.c:322-366 | every entry is off and every count zero, although rows without associations are skipped and only half of the pairs are visited |
| `MediaContexts.LinkedCounted` | libs/mpf/src/mpf_context.c:242-282 | switching an entry on keeps every count equal to the on-entries of its row and column, with no byte overflow up to 255 slots |
| `MediaContexts.UnlinkedCounted` | libs/mpf/src/mpf_context.c:284-320 | switching an entry off does too |
| `MediaContexts.ArraysFilled` | libs/mpf/src/mpf_context.c:479-535 | the arrays of sinks and sources are filled completely |
| `MediaContexts.TopologyCarries` | libs/mpf/src/mpf_context.c:381-415 | an association is carried by exactly one object, or exactly two if its source has several sinks and its sink several sources; nothing else is carried |
| `MediaContexts.MediaContext.TopologyApply` | libs/mpf/src/mpf_context.c:381-415 | the loop builds exactly the specified bridges, multipliers and mixers |
| `MediaContexts.MediaContext.BridgeCreate` | libs/mpf/src/mpf_context.c:445-477 | a bridge to the only sink, unless a mixer feeds that sink |
| `MediaContexts.MediaContext.SinksOf` | libs/mpf/src/mpf_context.c:479-506 | the sinks are the on-entries of the row, as many as counted |
| `MediaContexts.MediaContext.SourcesOf` | libs/mpf/src/mpf_context.c:508-535 | the sources are the on-entries of the column, as many as counted |
| `MediaContexts.MediaContext.ClearSlot` | libs/mpf/src/mpf_context.c:210-230 | the loop switches off exactly the row and the column of a slot, although it stops after the last occupied slot |
| `MediaContexts.MediaContext.ResetFrom` | libs/mpf/src/mpf_context.c:343-363 | the inner loop switches off what is left in the row and the column of a slot |
| `MediaContexts.MediaContext.Link` | libs/mpf/src/mpf_context.c:263-280 | an entry is switched on once, if the streams allow it, and both counts follow |
| `MediaContexts.MediaContext.Unlink` | libs/mpf/src/mpf_context.c:216-229 | an entry is switched off once, and both counts follow |
| `MediaContexts.MediaContext.CreateObjects` | libs/mpf/src/mpf_context.c:397-411 | the objects of a slot: bridge or multiplier for its output, mixer for its input |
| `TimerQueues.TimerQueue.Insert` | libs/apr-toolkit/src/apt_timer_queue.c:201-215 | a timer is put behind all timers that are due no later, so the queue stays sorted by deadline and then by setting order |
| `TimerQueues.TimerQueue.Set` | libs/apr-toolkit/src/apt_timer_queue.c:161-186 | setting a timer gives it the timeout and changes the time left to no other timer; the deadline wraps into the past if and only if it does not fit 32 bits |
| `TimerQueues.TimerQueue.Kill` | libs/apr-toolkit/src/apt_timer_queue.c:189-199 | killing removes that timer only, and starts the time anew when none is left |
| `TimerQueues.TimerQueue.Remove` | libs/apr-toolkit/src/apt_timer_queue.c:217-230 | removal keeps the order and the time left to all others |
| `TimerQueues.TimerQueue.TimeoutGet` | libs/apr-toolkit/src/apt_timer_queue.c:124-146 | the timeout is the least time left, and the reset flag is cleared |
| `TimerQueues.TimerQueue.Reschedule` | libs/apr-toolkit/src/apt_timer_queue.c:232-242 | rebasing keeps order and times left if no deadline lies before it; otherwise the first timer is put off |
| `TimerQueues.TimerQueue.Advance` | libs/apr-toolkit/src/apt_timer_queue.c:72-115 | if no deadline is missed by a rebase, exactly the timers that are due fire, once, by deadline and then by setting order, the time left to the others drops by d and callbacks may set their timer again; otherwise nothing fires although the first timer is due; a step that does not fit 32 bits turns the time back |
| `TimerQueues.TimerQueue.Process` | libs/apr-toolkit/src/apt_timer_queue.c:97-114 | the loop ends although callbacks set their timers again, since these lie in the future |
| `TimerQueues.DeadlineCanBeMissed` | libs/apr-toolkit/src/apt_timer_queue.c:88-93 | a timer due in 10 units is put off when 65535 units pass at once |
| `TimerQueues.TimerQueue.Elapse` | libs/apr-toolkit/src/apt_timer_queue.c:86-93 | time moves forward, and every time left drops by d unless a rebase passes a deadline |
| `TimerQueues.TimerQueue.MoveDeadlines` | libs/apr-toolkit/src/apt_timer_queue.c:235-240 | every deadline is moved by the elapsed time, in wrapping arithmetic |
| `TimerQueues.TimerQueue.FireFirst` | libs/apr-toolkit/src/apt_timer_queue.c:100-113 | firing removes the first timer; setting it again puts it behind everything that is due |
| `TimerQueues.TimerQueue.Schedule` | libs/apr-toolkit/src/apt_timer_queue.c:173-186 | a timer that is not in the queue is queued by its deadline |
| `RtpReceivers.TracksExactly` | libs/mpf/src/mpf_rtp_stream.c:703-725 | the highest sequence number stays known if and only if the packet is near: fewer than 3000 ahead, or behind and not just short of whole cycles |
| `RtpReceivers.WindowIsNear` | libs/mpf/src/mpf_rtp_stream.c:703-725 | everything up to 62536 behind is near |
| `RtpReceivers.LostIsMissingExactly` | libs/mpf/src/mpf_rtp_stream.c:530-536 | the reported loss is the number of sequence numbers never received if and only if packets are distinct and none precedes the first, or nothing is missing |
| `RtpReceivers.Receiver.SeqUpdate` | libs/mpf/src/mpf_rtp_stream.c:703-725 | the wrap-aware update of the highest number, and its classification |
| `RtpReceivers.Receiver.Receive` | libs/mpf/src/mpf_rtp_stream.c:788-822 | the history keeps standing for the true highest number if and only if the packet is near |
| `RtpReceivers.Receiver.Lost` | libs/mpf/src/mpf_rtp_stream.c:520-536 | the loss reported at close, in terms of the packets received |
| `RtpReceivers.ReceiveAll` | libs/mpf/src/mpf_rtp_stream.c:520-725 | for a whole stream whose packets are each near the highest one before, the reported loss is the number never received if and only if packets are distinct and none precedes the first, or nothing is missing |
| `RtpPorts.PartsDisjoint` | libs/mpf/src/mpf_rtp_termination_factory.c:145-178 | no port belongs to two engines |
| `RtpPorts.PartsCover` | libs/mpf/src/mpf_rtp_termination_factory.c:145-178 | every port of the range belongs to one |
| `RtpPorts.PartSizes` | libs/mpf/src/mpf_rtp_termination_factory.c:148-154 | all parts but the last have an even size, the largest that fits n times, and none is empty if and only if there are two ports per engine |
| `RtpPorts.Factory.Assign` | libs/mpf/src/mpf_rtp_termination_factory.c:120-180 | after any assignments the range is split into consecutive parts; a known engine changes nothing; the first engine goes on where it was, which is in its new part if and only if it was below the new end |
| `RtpPorts.Factory.Resplit` | libs/mpf/src/mpf_rtp_termination_factory.c:155-177 | rewriting bounds in order gives every engine its part |
| `RtpPorts.SearchIsConfinedExactly` | libs/mpf/src/mpf_rtp_stream.c:175-181 | a search keeps to the ports of its engine if and only if max is below 65535 or min is odd or zero |
| `RtpPorts.PortSearch.FindPort` | libs/mpf/src/mpf_rtp_stream.c:169-196 | the search goes through the pairs in order from where the last one left off, takes the first that can be bound, tries every pair at most once, and reports failure only if no pair can be bound |
| `RtpPorts.StaleSearchNeverReturns` | libs/mpf/src/mpf_rtp_stream.c:172-187 | a search that starts behind its part never comes back to its start, so it ends only if a port can be bound |
| `RtpPorts.PairsAreOwn` | libs/mpf/src/mpf_rtp_stream.c:175-186 | neither the RTP nor the RTCP port that is tried belongs to another engine |
| `DtmfModel.IdsAreInverse` | libs/mpf/src/mpf_named_event.c:48-74 | characters and event identifiers are inverse to each other and number the keys 0-9, *, #, A-D in this order |
| `DtmfOnAir.ToneShape` | libs/mpf/src/mpf_dtmf_generator.c:238-331 | every packet of a tone by its fields: identifier, volume 10, end bit and end marker exactly from the frame on that reaches the end, start marker, new segments beyond 16 bits, and durations |
| `DtmfOnAir.ShortTone` | libs/mpf/src/mpf_dtmf_generator.c:238-331 | in a tone that fits 16 bits, durations grow by a frame up to the whole tone, which is told three times |
| `DtmfOnAir.QueueOnAir` | libs/mpf/src/mpf_dtmf_generator.c:201-339 | a queue of digits on the air: frame time q of period i sends packet q of digit i, and nothing in the pause after the tone, which lasts the rest of the silence |
| `DtmfOnAir.RunSends` | libs/mpf/src/mpf_dtmf_generator.c:201-339 | in every run, the packets sent are the first of those of the digits accepted, and the rest is pending |
| `DtmfModel.EndsAgreeExactly` | libs/mpf/src/mpf_dtmf_generator.c:262-329 | the repeated ends tell the duration of the first one if and only if no segment was closed by the frame before, or frames are as long as segments |
| `DtmfModel.RepeatedEndCanDiffer` | libs/mpf/src/mpf_dtmf_generator.c:262-329 | a tone of 8.21 seconds ends with 80 units and repeats it as 65535 |
| `DtmfModel.ToneStarts` | libs/mpf/src/mpf_dtmf_generator.c:280-288 | a tone starts its digit once, if and only if it is longer than a frame |
| `DtmfModel.DigitsArriveExactly` | libs/mpf/src/mpf_dtmf_generator.c:201-339 | the frames of a queue start exactly its digits if and only if tones are longer than a frame or there is no digit |
| `DtmfModel.DialledPending` | libs/mpf/src/mpf_dtmf_generator.c:206-234 | characters that are no digits are skipped and nothing else is lost |
| `DtmfModel.PutPending` | libs/mpf/src/mpf_dtmf_generator.c:201-339 | every frame sent is the next one of the frames still to be sent |
| `DtmfModel.PutCloser` | libs/mpf/src/mpf_dtmf_generator.c:201-339 | every frame time brings the generator closer to the end of its queue |
| `DtmfModel.RunAccounts` | libs/mpf/src/mpf_dtmf_detector.c:137-179 | in every run of queueing, frame times and reads, the digits that were accepted are read, buffered, lost or still to come; what is read and buffered is in their order, complete if none is lost, and none is lost before the buffer was full |
| `Dtmf.Generator.Enqueue` | libs/mpf/src/mpf_dtmf_generator.c:161-182 | digits are queued completely or not at all, behind everything still to be sent |
| `Dtmf.Generator.NextDigit` | libs/mpf/src/mpf_dtmf_generator.c:206-234 | the loop over the queue stops at the first digit |
| `Dtmf.Generator.PutFrame` | libs/mpf/src/mpf_dtmf_generator.c:201-339 | the frame is the next one of those still to be sent, for tones of any length |
| `Dtmf.Detector.DigitGet` | libs/mpf/src/mpf_dtmf_detector.c:137-148 | digits are read in order |
| `Dtmf.Exchange` | libs/mpf/src/mpf_dtmf_detector.c:137-280 | generator and detector objects, driven through any run, send and read what the run of the model does: the first of the packets of the digits accepted, and the first of these digits, in order, if none is lost |
| `Dtmf.Dial` | libs/mpf/src/mpf_dtmf_generator.c:201-339 | the generator object sends a queue of digits packet by packet in the frame times of their periods |
| `Dtmf.Transmit` | libs/mpf/src/mpf_dtmf_generator.c:201-339 | a full queue of digits arrives completely and in order |
| `CyclicQueues.CyclicQueue.Push` | libs/apr-toolkit/src/apt_cyclic_queue.c:50-62 | an object is appended behind all others, across the end of the array and across growth, if and only if there is a free place or there are at least two |
| `CyclicQueues.CyclicQueue.Pop` | libs/apr-toolkit/src/apt_cyclic_queue.c:64-73 | the oldest object is removed |
| `CyclicQueues.CyclicQueue.Resize` | libs/apr-toolkit/src/apt_cyclic_queue.c:86-104 | growth keeps contents and order |
| `CyclicQueues.GrowsExactly` | libs/apr-toolkit/src/apt_cyclic_queue.c:86-104 | growth makes room if and only if there are at least two places |
| `EngineModel.RunTidy` | libs/mpf/src/mpf_engine.c:129-151 | in every run, a message holds one to five commands of one sender, and what is executed is answered |
| `EngineModel.FillsMessages` | libs/mpf/src/mpf_engine.c:129-151 | commands that one sender adds fill messages of exactly five, each sent when a sixth command comes; the last one to five wait |
| `EngineModel.CollectedWaits` | libs/mpf/src/mpf_engine.c:129-151 | a command waits behind all others of its sender, and a full message is sent before it |
| `EngineModel.InOrder` | libs/mpf/src/mpf_engine.c:129-408 | in every run and for every sender, the commands added are those executed and answered, followed by those that wait, in order, none lost or repeated |
| `EngineModel.AllExecuted` | libs/mpf/src/mpf_engine.c:129-408 | once a sender has sent its last command and the engine has drained its queue after that, all its commands are executed, whatever other senders do |
| `MediaEngines.MediaEngine.Add` | libs/mpf/src/mpf_engine.c:129-151 | the object adds to the message of the sender, and sends a full message of five first |
| `MediaEngines.MediaEngine.Process` | libs/mpf/src/mpf_engine.c:297-392 | the loop executes the commands of a message in order and answers them together |
| `MediaEngines.MediaEngine.Drain` | libs/mpf/src/mpf_engine.c:394-408 | the loop takes message after message until the cyclic queue is empty |
| `MediaEngines.RunEngine` | libs/mpf/src/mpf_engine.c:129-408 | the engine object, driven through any run, executes and answers what the run of the model does: for every sender the first of the commands added, in order |
| `SessionMedia.RepliesAreFifo` | libs/mrcp-client/src/mrcp_client_session.c:1037-1091 | the i-th reply of the engine to a session answers the command that the i-th reply event of the session takes, whatever other senders do; so batches and queue amount to the first-in first-out queue of the session |
| `BufferModel.TakeBytes` | libs/mpf/src/mpf_buffer.c:119-168 | reading takes the first bytes held, as many as there is room for, across chunks of any size |
| `BufferModel.TakeEvents` | libs/mpf/src/mpf_buffer.c:119-168 | reading passes events in order, each once |
| `BufferModel.TakeKinds` | libs/mpf/src/mpf_buffer.c:119-168 | a frame is told to be of exactly the events it has passed |
| `BufferModel.TakeAudio` | libs/mpf/src/mpf_buffer.c:119-168 | a frame with bytes is told to be audio |
| `BufferModel.RunIsStream` | libs/mpf/src/mpf_buffer.c:83-168 | in every run without restart, the frames are those of the plain stream of all bytes written, padded only when it runs out |
| `BufferModel.StreamConserves` | libs/mpf/src/mpf_buffer.c:83-168 | what such a stream delivers and what is left of it is what was written |
| `BufferModel.RunEvents` | libs/mpf/src/mpf_buffer.c:102-168 | in every run without restart, every event is told by one frame or is still to be told, in order |
| `BufferModel.SizeExactly` | libs/mpf/src/mpf_buffer.c:59-65 | in every run, the size is the number of bytes held if and only if no restart has forgotten bytes |
| `BufferModel.SizeCanExceed` | libs/mpf/src/mpf_buffer.c:59-65 | one byte written and forgotten by a restart is still counted |
| `BufferModel.RestartKeepsCurrent` | libs/mpf/src/mpf_buffer.c:59-168 | after a restart, what is delivered is the stream of the rest of the chunk being read and of what is written later |
| `ByteBuffers.ByteBuffer.AudioWrite` | libs/mpf/src/mpf_buffer.c:83-100 | bytes are appended to those held |
| `ByteBuffers.ByteBuffer.FrameRead` | libs/mpf/src/mpf_buffer.c:119-168 | a frame is the oldest bytes held, padded only if too few are held |
| `ByteBuffers.ByteBuffer.CopyChunk` | libs/mpf/src/mpf_buffer.c:124-159 | one step of the read loop takes bytes from the front, as many as fit, and consumes a chunk or fills the frame |
| `ByteBuffers.ByteBuffer.Fetch` | libs/mpf/src/mpf_buffer.c:125-132 | the first chunk becomes the current one and nothing is lost |
| `ByteBuffers.RunBuffer` | libs/mpf/src/mpf_buffer.c:59-168 | the buffer object, driven through any run, delivers the frames and the size of the model run: those of the stream of bytes written if there is no restart |
| `RecorderModel.RunSound` | libs/mrcp-engine/src/mrcp_recorder_state_machine.c:92-230 | in every state of every run in which responses carry the method of their request: RECORDING holds if and only if a record is held, an outstanding STOP implies one, an outstanding RECORD excludes one, and no null record is used |
| `RecorderModel.RunFaultsExactly` | libs/mrcp-engine/src/mrcp_recorder_state_machine.c:155-163 | a run uses a null record if and only if some response to the pending request has the method STOP while no record is held |
| `RecorderModel.MismatchFaults` | libs/mrcp-engine/src/mrcp_recorder_state_machine.c:155-163 | a GET-PARAMS request that is answered as a STOP uses a null record |
| `RecorderModel.RunBalances` | libs/mrcp-engine/src/mrcp_recorder_state_machine.c:133-230 | in every run of an active machine, the records told to have started are those told to have ended, in this order, and the one that is held |
| `RecorderModel.AnsweredAsDue` | libs/mrcp-engine/src/mrcp_recorder_state_machine.c:92-230 | in every run of an active machine, every input is answered with exactly what is due by the outputs before it alone: RECORD is forwarded if no record is open and rejected otherwise, STOP is forwarded if one is open and succeeds otherwise, START-INPUT-TIMERS is forwarded or rejected, parameters are forwarded; responses count for the last request forwarded, and events for the open record |
| `RecorderModel.RecordOpens` | libs/mrcp-engine/src/mrcp_recorder_state_machine.c:115-141 | a RECORD that finds no open record, with its in-progress response, is answered and is the open record |
| `RecorderModel.ShutdownStops` | libs/mrcp-engine/src/mrcp_recorder_state_machine.c:342-370 | a deactivation stops the open record and is over with the response to that STOP |
| `RecorderModel.ShutdownSilences` | libs/mrcp-engine/src/mrcp_recorder_state_machine.c:55-78 | after a shutdown the client is told nothing any more |
| `RecorderModel.EndedOnce` | libs/mrcp-engine/src/mrcp_recorder_state_machine.c:133-230 | if the RECORD requests of a run have distinct identifiers, each occurs in at most one of the STOP answers and RECORD-COMPLETE events |
| `RecorderModel.AnsweredOnce` | libs/mrcp-engine/src/mrcp_recorder_state_machine.c:55-177 | if the requests of a run have distinct identifiers, none is answered twice, whatever the engine does |
| `RecorderModel.RunSilent` | libs/mrcp-engine/src/mrcp_recorder_state_machine.c:61-78 | once deactivated, the client is told nothing any more |
| `Recorders.Recorder.Update` | libs/mrcp-engine/src/mrcp_recorder_state_machine.c:320-339 | every message is one step of the model and keeps the state sound |
| `Recorders.RunRecorder` | libs/mrcp-engine/src/mrcp_recorder_state_machine.c:320-370 | the state machine object, driven through any inputs, gives the outputs and the state of the model run; with matching methods it does not fault and, while active, its outputs are those due; with distinct identifiers it tells the end of each record at most once |

## Left out

- Sockets, pollsets, threads, mutexes, memory pools, logging and wall clock: steps are atomic and time is a parameter.
- Signalling agents, connection agents and control channels: an accepted request is answered once, in any order.
- Client session requests other than termination (offer and answer, channel modification, discovery).
- ClientSessions.ClientSession.OnDisconnect: the event that a disconnection raises while no request is active is not modelled.
- ClientSessions.ClientSession.OnAppRequest: what dispatching a request does, other than for termination, is not modelled.
- JitterRing.RunShows: what is delivered is only proved up to the first wrap of the 32-bit timestamp, and for packets that start at most frame_count frames ahead; the exact condition for the latter is TooEarlyTestIsSafeExactlyUpToCapacity.
- JitterIdeal.PlaysIdeally: with skew detection for packets on time; LateAdapts and LandsInEveryRun are about late ones. For packets at most frame_count frames ahead and up to 2^32 timestamp units.
- JitterEvents.EventIsPlayed: for an event written before the first read; EventIsRead is about all runs. GapStartsExactly is about packets whole frames after the start.
- JitterDelays.PlayedFaithfully: no restart leaves a frame unread; RunShows, RestartLosesExactly and RestartReadsBack are about other restarts. CalmRun has the same condition. Delays and landing positions do not depend on it.
- JitterDelays.DelayInEveryRun: for maximal delays below 2^26 timestamp units and up to 7 * 2^28 units of time, so that lengths fit a signed word. Codecs with their own dissector are not modelled.
- MessageCodec.ContinuationDependsOnCut: one field with one continuation line, cut between the two; other cuts through continuation lines are not treated.
- TaskTree.EveryRunCompletes: about one request of one kind; offline and online use separate counters. Start and termination of tasks depend on threads.
- MessageCodec.FeedAll: for texts that the automaton accepts; lines that start with white space, rejected start lines and input beyond the size of the receive buffer are outside of it.
- MessageGenerators.MessageGenerator.WriteHead: the start line is inserted as text; its protocol-specific fields, such as the total length, are not modelled.
- Decimal.AtoiDec: signs, leading white space and overflow of a number that is read.
- Multipart.LearnsExactly: boundaries without line ends.
- Multipart.RoundTrip: header values without line ends or leading white space; a boundary with a line end that has to be learnt; parts given with a ready-made header are not modelled.
- MessageGenerators.Send: a stream without any room is given up, where the sender would try for ever.
- MediaContexts.MediaContext.constructor: capacities up to 255, since counts are held in a byte.
- MediaContexts.MediaContext.TopologyApply: creation of media objects succeeds.
- TimerQueues.TimerQueue.Advance: callbacks set their own timer at most, with timeouts of at most 2^32 - 2^16; with longer ones the loop need not end.
- RtpReceivers.Receiver.Receive: tracking is stated for ranges of less than 2^32 - 2^17 sequence numbers. Change of SSRC, drift of timestamps, jitter and periodic reports are not modelled.
- RtpPorts.PortSearch.FindPort: for ranges in which a search is confined and starts at a pair of its own; the exact conditions are SearchIsConfinedExactly and the last clause of Assign, and StaleSearchNeverReturns is about other starts.
- DtmfModel.RunAccounts: durations whose sums fit 32 bits; event packets in every frame time, which is how the generator sets its interval; resets of generator and detector are left out. In-band tones and their detection are floating point.
- CyclicQueues.CyclicQueue.Push: a full queue of one place refuses the object, where the source writes it behind the end of the array.
- CyclicQueues.CyclicQueue.constructor: at least one place. The inverted emptiness test is not used.
- MediaEngines.MediaEngine.Process: what single commands do to a context is the subject of MediaContexts.
- BufferModel.RunIsStream: runs without restart; RestartKeepsCurrent is about what follows the last one.
- RecorderModel.RunSound: responses carry the method of their request, as responses made from requests do; RunFaultsExactly and MismatchFaults are about others. Header fields and parameters are not modelled.
- Encoders, decoders, mixing of samples, codec lists, profiles, XML and configuration loading: thin or table-driven code.
