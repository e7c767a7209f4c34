# libnavajo in Dafny

A model of the parts of the libnavajo web server that hold state, loops or arithmetic, and proofs of what they
promise. `dafny verify dfyconfig.toml` checks all of it.

- **The streaming multipart parser.** `MultipartSpec` is the three-state machine over a byte buffer; `MultipartParser`
  is the parser and its field objects as they run, every method tied to the machine. `MultipartSlicing` shows that it
  does not matter how a body is cut, `MultipartHeaders` says what is read of any block of header lines, and
  `MultipartRoundTrip` that a body written as section 5.1.1 of RFC 2046 asks is read back, exactly when its parts
  survive three traps of the code.
- **The WebSocket receiver.** `WebSocketFrames` is a parser of whole frames (sections 5.2 and 5.3 of RFC 6455),
  `WebSocketDecoder` the incremental decoder as a function, `WebSocketRefinement` and `WebSocketMessages` compare the
  two, `WebSocketReceiver` is the thread function with its buffers, filled by partial reads and unmasked in place.
- **The WebSocket sender.** `ByteOrder`, `SocketSend` (a socket that takes what it wants), `SendingQueue` (the queue with
  its history) and `WebSocketSender` (the thread function). `WebSocketWire` parses what was written as a client would,
  and finds the messages that were queued.
- **Many clients at once.** `WebSocketSystem` is a transition system of clients, their two workers, broadcasters and
  owner threads. `WebSocketInvariant` holds in every reachable state (`WebSocketSteps`, `WebSocketOwners`,
  `WebSocketTeardown`, `WebSocketSafety`); `WebSocketDelivery` and `WebSocketOutcomes` are about messages and the wire,
  `WebSocketClosings` about what becomes of clients that leave the list, `WebSocketWaits` about who waits for whom.
  Callbacks broadcast, send and close other clients; a close call that a thread makes inside of a callback is a thread
  of its own, for which its caller waits. `WebSocketCallbacks` is about rules for such calls, that is which clients a
  callback made for a client may close, `WebSocketWakeups` about notifications of the sending thread, and
  `WebSocketRuns` has the runs in which things go wrong. `WebSocketList` is the list of clients as it is kept.
- **Smaller parts of the server.** `ReceiveBuffer`, `Base64`, `AuthCaches`, `QueryDecoding`, `IpNetworks`, `Sessions`; `Basics`
  and `Sequences` are shared by all.

A `char` stands for one byte where the source has `char`, a `bv8` where it has `unsigned char`. Lengths are unbounded
integers; where the source truncates or wraps (a `static_cast<char>`, the bytes of `htonll`, the unsigned chars of
base64) this is written out. The host is little-endian.

Where the code and what is written about it differ, the model follows the code:

- A part whose name ends in `filename=` is taken for a file with a file name there, and so is a text part with
  `filename="` in a later header line; a header line before the disposition that has `name="` is taken for it
  (`MultipartHeaders.OtherHeaderIsTakenForName`; `MultipartRoundTrip.RoundTrip` says exactly when a body is read back).
- After the header of an empty frame the masking key is not read, and a 16-bit length of 127 is taken for the mark of a
  64-bit one (`WebSocketMessages.ReadExactlyUnlessMisread`).
- `isUserAllowed` is documented to set the login name, but leaves it alone when its cache answers
  (`AuthCaches.LoginIsSetOnce`).
- The scope callback of a bearer token is documented to return true on success; the code takes any non-zero result for a
  refusal (`AuthCaches.DocumentedScopeIsReversed`), and does not ask again for a cached token
  (`AuthCaches.ScopeIsNotAskedAgain`).
- `httpSend` means to go on after an interrupted write, but its loop ends on the negative count
  (`SocketSend.InterruptedGivesUp`; `SocketSend.SendsAllExactlyWhen` says when everything is sent).
- The removal of clients is described as free of deadlock, but when callbacks that receiving threads run for messages
  close other clients, these threads may come to join each other in a circle. This can happen if and only if, by the
  rule that the callbacks keep to, clients may close each other in a ring (`WebSocketRuns.CircleExactlyWhenRing`); to
  close only clients of a higher rank is one rule without rings (`WebSocketCallbacks.ClosingUpwardsIsSafe`).
- Nor is it free of deadlock without such callbacks. The sending thread tests `closing` under its mutex, but a close
  call sets and announces it without that mutex: when it does so between the test and the wait, the notification is lost
  and the close call joins a thread that sleeps (`WebSocketRuns.NotificationIsMissed`), forever, unless the wait ends by
  itself (`WebSocketWakeups.MissedForever`), and it is lost nowhere else (`WebSocketWakeups.MissedOnlyBetween`). A
  circle, such a sleeper, and a close call on a deleted client are all that a thread can be stuck for
  (`WebSocketWaits.StuckExactlyWhen`).
- `removeAllClients` calls `closeWS` after it has released the mutex, when a client may have deleted itself. No close
  call of an application thread is safe from this (`WebSocketRuns.DeletedIsClosed`), and no call of a worker ever meets
  it (`WebSocketRuns.OwnersFindDeleted`).
- `decodParams` decodes percent signs before it splits at ampersands, so that a form is read back if and only if its
  keys and values do not hold separators, escaped or not (`QueryDecoding.FormIsDecoded`).
- A percent sign before one digit, a blank or a sign is an escape too, and a character may be lost to it
  (`QueryDecoding.HalfEscape`).
- `noExpiration` sets an expiry date of zero, which the search for expired sessions takes for past
  (`Sessions.NoExpirationExpires`).

## Model

| member | source | states |
|---|---|---|
| MultipartSpec.Step | src/MPFDParser/Parser.cc:100-124 | A turn that asks to be repeated raised nothing and made the pair (buffer length, rank of the state) smaller, although leaving the content state may consume nothing; the content state always has its field. |
| MultipartSpec.Process | src/MPFDParser/Parser.cc:94-125 | The loop ends for every buffer and keeps the invariant of the content state. |
| MultipartParser.Field.AcceptSomeData | src/MPFDParser/Field.cc:54-123 | Appends the bytes to the field, or raises what an unset type or a missing directory raises and changes nothing. |
| MultipartParser.Parser.SetContentType | src/MPFDParser/Parser.cc:50-66 | Exactly which content types are accepted, and that the boundary is the rest of the header line with two dashes in front. |
| MultipartParser.Parser.AcceptSomeData | src/MPFDParser/Parser.cc:68-92 | The object after the call, field contents included, is the state machine's; without a content type nothing changes. |
| MultipartParser.Parser.ProcessData | src/MPFDParser/Parser.cc:94-125 | The do/while loop over shared field objects ends in the state, and with the exception, of the state machine. |
| MultipartParser.Parser.ProcessContentOfTheField | src/MPFDParser/Parser.cc:127-152 | What goes to the field, what stays buffered, and when the content is finished. |
| MultipartParser.Parser.SendToField | src/MPFDParser/Parser.cc:140-143 | Moves bytes from the buffer to one field; no other field changes, and after an exception none is lost. |
| MultipartParser.Parser.WaitForHeadersEndAndParseThem | src/MPFDParser/Parser.cc:154-174 | The scan finds the first blank line, and parses what stands before it or waits. |
| MultipartParser.Parser.ParseHeaders | src/MPFDParser/Parser.cc:186-252 | Name, type and file name of the field entered, and every exception with the state that it leaves; what these are for a block of lines is `MultipartHeaders.NameExactlyWhen` and `FileExactlyWhen`. |
| MultipartParser.Parser.BoundaryPositionInDataCollector | src/MPFDParser/Parser.cc:274-294 | The nested loops return the first position of the boundary, or -1 when there is none. |
| MultipartParser.Parser.FindStartingBoundaryAndTruncData | src/MPFDParser/Parser.cc:296-306 | Drops everything up to and with the first boundary, or nothing. |
| MultipartParser.Parser.TruncateDataCollectorFromTheBeginning | src/MPFDParser/Parser.cc:260-272 | The old buffer is what was dropped followed by the new buffer. |
| MultipartParser.FeedBody | src/WebServer.cc:914-989 | The body-reading loop leaves the parser as the chunks, up to the first exception, make it. |
| MultipartSlicing.ResumeAnywhere | src/MPFDParser/Parser.cc:94-152 | Stopping after any bytes and going on with more ends as if all had been there at once. |
| MultipartSlicing.ErrorsAbsorb | src/MPFDParser/Parser.cc:94-152 | An exception is raised by the same bytes whatever arrives after it. |
| MultipartSlicing.ContentBufferIsSmall | src/MPFDParser/Parser.cc:127-152 | While content is received at most the length of the boundary and two bytes stay buffered. |
| MultipartSlicing.ChunksAreOneCall | src/MPFDParser/Parser.cc:68-152 | Any chunks give the exception, status and fields of one call with the whole body, unless the size limit is hit. |
| MultipartSlicing.SlicingNeverMatters | src/MPFDParser/Parser.cc:68-152 | Two slicings of one body agree in exception, status, field names and field contents. |
| MultipartSlicing.LimitHitExactlyWhen | src/MPFDParser/Parser.cc:83-85 | The size limit is hit if and only if some chunk does not fit beside what is still buffered of those before it. |
| MultipartSlicing.LimitDependsOnSlicing | src/MPFDParser/Parser.cc:83-85 | One content that is refused in one piece and accepted in two. |
| MultipartRoundTrip.RoundTrip | src/MPFDParser/Parser.cc:94-252 | A body of writable parts with distinct names, each with any other header lines before and after its disposition, is parsed to exactly those names, types, file names and contents if and only if no content holds the boundary, no name is mistaken for the start of a file name, no text part has a later line with a file name, and stored files have a directory. |
| MultipartRoundTrip.RoundTripInPieces | src/MPFDParser/Parser.cc:68-252 | The same for every way of cutting the body that stays below the size limit. |
| MultipartRoundTrip.LastOfName | src/MPFDParser/Parser.cc:216-252 | Of several parts with one name the last one has the field, with its own type and content and nothing of the others; there are no fields but those of the parts. |
| MultipartRoundTrip.BadHeadersRaise | src/MPFDParser/Parser.cc:154-252 | A body whose first part has a block of headers with an exception ends with that exception, with no field when it is about the name and with the field when it is about the file name. |
| MultipartRoundTrip.NulEndsHeaders | src/MPFDParser/Parser.cc:160-174 | Headers with a NUL are parsed as if they ended before it. |
| MultipartHeaders.NameExactlyWhen | src/MPFDParser/Parser.cc:188-214 | For any lines of headers: which of the exceptions is raised, exactly when no line has the disposition or none has `name="`; otherwise the name is the text after the first `name="` up to the next quote, or there is no such quote and an exception. |
| MultipartHeaders.FileExactlyWhen | src/MPFDParser/Parser.cc:218-252 | For any lines of headers: the field is a text field exactly when no line has `filename="`, and else a file field with the text after the first one up to the next quote, or the exception for a missing quote. No other line, a content type included, matters. |
| MultipartHeaders.NameIsRead | src/MPFDParser/Parser.cc:197-214 | The name written in the disposition is the name read, whatever other header lines there are. |
| MultipartHeaders.FileIsRead | src/MPFDParser/Parser.cc:218-236 | A file part becomes a file field with the file name written, whatever other header lines there are, unless its name ends in `filename=`; then the file name is the text up to the next quote. |
| MultipartHeaders.TextIsRead | src/MPFDParser/Parser.cc:218-221 | A text part becomes a text field if and only if its name does not end in `filename=` and no later header line has a file name, whatever other lines it has. |
| MultipartHeaders.OtherHeaderIsTakenForName | src/MPFDParser/Parser.cc:197-214 | A header before the disposition that holds `name="` gives the part its name, whatever the disposition says. |
| MultipartRoundTrip.NoBoundaryIsEverStored | src/MPFDParser/Parser.cc:127-152 | No field ever holds the boundary: content that contains it cannot be read back. |
| ByteOrder.HtonllIsBigEndian | include/libnavajo/htonll.h:3-9 | What `htonll` leaves in memory is the 64-bit value with its most significant byte first. |
| ByteOrder.NtohllReads | include/libnavajo/htonll.h:11-14 | Reading eight bytes through a cast and `ntohll` gives the big-endian value. |
| ByteOrder.NtohllInvertsHtonll | include/libnavajo/htonll.h:3-14 | `ntohll` gives back what `htonll` was given, for every 64-bit value. |
| WebSocketFrames.MaskTwice | src/WebSocketClient.cc:226-234 | Unmasking with the key undoes masking, section 5.3 of RFC 6455. |
| WebSocketFrames.ParseEncoded | src/WebSocketClient.cc:155-218 | A masked frame in any length form is parsed back to its fields and payload, with its size, whatever follows. |
| WebSocketFrames.ServerFrameIsRead | src/WebSocketClient.cc:485-545 | What is written of a frame is read by a parser of unmasked frames as that frame, with the mask bit clear and in the shortest length form, whatever follows. |
| WebSocketFrames.MessageFrameIsRead | src/WebSocketClient.cc:495-535 | What `sendMessage` writes is read with the `fin` flag, the opcode and the payload of the message, and no part of it is read as a frame. |
| WebSocketFrames.SpecifiedExamples | src/WebSocketClient.cc:495-535 | The short examples of section 5.7 of RFC 6455, byte by byte. |
| WebSocketFrames.LongExamples | src/WebSocketClient.cc:519-535 | Those with 256 bytes and with 64 KiB of payload. |
| WebSocketDecoder.Take | src/WebSocketClient.cc:155-364 | One turn of the decoder keeps its invariant, and one that needed no bytes wants one next. |
| WebSocketDecoder.Run | src/WebSocketClient.cc:114-365 | All turns that some bytes allow: they end, within the bytes. |
| WebSocketRefinement.DecoderRefinesReference | src/WebSocketClient.cc:114-365 | On every stream without a misread header, of masked, unmasked and offending frames alike, the decoder makes the callbacks of the frame-by-frame reference and stops where it stops. |
| WebSocketRefinement.FrameIsDelivered | src/WebSocketClient.cc:155-363 | A complete frame is delivered once and whole, and the decoder goes on with the byte after it. |
| WebSocketRefinement.NothingFromPartOfFrame | src/WebSocketClient.cc:114-153 | Part of a frame makes no callback and leaves the decoder inside the frame. |
| WebSocketRefinement.RunContent | src/WebSocketClient.cc:118-124 | Content longer than the buffer is received in blocks and unmasked at its own offsets. |
| WebSocketRefinement.NotMasked | src/WebSocketClient.cc:170-175 | An unmasked frame closes the connection without a callback, section 5.1 of RFC 6455. |
| WebSocketRefinement.ShortLengthRead | src/WebSocketClient.cc:191-200 | The 16-bit length is read as written unless it is 127; then a number of at least 127 * 256^6 is read. |
| WebSocketMessages.ReadExactlyUnlessMisread | src/WebSocketClient.cc:167-218 | A frame is read exactly, delivered with its last byte and not before, if and only if its header is not an empty length or a 16-bit 127. |
| WebSocketMessages.EmptyFrameLeavesKey | src/WebSocketClient.cc:178-185 | An empty frame is delivered after two bytes, and its key is read as the next frame. |
| WebSocketMessages.EmptyFrameDerails | src/WebSocketClient.cc:178-185 | For every key whose second byte lacks the mask bit, the frame after an empty one closes the connection, though the reference goes on. |
| WebSocketMessages.Length127Swallows | src/WebSocketClient.cc:191-200 | After a 16-bit length of 127 everything that can arrive is swallowed. |
| WebSocketMessages.HeaderLengthRoundTrip | src/WebSocketClient.cc:519-535 | For every 64-bit length the shortest form written by `sendMessage` is decoded by the LENGTH steps to the same length if and only if it is not 127. |
| WebSocketMessages.RunAppend | src/WebSocketClient.cc:126-151 | Reading part of a stream and the rest later is reading all of it. |
| WebSocketMessages.CallbacksAgree | src/WebSocketClient.cc:126-151 | Of two runs on one stream, the callbacks of the one that got less far begin those of the other. |
| WebSocketMessages.FramesAreDelivered | src/WebSocketClient.cc:114-365 | For any masked frames that are not misread the decoder delivers exactly those frames, in order. |
| WebSocketMessages.OffenceEndsTheRun | src/WebSocketClient.cc:257-294 | After any frames that are not misread, a fragmented or long control frame, a stray continuation or a nested data frame closes the connection with no further callback, whatever bytes follow it. |
| WebSocketMessages.UnmaskedEndsTheRun | src/WebSocketClient.cc:170-175 | So does a frame without a mask. |
| WebSocketMessages.ClosesExactlyWhen | src/WebSocketClient.cc:257-350 | A frame closes the connection if and only if it is one of these, or a close frame that the callback agrees to. |
| WebSocketMessages.CloseFrameIsAnswered | src/WebSocketClient.cc:328-336 | After any readable frames a close frame that the callback agrees to: its payload is told, then sent back, the connection is closed, and nothing that follows matters. |
| WebSocketMessages.CloseFrameIsRefused | src/WebSocketClient.cc:328-336 | One that the callback refuses: its payload is told and nothing sent back, a message in fragments is kept, and what follows is read on. |
| WebSocketMessages.UnknownIsSkipped | src/WebSocketClient.cc:296-350 | A frame of an opcode without a meaning is as if it had not been sent. |
| WebSocketMessages.ReservedBitsAreIgnored | src/WebSocketClient.cc:155-165 | So are the reserved bits of a frame. |
| WebSocketMessages.UnitsAreDelivered | src/WebSocketClient.cc:263-346 | Messages in fragments, with control frames between them, close frames that are refused included, are each delivered once, whole, where the last fragment stands. |
| WebSocketMessages.MessagesInOrder | src/WebSocketClient.cc:263-326 | The message callbacks are the messages sent, in order, whatever control frames were interleaved. |
| WebSocketMessages.StreamToMessages | src/WebSocketClient.cc:114-365 | From the bytes on the wire to the callbacks and answers: readable frames of fragmented messages and control frames, in one statement. |
| WebSocketReceiver.Receiver.ReadBlock | src/WebSocketClient.cc:126-151 | However recv cuts the stream, the next bytes of it are stored at the start of the buffer and nowhere else, as many as wanted unless the connection is closing. |
| WebSocketReceiver.Receiver.DecodeLength | src/WebSocketClient.cc:167-212 | Both passes through the LENGTH step, with the message buffer allocated for the length read. |
| WebSocketReceiver.Receiver.Unmask | src/WebSocketClient.cc:224-234 | The loop appends the block, unmasked where it stands in the message, and nothing else changes. |
| WebSocketReceiver.Receiver.Dispatch | src/WebSocketClient.cc:257-346 | The checks and the switch do to fragments, callbacks and answers what delivering the frame means, which `UnitsAreDelivered`, `OffenceEndsTheRun`, `CloseFrameIsAnswered` and `CloseFrameIsRefused` say of the bytes. |
| WebSocketReceiver.Receiver.Turn | src/WebSocketClient.cc:114-364 | A turn takes as many bytes as it wants and is the decoder's turn on them, or finds the connection closing and makes no callback. |
| WebSocketReceiver.Receiver.ReceivingThread | src/WebSocketClient.cc:75-366 | For every behaviour of recv the callbacks made begin those of the decoder on the whole stream, and are all of them when a frame closed it or no more than a part of a turn is left; it ends only on such a frame or when a recv found the connection closing. |
| SocketSend.Connection.HttpSend | src/WebServer.cc:1234-1331 | A prefix of the buffer went out in order, and true is returned only when it is all of it, which for a buffer that is not empty is exactly when the socket offers to take as much before a write fails for good; how much went out and the writes made are those of `SendAll` for every sequence of partial and zero writes, full buffers, failures and interrupts. |
| SocketSend.Connection.SendSome | src/WebServer.cc:1257-1322 | One turn of the loop, with the one retry after a full buffer, is the beginning of sending everything. |
| SocketSend.SendsAllExactlyWhen | src/WebServer.cc:1257-1330 | Everything is sent if and only if the writes before the first one that fails for good offer to take as much together; what happens to an empty buffer. |
| SocketSend.EachAttempt | src/WebServer.cc:1257-1330 | What one write decides while bytes are left: taken bytes are gone, a full buffer that can be written again is as if there had been the second write only, and any other failure is the end. |
| SocketSend.InterruptedGivesUp | src/WebServer.cc:1302-1308 | An interrupted write is the last one and nothing is sent, whatever the socket would have taken after it. |
| SocketSend.Connection.SendMessage | src/WebSocketClient.cc:485-545 | A prefix of the frame of the message went out, which is read back as that message (`WebSocketFrames.MessageFrameIsRead`); all of it when true is returned, which is exactly when the socket is open and takes header and payload. |
| SocketSend.Connection.HeaderOf | src/WebSocketClient.cc:489-535 | The ten-byte buffer begins with the first byte and the length in its shortest form. |
| SendingQueue.OfferKeeps | src/WebSocketClient.cc:549-561 | Queueing a message, or freeing it when the client is closing, keeps order, wire and conservation. |
| SendingQueue.PopKeeps | src/WebSocketClient.cc:50-52 | So does taking the front of the queue. |
| SendingQueue.TransmitKeeps | src/WebSocketClient.cc:537-539 | So does any number of bytes that the socket takes. |
| SendingQueue.FailKeeps | src/WebSocketClient.cc:56-61 | So does giving up on a message that came too late or could not be sent. |
| SendingQueue.DrainKeeps | include/libnavajo/WebSocketClient.hh:101-110 | So does `freeSendingQueue`, which leaves the queue empty. |
| SendingQueue.ExactlyOnePlace | src/WebSocketClient.cc:39-71 | A message that was offered is queued, in flight or freed: one of these, once. |
| SendingQueue.OnlyOfferedIsFreed | src/WebSocketClient.cc:39-71 | Nothing is freed twice, or while it is queued or in flight, or without having been offered. |
| SendingQueue.Queue.AddSendingQueue | src/WebSocketClient.cc:549-561 | A message for a client that is not closing is accepted and stands last in the queue; for a closing one it is freed and the queue is left alone. |
| SendingQueue.Queue.FreeSendingQueue | include/libnavajo/WebSocketClient.hh:101-110 | The loop frees every message once, in order, and ends with an empty queue. |
| WebSocketSender.WebSocketClient.SendFront | src/WebSocketClient.cc:50-64 | The front message, and no other, leaves the queue; it is sent whole if and only if it is not too late and the socket takes it, and else it is the failed one and the last thing on the wire. |
| WebSocketSender.WebSocketClient.SendingThread | src/WebSocketClient.cc:39-71 | Whatever others enqueue and whatever the socket does: what was added until the end is accepted in order, message by message; every turn that finds a message sends the front one, so that what waits is exactly counted; without close or failure all that was accepted was sent or waits in order; a closing client ends with an empty queue. |
| WebSocketSender.NothingWaits | src/WebSocketClient.cc:39-71 | Turns in which nothing is added bring the number of waiting messages down by one each: with enough of them all that was accepted has been sent. |
| WebSocketWire.MessagesAreRead | src/WebSocketClient.cc:485-545 | Frames of any messages, one after the other, are parsed to their flags, opcodes and payloads in order, whatever follows. |
| WebSocketWire.WireIsReadAsMessages | src/WebSocketClient.cc:39-71 | In every reachable state a client that parses what was written to its socket finds the first of the messages queued for it, in order: all that were sent, at most one more, and then at most part of the next one. |
| WebSocketList.WebSocket.PushClient | include/libnavajo/WebSocket.hh:210-220 | The list without duplicates grows by one at its end. |
| WebSocketList.WebSocket.RemoveClient | include/libnavajo/WebSocket.hh:260-268 | `find` and `erase` take out that client and no other; a client that is not listed changes nothing. |
| WebSocketList.WebSocket.DetachByRequest | include/libnavajo/WebSocket.hh:277-291 | Takes out the first client of the request, or there is none. |
| WebSocketList.WebSocket.DetachAll | include/libnavajo/WebSocket.hh:240-245 | The list is swapped for an empty one. |
| WebSocketList.WebSocket.SendBroadcast | include/libnavajo/WebSocket.hh:117-123 | A message with the content comes to stand last in the queue of every listed client that is not closing, and is freed for one that is, exactly once each; no other client changes, whatever the sending threads are doing. |
| WebSocketSteps.SendKeeps | src/WebSocketClient.cc:39-71 | Every step of the sending thread keeps the invariant of the system. |
| WebSocketSteps.RecvKeeps | src/WebSocketClient.cc:114-153 | So does every step of the receiving thread, with callbacks that broadcast, send, and close other clients. |
| WebSocketSteps.CallKeeps | include/libnavajo/WebSocket.hh:277-295 | So does a close call made inside of a callback, by any thread and at any depth. |
| WebSocketSteps.CastKeeps | include/libnavajo/WebSocket.hh:117-123 | So does every step of a broadcast, from any thread. |
| WebSocketSteps.AddKeeps | src/WebSocketClient.cc:549-561 | So does every step of a call of addSendingQueue, whose client is alive. |
| WebSocketOwners.OwnerStepKeeps | include/libnavajo/WebSocket.hh:210-295 | So does opening a client and detaching one or all of them. |
| WebSocketOwners.MinusKeeps | include/libnavajo/WebSocket.hh:264-266 | Erasing from a list without duplicates leaves the others, in a list without duplicates. |
| WebSocketTeardown.CloseKeeps | src/WebSocketClient.cc:378-465 | So does every step of the three close calls, from closeOnce to the destructor; that they do all of it and return to the rest of their clients is `WebSocketClosings`. |
| WebSocketSafety.InvAlways | src/WebSocketClient.cc:39-465 | The invariant holds in every state of every run. |
| WebSocketSafety.ListedAreAlive | include/libnavajo/WebSocket.hh:210-220 | In every reachable state each client in the list is constructed, has both workers started and is not deleted. |
| WebSocketSafety.NoUseAfterDelete | src/WebSocketClient.cc:400-427 | In every reachable state no thread is about to use a deleted client: no worker, no broadcast, no teardown. The first thing that a close call of another thread does, `closeOnce`, is not included: see `WebSocketRuns.OutsideExactlyWhenTornDown`. |
| WebSocketSafety.TeardownHappensOnce | src/WebSocketClient.cc:378-385 | Over every run a client is torn down at most once, by one thread. |
| WebSocketSafety.FreedOnlyAfterWorkersExit | src/WebSocketClient.cc:408-426 | Socket data and request are freed only after every worker but the finalizing one has exited, the client only after both have. |
| WebSocketSafety.WorkersHaveTheirSocket | src/WebSocketClient.cc:408-417 | A worker in its loop uses socket data and a request that have not been freed. |
| WebSocketSafety.JoinedIsStarted | include/libnavajo/WebSocketClient.hh:95-99 | A thread that is joined has been started. |
| WebSocketClosings.CallBegins | include/libnavajo/WebSocket.hh:225-295 | A call to remove or close clients, by an application thread or in a callback, stands at the mutex or at the clients that it is for. |
| WebSocketClosings.NoClientIsLost | include/libnavajo/WebSocket.hh:240-295 | In every reachable state a client that has been in the list is still in it, or a thread has won `closeOnce` for it, or it is among those that some thread is about to close. |
| WebSocketClosings.ReturnedHasClosed | src/WebSocketClient.cc:378-427 | A close call that has returned leaves its client with a thread that has won `closeOnce` for it. |
| WebSocketClosings.DetachedAreClosed | include/libnavajo/WebSocket.hh:240-295 | When a call that detached clients has returned, each of them is out of the list for good and has such a thread. |
| WebSocketClosings.RemovalCloses | include/libnavajo/WebSocket.hh:225-295 | removeAllClients and removeClient, from the call to its return: there was a moment under the mutex whose whole list, or whose client of the request, it has dealt with. |
| WebSocketClosings.NoPhaseIsSkipped | src/WebSocketClient.cc:378-465 | A close call has gone through every phase before the one where it stands, from closeOnce and the callback to the joins and the destructor, in order. |
| WebSocketInvariant.OnlyTheWinner | src/WebSocketClient.cc:410-426 | Once a teardown has joined the workers no other thread has anything to do with the client. |
| WebSocketDelivery.WireIsFramesOfPrefix | src/WebSocketClient.cc:39-71 | In every reachable state a client's wire holds the complete frames of a prefix of the accepted messages, in order, and at most one partial frame of the next. |
| WebSocketDelivery.HistoryOnlyGrows | src/WebSocketClient.cc:56-61 | Over every run what was written, accepted and freed stays so, nothing is written after a failure, and a deleted client is left alone. |
| WebSocketDelivery.EveryMessageIsFreedOnce | include/libnavajo/WebSocketClient.hh:121-126 | In every reachable state a message passed to addSendingQueue is in one place, and once the client is deleted it has been freed, once. |
| WebSocketOutcomes.AcceptedWhileOpen | src/WebSocketClient.cc:549-561 | Over every run all that is offered to a client is accepted, in order, as long as the client is not closing, and nothing more once it is. |
| WebSocketOutcomes.FreedUnsentOnlyWhen | src/WebSocketClient.cc:39-71 | In every reachable state a message that was freed has been sent, or its client is closing, or its sending has failed. |
| WebSocketOutcomes.WorkersLeaveNothing | src/WebSocketClient.cc:39-71 | In every reachable state a worker that has exited leaves a client that is closing or being closed; the sending thread leaves an empty queue or a failed message. |
| WebSocketOutcomes.SendReachesClient | src/WebSocketClient.cc:549-561 | A call of addSendingQueue that has returned has offered its client a message with its content. |
| WebSocketOutcomes.BroadcastReachesAll | include/libnavajo/WebSocket.hh:117-123 | A broadcast that has returned has offered its message to every client that was in the list at one moment under the mutex. |
| WebSocketWaits.WaitingBlocks | src/WebSocketClient.cc:410-413 | A thread that waits for another one in the wait-for relation cannot take a step. |
| WebSocketWaits.OnlyWaitingBlocks | src/WebSocketClient.cc:39-465 | Nothing else blocks a thread that has not exited, but that its condition wait was not notified or that its close call met a deleted client: the relation misses no wait. |
| WebSocketWaits.MovesExactlyWhen | src/WebSocketClient.cc:39-465 | In every reachable state a thread can take a step, other than that a condition wait ends by itself, if and only if it waits for no other thread, has not exited, is not a sender that sleeps without a notification, and is in no close call on a deleted client. |
| WebSocketWaits.JoinerHoldsNothing | include/libnavajo/WebSocket.hh:225-249 | A thread that joins, or waits for a call made inside of a callback, holds neither the list, a queue nor a closeOnce mutex. |
| WebSocketWaits.MutexWaitGoesDown | include/libnavajo/WebSocket.hh:225-249 | Who holds a mutex that another thread waits for waits, if at all, for one that comes later: the list before the mutexes of a client. |
| WebSocketWaits.JoinedIsReceiver | src/WebSocketClient.cc:400-465 | A thread that is joined and waits for an exit or a call itself is a receiving thread, in a callback made for a message. |
| WebSocketWaits.CircleExactlyWhenReceiversJoin | src/WebSocketClient.cc:263-465 | In every reachable state, threads wait for each other in a circle, of whatever length and through whatever calls, if and only if callbacks of receiving threads have them join each other in a circle. |
| WebSocketWaits.NoCircularWait | include/libnavajo/WebSocket.hh:225-295 | In no reachable state in which no callback for a message is in a close call do threads wait for each other in a circle. |
| WebSocketWaits.NoDeadlock | include/libnavajo/WebSocket.hh:225-295 | In every reachable state a thread that has not exited waits, through others or not at all, for one that can take a step without a condition wait ending by itself, for a circle, for a sender that sleeps and was not notified, or for a close call on a deleted client. |
| WebSocketWaits.StuckExactlyWhen | src/WebSocketClient.cc:39-465 | In every reachable state neither a thread nor any that it waits for through others can take a step if and only if these waits lead into a circle, or end in a sender that sleeps and was not notified, or in a close call on a deleted client; a sleeper that is waited for belongs to a client that is closing. |
| WebSocketCallbacks.CircleHasRing | include/libnavajo/WebSocket.hh:240-295 | For any rule that says which clients a callback may close, with removeAllClients taken as closing every other client: if threads wait in a circle in some state of a run whose callbacks keep to the rule, the rule leads around a ring of clients. |
| WebSocketCallbacks.ClosingUpwardsIsSafe | include/libnavajo/WebSocket.hh:277-295 | So if every callback closes only clients of a higher rank than its own, for some ranking, threads never wait in a circle, in any state of the run. |
| WebSocketRuns.CircleIsReached | include/libnavajo/WebSocket.hh:277-295 | For every rule and every ring of two or more clients along it there is a run whose callbacks keep to the rule, in which the receiving threads of the ring wait for each other in a circle. |
| WebSocketRuns.CircleExactlyWhenRing | include/libnavajo/WebSocket.hh:225-295 | For every rule: threads wait in a circle in some run whose callbacks keep to it if and only if it has a ring of clients in which each may close the next one. |
| WebSocketRuns.OutsideExactlyWhenTornDown | include/libnavajo/WebSocket.hh:240-295 | A close call at `closeOnce` finds its client deleted if and only if some thread has gone through `delete this` for it at an earlier step of the run; calls of workers never do. |
| WebSocketRuns.DeletedIsClosed | include/libnavajo/WebSocket.hh:240-295 | Whatever thread of the application closes whatever client, by removeAllClients, by its request or by `closeWS`: there is a run in which the call is made while the client is there and, at `closeOnce`, finds it deleted. |
| WebSocketRuns.OwnersFindDeleted | src/WebSocketClient.cc:378-465 | A thread that is no call made inside of a callback finds a client deleted in some run if and only if it is a thread of the application. |
| WebSocketWakeups.MessageIsNoticed | src/WebSocketClient.cc:549-561 | In every reachable state, if a sending thread sleeps without a notification while its queue has a message, some thread is about to notify it and can do so at once: no message is forgotten. |
| WebSocketWakeups.MissedForever | src/WebSocketClient.cc:400-413 | Once a close call joins a sending thread that sleeps without a notification, after the receiving thread has gone or as that thread, it does so in every later state of the run and is stuck, unless that wait ends by itself. |
| WebSocketWakeups.MissedOnlyBetween | src/WebSocketClient.cc:42-49 | Only in one place: a sender that sleeps while it is joined had found its queue empty and `closing` not set, and had not begun to wait, at the step at which the closing was announced. |
| WebSocketRuns.NotificationIsMissed | src/WebSocketClient.cc:45-46 | Whatever thread of the application closes whatever client in which of the three ways: there is a run from the call to such a state, in which there is no circle and no thread can take a step. |
| ReceiveBuffer.ResultsAreTheStream | src/WebServer.cc:332-425 | The results of any calls followed by what is left are the stream. |
| ReceiveBuffer.LineIsALine | src/WebServer.cc:341-359 | A line fits, has no line end but its last byte, and is cut short only by the size or the end of the stream. |
| ReceiveBuffer.BlockIsWhole | src/WebServer.cc:394-425 | A block is as long as was asked for unless the stream is at its end. |
| ReceiveBuffer.Reader.RecvLine | src/WebServer.cc:332-382 | No byte is lost under any behaviour of recv; the line is the one of the stream alone when recv fails only at its end; other clients' buffers are left alone. |
| ReceiveBuffer.Reader.RecvBytes | src/WebServer.cc:394-425 | The same for a number of bytes, read ahead or not. |
| ReceiveBuffer.Reader.Serve | src/WebServer.cc:332-425 | Any interleaving of the two returns what the stream determines. |
| Base64.Base64Encode | src/WebServer.cc:2135-2175 | The loop over single octets and its two tails compute the encoding by groups. |
| Base64.Base64Decode | src/WebServer.cc:2090-2133 | The loop over single characters, with npos in the place of missing ones, computes the decoding of the characters before the first foreign one. |
| Base64.DecodeInvertsEncode | src/WebServer.cc:2090-2175 | Decoding gives back every octet string that was encoded. |
| Base64.EncodeInvertsDecode | src/WebServer.cc:2090-2175 | Encoding gives back every text of complete groups of the alphabet that was decoded. |
| Base64.EncodedForm | src/WebServer.cc:2135-2175 | Four characters for every three octets begun: letters of the alphabet, and one `=` for each octet that the tail is short. |
| Base64.EncodedLetters | src/WebServer.cc:2135-2175 | Every run of six bits of the octets, the last one with zero bits added, stands in its place as its letter of table 1 of RFC 4648. |
| Base64.DecodedBits | src/WebServer.cc:2090-2133 | Every run of eight bits that the characters before the first foreign one hold is the octet in its place; bits left over are dropped. |
| Base64.DecodeStops | src/WebServer.cc:2100-2100 | Everything from the first character outside of the alphabet on is ignored, padding included. |
| Base64.SplitKeepsBits | src/WebServer.cc:2146-2149 | The masks and shifts split the 24-bit group of section 4 of RFC 4648 into its sextets. |
| Base64.JoinKeepsBits | src/WebServer.cc:2107-2109 | The masks and shifts of the decoder join four sextets to the same 24 bits. |
| Base64.IsBase64IsFound | include/libnavajo/WebServer.hh:131-132 | The character test admits exactly the characters that the search in the alphabet finds. |
| AuthCaches.BasicAuth.IsUserAllowed | src/WebServer.cc:164-218 | True exactly when the decoded credentials are listed, whatever the clock and the cache; what becomes of the login name and the cache. |
| AuthCaches.BasicAuth.AddLoginPass | include/libnavajo/WebServer.hh:207-207 | The list only grows, so the cache stays right. |
| AuthCaches.OnlyUsersAreListed | src/WebServer.cc:164-218 | The credentials that section 2 of RFC 7617 builds of a login without a colon are listed if and only if that login was added with that password. |
| AuthCaches.LoginIsSetOnce | src/WebServer.cc:164-218 | A listed user who asks twice is allowed twice; the login name is set by the first request, and left as it was by the second. |
| AuthCaches.AnswerAll | src/WebServer.cc:164-218 | Over any run of additions and requests every answer is that of the list at that time. |
| AuthCaches.BearerAuth.IsTokenAllowed | src/WebServer.cc:227-321 | Answer and cache of every path; a refusal of a token that is not cached tells the first of the reasons that hold: signature, no expiry date, expired, or scope with its description; a cached token carries its own expiry date. |
| AuthCaches.AgreesUnlessScopeChanged | src/WebServer.cc:245-308 | The cached answer is that of the direct check if and only if it is not a cached, unexpired token whose scope denies the resource. |
| AuthCaches.CachedExactlyWhenAllowed | src/WebServer.cc:245-314 | After a request the token is cached if and only if it was allowed, and the others are left as they were. |
| AuthCaches.AnswerTokens | src/WebServer.cc:227-321 | Without a scope callback every answer of every run is that of the direct check. |
| AuthCaches.ScopeIsNotAskedAgain | src/WebServer.cc:295-314 | A token allowed for one resource is then allowed for another one that its scope denies. |
| AuthCaches.DocumentedScopeIsReversed | include/libnavajo/WebServer.hh:218-219 | With the result of the scope callback read as documented, the check differs from that of the code if and only if the callback is asked; for a cached token, when the answers differ. |
| QueryDecoding.DecodeText | include/libnavajo/HttpRequest.hh:87-119 | The loop that edits the string in place ends, and with the decoding from left to right. |
| QueryDecoding.HttpRequest.DecodParams | include/libnavajo/HttpRequest.hh:82-151 | The parameters after decoding, splitting and entering one by one. |
| QueryDecoding.HttpRequest.EnterParam | include/libnavajo/HttpRequest.hh:130-147 | One parameter, with the folding of a known key into its array. |
| QueryDecoding.DecodeInvertsCoding | include/libnavajo/HttpRequest.hh:87-119 | Whatever characters a client escapes, in either case, and spaces as plus signs: the text is decoded to what it stands for. |
| QueryDecoding.DoubledOrLast | include/libnavajo/HttpRequest.hh:92-99 | Two percent signs are one; one before less than two characters is kept. |
| QueryDecoding.HalfEscape | include/libnavajo/HttpRequest.hh:101-109 | One hexadecimal digit after the sign, or after a blank or a plus or minus in between, is an escape for the character of that number, modulo 256, and the character beside it is lost. |
| QueryDecoding.NoEscape | include/libnavajo/HttpRequest.hh:101-106 | Before any other two characters the percent sign is kept and decoding goes on right after it. |
| QueryDecoding.FormIsDecoded | include/libnavajo/HttpRequest.hh:82-151 | From any encoding of a form without array keys: each key has its last value, a key given at least twice also all its values joined in order, and there is nothing else, if and only if no key holds an ampersand or an equals sign and no value an ampersand. |
| QueryDecoding.BareNameEmpties | include/libnavajo/HttpRequest.hh:130-133 | A name without an equals sign at the end of any query sets its parameter to the empty string, known or not, and nothing else. |
| QueryDecoding.ValueIsAdded | include/libnavajo/HttpRequest.hh:134-147 | A key and value at the end of any query: the value is entered, and for a known key also appended to its array, or to its only value to make one. |
| QueryDecoding.EscapedAmpersandSeparates | include/libnavajo/HttpRequest.hh:87-128 | An escaped ampersand in a value separates parameters, and the form is not read back. |
| QueryDecoding.EmptyQuery | include/libnavajo/HttpRequest.hh:121-133 | The empty query is one parameter without a name, so the form without pairs is not read back. |
| IpNetworks.IsInside | include/libnavajo/IpAddress.hh:343-357 | For masks of at most 32 an address belongs to a network if and only if both begin with the same bits in host order. |
| IpNetworks.QuadIsInside | include/libnavajo/IpAddress.hh:343-357 | The same for the bytes of two addresses in the order in which they are written: the first mask bits agree. |
| IpNetworks.BuildNetmask | include/libnavajo/IpAddress.hh:351-353 | The loop sets the ones from the top and no other bit. |
| IpNetworks.DottedMask | include/libnavajo/IpAddress.hh:421-436 | A dotted mask is accepted if and only if no one follows a zero, and the length read stands for it. |
| IpNetworks.WriteAndReadMask | include/libnavajo/IpAddress.hh:421-436 | Every prefix length, written as a dotted mask, is read back. |
| IpNetworks.ReadAndRebuildMask | include/libnavajo/IpAddress.hh:351-354 | Every dotted mask that is accepted is rebuilt from the length read. |
| Sessions.HttpSession.SetAttribute | include/libnavajo/HttpSession.hh:211-236 | The new entry, the release of the one it replaces, and the pointer that is now owned, if the session exists. |
| Sessions.HttpSession.RemoveOneAttribute | include/libnavajo/HttpSession.hh:289-308 | The entry is gone and its pointer released by the call for its kind. |
| Sessions.HttpSession.RemoveSession | include/libnavajo/HttpSession.hh:169-178 | The session is gone and all its pointers released. |
| Sessions.HttpSession.RemoveSessions | include/libnavajo/HttpSession.hh:113-152 | Keeps the sessions with an expiry date that is neither zero nor past (`LivesExactlyUntilDue` says it over whole runs), or none; ownership is kept in each turn. |
| Sessions.HttpSession.WriteExpiration | include/libnavajo/HttpSession.hh:95-109 | Changes the date of a session that has one, and no ownership. |
| Sessions.RemoveKeeps | include/libnavajo/HttpSession.hh:218-229 | Releasing and erasing an entry keeps ownership. |
| Sessions.OneOwner | include/libnavajo/HttpSession.hh:272-285 | A stored pointer is held by an entry and not released, or released once and as what it is. |
| Sessions.PerformAll | include/libnavajo/HttpSession.hh:113-308 | Over every run with fresh pointers ownership is kept and the container is what the operations make of it. |
| Sessions.IsWritten | include/libnavajo/HttpSession.hh:53-308 | What is found under a name after each operation that concerns it. |
| Sessions.LivesExactlyUntilDue | include/libnavajo/HttpSession.hh:93-152 | Whatever is done to other sessions and entries, a session with an expiry date is there after any operations if and only if no search for expired ones found the date zero or not later than its time; until then its entries are found as they were stored. |
| Sessions.NoExpirationExpires | include/libnavajo/HttpSession.hh:104-136 | A session that is set never to expire survives the next search for expired ones if and only if it was there, was not due before, and has an object in the place of its date: every date is overwritten by one that is past. |

## Left out

- WebSocketSafety.TeardownHappensOnce: close calls are modelled while they reach `closeOnce` on a client that has not been deleted; what they do to a deleted one is outside of the model, but when they come to it is said exactly (`WebSocketRuns.OutsideExactlyWhenTornDown`).
- WebSocketSafety.NoUseAfterDelete: leaves out such a call of `closeOnce` by a thread that is not a worker of the client.
- WebSocketRuns.CircleIsReached: in the model a thread that comes to join itself, through a callback inside of a callback, waits forever, where `pthread_join` may report it instead.
- WebSocketRuns.OwnersFindDeleted: not for close calls made inside of callbacks.
- WebSocketWakeups.MissedForever: says nothing about how long a thread that can take a step waits for its turn; nor is it claimed that every join returns where no thread is stuck.
- What a callback may close is a relation between clients: a rule does not change during a run, and removeAllClients inside of a callback counts as closing every other client, in the list or not.
- WebSocketMessages.StreamToMessages: holds for frames that are not one of the two misread headers; what those do is proved separately.
- WebSocketRefinement.DecoderRefinesReference: the reference ignores reserved bits and unknown opcodes, as the code does and sections 5.2 and 7.4 of RFC 6455 do not.
- MultipartSlicing.SlicingNeverMatters: for slicings that do not hit the size limit, which does depend on the slicing.
- MultipartRoundTrip.RoundTrip: any other header lines before and after the disposition, but a line before it has no `name="`; the disposition itself has its name first and its file name second, as browsers send it.
- User callbacks are arbitrary but do not close the client that they are made for, and `onOpening` does not use the client list.
- MultipartParser.Field.AcceptSomeData: content stored on disk is kept as bytes in the field, and opening and writing a temporary file does not fail.
- MultipartParser.Parser.ParseHeaders: the content type of a file is not extracted.
- IpNetworks.IsInside: for masks of at most 32, above which the source shifts by a negative count, and not for two addresses of version 6.
- IpNetworks.BuildNetmask: for masks of at most 32, likewise.
- Sessions.HttpSession.WriteExpiration: one atomic step, where the source writes through a pointer after it has released the mutex.
- Messages sent by application threads reach a client through a broadcast or through a callback made for it; raw client pointers kept by an application are not modelled.
- TLS: `BIO_read`, `BIO_write` and `BIO_gets` are treated as `recv` and `send` with partial results; handshakes and certificates are not part of this model.
- Compressed frames and zlib; the server never turns compression on for a WebSocket.
- Failures of memory allocation, thread creation and of setting socket options before the receiving loop.
- Time: latency is a choice between sent and too late, clocks are arguments.
- NUL truncation when a text field is read back as a C string.
- IPv6 matching, and the ordering of networks, which is not an order.
- Parsing addresses and prefix lengths from text, which is left to `inet_pton` and `atoi`.
- Cookies, header recognition, MIME types, repositories, logging and status pages.
- Random session identifiers: a new identifier is one that is not in use.
- Session attributes that are read after the mutex was released.
- SHA-1 and the text of the WebSocket handshake.
- The scalar variables of the receiving thread are fields of one record and its key is a sequence; the receive and message buffers are arrays.
- The list of clients and the sending queue are sequences reassigned by their methods; the nodes of the C++ containers are not modelled.
- A multipart field object is set up before it is entered in the map of fields, where the source enters it first.
