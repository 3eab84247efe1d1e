# aiofastnet transports, verified

A Dafny model of the transport layer of aiofastnet: the stream transport over a non-blocking descriptor, the TLS transport
over memory BIOs, the linear BIO beneath it, the stdlib fallback engine, and three algorithms that plug in (flow control,
address interleaving, AF_UNIX addresses). Everything outside the transports is an adversary:

- the kernel (`Kernel.Descriptor`) takes or hands out any number of bytes, reports a full buffer, interrupts calls and fails;
- OpenSSL (`Engine.SslEngine`) accepts any prefix, emits any ciphertext, asks for input or output and fails;
- files end early; application code calls the transport again from inside its callbacks, and raises.

The classes carry the fields of the source and change them step by step as the source does. Ghost fields record history: what
was accepted, encrypted, sent, read and delivered, and which callbacks were made. `Valid()` (and for TLS `Boundary()`, the
state in which control is back in the event loop) is the invariant; `Onward` says that histories only grow and that nothing
closed reopens. Each transport has a method `Run` that performs any number of events in any order with any behaviour of the
environment, and a lemma `Promises` that says what the invariant means to a user. All loops are proved to terminate.
Kernel, OpenSSL and application may each be `rehearsed`, and then play a fixed part, so that a run can be shown and not only
allowed; everything else is proved whether they are or not.

How the files build on each other:

| module | what it holds |
|---|---|
| Prelude, Buffers, Requests | bytes and options; what may be kept of a caller's buffer; queue entries and the bytes they stand for |
| Lifecycle, ReadLoop | the grammar and the timing of protocol callbacks; the TLS read loops as a conversation with the protocol |
| StaticMemBio, Kernel, Watermarks, Engine | the BIO as a FIFO; system calls and their retry loops; pause/resume hysteresis; the accounting loops around OpenSSL |
| Stream | StreamTransport with the read loop of SelectorSocketTransport |
| Tls | SSLTransport_Socket |
| Fallback, Interleave, UnixAddress | the write budget of the stdlib engine; interleaving; socket addresses |

What the proofs brought to light, each exactly as the code has it:

- **A wake-up can be lost.** Plaintext written while the handshake is still going on goes to the queue; `_write_ready` then
  serves only the handshake and drops the writer once the socket has taken the ciphertext. Until the queue is offered to the
  engine again nothing wakes it. `Tls.Rehearsal` is a run that ends like that, with fixed parts for kernel, OpenSSL and
  application: nothing that was ever written has met the engine, and neither room nor input is waited for.
  - It takes a write before the handshake is over, and past the handshake it does not start: unless something was written so
    early (`early` counts the bytes), what is queued has a wake-up in every run, and after the handshake a queue that has
    one keeps one (`Tls.SslTransport.Run`). The public functions hand a transport out only in connection_made or after it
    (aiofastnet/api_utils.py:154-177); with them no wake-up is ever lost (`Tls.SslTransport.PublicRun`).
  - From an early write on, and through the end of the handshake, the queue is either as it was, with more behind it, and
    then it sleeps exactly when the engine did not want input and the writer is not registered; or it has a wake-up again,
    which happens past the handshake only (`Tls.SslTransport.StrandEarlyWrite`).
  - What sleeps when the handshake is over sleeps on, and with it all that is written later, exactly until the engine is
    asked for input (`Tls.SslTransport.SleepOn`). A `_read_ready` that receives something does that
    (`Tls.SslTransport.ReadReady`), the retry scheduled by the handshake's end does it unless reading is paused
    (`Tls.SslTransport.RetrySslRead`), and closing does it; writing, pausing and resuming do not
    (`Tls.SslTransport.LaterBytesSleepToo`).
- **Closing or aborting a TLS transport does not stop its read loops.** They look only at `_read_paused`, which closing leaves
  alone. A loop goes on after a round exactly when it would have gone on anyway (`ReadLoop.NextRound`), and a chunk reaches a
  closing or aborted protocol exactly when the connection was closed before the loop, in an earlier round of it, or within
  the very get_buffer() that made room for the chunk (`ReadLoop.ChunkReachesClosing`); get_buffer() itself is called on such
  a connection in the first two cases (`ReadLoop.EntersClosing`). `ReadLoop.AbortInDataReceived` and
  `ReadLoop.AbortInBufferUpdated` are two inputs; `Tls.SslTransport.DoReadCopied` and `Tls.SslTransport.DoReadBuffered` tie the conversation to the loops of the source.
  `_read_ready` goes on likewise: a connection that is given up in the middle of its loop is still read from
  (`Tls.SslTransport.ReadReadyRound`).
- **A chunk can reach a paused protocol**, on either transport, but only through the buffered interface and only when its own
  `get_buffer()` has done the pausing, because the transport looks before that call and not after it
  (`Lifecycle.PausedByGetBuffer`). On the stream transport, where closing pauses reading, the same is all that can happen to a
  closing protocol (`Stream.StreamTransport.Promises`).
- **Not every name that is decoded can be sent to.** A decoded address can be encoded again exactly when its name has fewer
  than 108 bytes, or is an abstract one of 108 (`UnixAddress.Reencode`); a pathname of the full 108 bytes, which the kernel
  reports without a NUL, and the longer names that the storage admits are decoded and refused.
- `close()` after a fatal error of a TLS transport still sends a close_notify; `Snapshot.forced` tells such calls apart.
- After a failed flush `_force_close` of the TLS transport can leave entries in a queue whose size is already zero; the model
  therefore promises `backlogSize == 0`, and not an empty list, once a TLS transport is finished.
- When the constructor of the TLS transport fails, it has already forgotten the socket when it calls `_drop_writer`, which
  therefore does nothing; no harm is done, because no writer is registered then. Reader and handshake timer are removed; the
  shutdown timer stays armed if the application has closed the transport in connection_made
  (`Tls.SslTransport.StartHandshake`).
- The length passed to SSL_write is cut to a C int (`Engine.ToInt32`); the accounting stays right for any length.

## Model

| member | source | states |
|---|---|---|
| Stream.StreamTransport.Promises | aiofastnet/transport.pyx:582-1079 | Stream conservation (left the queue ++ queue == accepted, a prefix after a forced close), what is on the wire, size accounting, writer registered iff something waits, what waits waits for the kernel, hysteresis, transfers in order and none forgotten, SHUT_WR last, callback grammar and timing, delivered == received; nothing is read before connection_made unless the application has resumed reading first |
| Stream.StreamTransport.Run | aiofastnet/transport.pyx:691-1079 | Any run of calls, callbacks and outcomes keeps the invariant, only extends every history, and never reopens what is closed, finalized, shut down or gone |
| Stream.StreamTransport.NextEvent | aiofastnet/transport.pyx:691-1079 | The same for each single event |
| Stream.StreamTransport.UserCode | aiofastnet/transport.pyx:415-456 | Application code inside a callback may make any calls: the invariant holds after them, no callback and no input happens meanwhile |
| Stream.StreamTransport.constructor | aiofastnet/transport.pyx:691-701 | A new transport is open, empty and valid |
| Stream.StreamTransport.Write | aiofastnet/transport.pyx:726-753 | Accepts exactly the buffer's content at call time, nothing after write_eof (an exception) or once finished; writes nothing past queued data; on an empty queue really tries to send |
| Stream.StreamTransport.WriteC | aiofastnet/transport.pyx:772-793 | The same for bytes behind a pointer into memory the caller reuses |
| Stream.StreamTransport.WriteLines | aiofastnet/transport.pyx:755-770 | The same for the concatenation of a list of buffers |
| Stream.StreamTransport.TryWrite | aiofastnet/transport.pyx:870-890 | Sent bytes and the returned request make up the content; a request remains only when the kernel's answer was short |
| Stream.StreamTransport.TryWriteLines | aiofastnet/transport.pyx:892-934 | Batches of 256: sends a prefix of everything up to the first file transfer, true iff all of it; otherwise the kernel's answer was short |
| Stream.StreamTransport.AddLine | aiofastnet/transport.pyx:892-934 | A full block goes out at once; sent, blocked and remaining bytes always make up the whole |
| Stream.StreamTransport.FlushIovecs | aiofastnet/transport.pyx:936-946 | One vectored call sends a prefix of the block's concatenation |
| Stream.StreamTransport.AppendLinesTail | aiofastnet/transport.pyx:1041-1056 | After n sent bytes the queue grows by exactly the rest of the concatenation |
| Stream.StreamTransport.ConsumeWriteBacklog | aiofastnet/transport.pyx:948-965 | Dropping n sent bytes leaves exactly the remaining suffix queued, with waiters and their places unchanged; a complete send removes a request |
| Stream.SendableIsPrefix | aiofastnet/transport.pyx:892-934 | What a vectored attempt may send is a prefix of the queued bytes and covers a leading memory request |
| Stream.SendableLines | aiofastnet/transport.pyx:892-934 | For a list of lines it is the concatenation of all of them |
| Stream.TrimHead | aiofastnet/transport.pyx:948-965 | Advancing the front request by n removes exactly n bytes from the stream the queue stands for |
| Stream.PopHead | aiofastnet/transport.pyx:948-965 | Popping a request that has been sent completely removes exactly its bytes |
| Stream.StreamTransport.Sendfile | aiofastnet/transport.pyx:795-836 | Refused exactly when unsupported, closing, after write_eof or on bad arguments; otherwise the available range joins the stream, and a waiting range gets a fresh pending future that is tied to the end of the stream so far |
| Stream.StreamTransport.AwaitTransfer | aiofastnet/transport.pyx:795-836 | For a client: sendfile(), then any run whatever; if the future has a result, or there was none to wait for, everything accepted up to and with that call has left the queue |
| Stream.StreamTransport.TrySendfile | aiofastnet/transport.pyx:975-1008 | Bytes sent or found past the end of the file plus the rest make up the range; stops only when done or when the kernel is full |
| Stream.StreamTransport.SendfileTop | aiofastnet/transport.pyx:1010-1023 | A transfer at the front proceeds or completes, keeping conservation, order and the other waiters |
| Stream.StreamTransport.CompleteTop | aiofastnet/transport.pyx:1010-1023 | The oldest waiter gets its result, and only when its whole range has left the queue |
| Stream.StreamTransport.ClearWriteBacklog | aiofastnet/transport.pyx:635-648 | Every waiting future is cancelled, or fails with the exception; finished ones keep their outcome |
| Stream.StreamTransport.ForceClose | aiofastnet/transport.pyx:675-685 | From any damaged state: the queue is gone, every waiter is settled, finalization is scheduled once |
| Stream.StreamTransport.HandleError | aiofastnet/transport.pyx:390-400 | Any exception ends in a valid, finalized transport |
| Stream.StreamTransport.WriteReady | aiofastnet/transport.pyx:838-868 | Draining keeps the invariant, really sends when something is queued, and stops only when done, on error or when the kernel is full |
| Stream.StreamTransport.DrainLoop | aiofastnet/transport.pyx:838-868 | The loop terminates: every complete send removes at least one request |
| Stream.StreamTransport.AfterDrain | aiofastnet/transport.pyx:838-868 | Resume, unregister, then finish a graceful close or a delayed write_eof, all within the invariant |
| Stream.StreamTransport.WriteEof | aiofastnet/transport.pyx:717-724 | Takes effect iff not closing; shuts down at once only on an empty queue |
| Stream.StreamTransport.WriteEofNow | aiofastnet/transport.pyx:967-973 | On a socket the shutdown is recorded with everything accepted on the wire; anything else is closed |
| Stream.StreamTransport.Close | aiofastnet/transport.pyx:594-602 | Idempotent; finalization starts at once iff the queue is empty; reading stops |
| Stream.StreamTransport.Abort | aiofastnet/transport.pyx:329-331 | Ends in a finalized transport |
| Stream.StreamTransport.PreWriteCheck | aiofastnet/transport.pyx:1025-1035 | Error iff write_eof was called, refusal iff finished |
| Stream.StreamTransport.PauseReading | aiofastnet/transport.pyx:307-312 | Reading is paused afterwards, closing or not |
| Stream.StreamTransport.ResumeReading | aiofastnet/transport.pyx:314-327 | Reading resumes unless closing |
| Stream.StreamTransport.SetWriteBufferLimits | aiofastnet/transport.pyx:612-620 | Refused limits change nothing; accepted ones keep the hysteresis |
| Stream.StreamTransport.CancelFuture | aiofastnet/utils.pyx:611-615 | A cancelled waiter stays in the queue and disturbs nobody |
| Stream.StreamTransport.ReadReady | aiofastnet/selector_transport.pyx:60-142 | Less than the budget plus the room of the cycle's last read, which is the buffer that get_buffer() supplied; nothing is read while paused or finished; otherwise the kernel is asked, and everything said suits the kind of protocol there was at the start; an end of stream is told to the protocol or closes |
| Stream.StreamTransport.ReadCopiedRound | aiofastnet/selector_transport.pyx:108-142 | A round stops after a full chunk only when the protocol was switched; delivers nothing when paused or finished |
| Stream.StreamTransport.ReadBufferedRound | aiofastnet/selector_transport.pyx:69-106 | The same through get_buffer, whose own calls are seen only by the next round |
| Stream.StreamTransport.ReadIntoBuffer | aiofastnet/selector_transport.pyx:69-106 | Whatever is read into the supplied buffer is delivered, whatever get_buffer() did to the transport |
| Stream.StreamTransport.ReadChunk | aiofastnet/selector_transport.pyx:69-142 | A read and exactly one callback carrying exactly its bytes, or none |
| Stream.StreamTransport.OnEof | aiofastnet/selector_transport.pyx:144-156 | The protocol has been told or the transport closes |
| Stream.StreamTransport.CallProtocolEofReceived | aiofastnet/transport.pyx:424-432 | eof_received at most once and only between connection_made and connection_lost |
| Stream.StreamTransport.CallProtocolConnectionMade | aiofastnet/transport.pyx:402-407 | connection_made once, and never on a finished transport |
| Stream.StreamTransport.FinalizeClose | aiofastnet/transport.pyx:1061-1079 | connection_lost iff connection_made was called |
| Lifecycle.GrammarMeans | aiofastnet/transport.pyx:402-456 | What the callback automaton says: each of made, eof and lost at most once, eof and lost after made, nothing after lost |
| Lifecycle.PausedByGetBuffer | aiofastnet/ssl_transport.pyx:441-500 | data_received never while reading is paused; buffer_updated only right after the get_buffer() that supplied its buffer, which was not called while paused |
| ReadLoop.NextRound | aiofastnet/ssl_transport.pyx:441-500 | A loop has a next round iff reading is not paused and the chunk filled its room or the engine may be asked again; closing plays no part |
| ReadLoop.EntersClosing | aiofastnet/ssl_transport.pyx:441-500 | A round starts on a closing connection iff it was closed before the loop or during an earlier round |
| ReadLoop.ChunkReachesClosing | aiofastnet/ssl_transport.pyx:441-500 | A chunk is delivered to a closing protocol iff, moreover, or its own get_buffer() did the closing |
| ReadLoop.AfterClosing | aiofastnet/ssl_transport.pyx:441-500 | Whatever follows the round in which the connection is closed is said to a closed protocol |
| ReadLoop.AbortInDataReceived | aiofastnet/ssl_transport.pyx:471-500 | abort() in the first data_received of more than 256 KB: the rest is delivered all the same |
| ReadLoop.AbortInBufferUpdated | aiofastnet/ssl_transport.pyx:441-469 | abort() in buffer_updated with more than one buffer pending: get_buffer and buffer_updated are called again |
| Requests.QueuedSnoc | aiofastnet/transport.pyx:1037-1039 | Appending a request appends exactly its bytes |
| Requests.EndsAtSnoc | aiofastnet/transport.pyx:827-836 | Appending keeps the place where every waiting range ends |
| Requests.TransmittedIsAll | aiofastnet/transport.pyx:975-1008 | When no file ended early, all that left the queue is on the wire, in order |
| Requests.TransmittedOnWire | aiofastnet/transport.pyx:870-890 | Sending extends wire and stream by the same bytes |
| Requests.TransmittedPastEof | aiofastnet/transport.pyx:975-1008 | Bytes past the end of a file count in the stream but not on the wire |
| Requests.AvailableRange | aiofastnet/transport.pyx:135-185 | Refused iff the offset is negative, the count not positive or the file not regular; otherwise the largest range inside the file and the count |
| Buffers.MaybeCopyBuffer | aiofastnet/utils.pyx:369-383 | The result is frozen with the content of this moment, and aliases only frozen buffers |
| Buffers.TailIsRest | aiofastnet/utils.pyx:390-405 | The tail helper yields exactly the unsent rest, aliased or copied |
| Buffers.Isolation | aiofastnet/utils.pyx:369-383 | Whatever is later written to the caller's memory, the queued bytes are those of call time |
| Kernel.Descriptor.Write | aiofastnet/utils.pyx:530-554 | A positive count, a full buffer or an exception; interrupted calls are repeated and nothing is sent twice |
| Kernel.Descriptor.Writev | aiofastnet/utils.pyx:578-608 | The same for the concatenation of the buffers |
| Kernel.Descriptor.Read | aiofastnet/utils.pyx:473-491 | Data, end of stream, nothing yet or an exception |
| Watermarks.WriteWatermarks.MaybePauseProtocol | aiofastnet/transport.pyx:204-219 | Pauses exactly when above the high mark and not paused; calls alternate |
| Watermarks.WriteWatermarks.MaybeResumeProtocol | aiofastnet/transport.pyx:221-234 | Resumes exactly when paused and at or below the low mark |
| Watermarks.LimitsAccepted | aiofastnet/transport.pyx:236-248 | The derived limits pass high >= low >= 0 iff the given ones are not negative and in order |
| Watermarks.WriteWatermarks.SetWriteBufferLimits | aiofastnet/transport.pyx:199-248 | Accepted iff the given limits are not negative and in order; then the flag fits the new marks with at most one callback, else nothing changes |
| StaticMemBio.Bio.Run | aiofastnet/static_mem_bio.c:58-270 | Any sequence of operations without a reset: bytes out ++ window == bytes in, both only growing |
| StaticMemBio.Bio.Read | aiofastnet/static_mem_bio.c:58-93 | The oldest bytes, as many as fit, the rest of the target untouched; retry flags on an empty buffer |
| StaticMemBio.Bio.Write | aiofastnet/static_mem_bio.c:95-130 | The longest prefix that fits behind the cursor; -1 and a retry flag when none does |
| StaticMemBio.Bio.GetWriteBuf | aiofastnet/static_mem_bio.c:197-221 | Compaction keeps the contents and happens only at the end of the storage; zero space iff the buffer holds its full capacity |
| StaticMemBio.Bio.Produce | aiofastnet/static_mem_bio.c:223-244 | Publishes the stored bytes, or fails without any change |
| StaticMemBio.Bio.Consume | aiofastnet/static_mem_bio.c:246-271 | Drops the oldest bytes, or fails without any change |
| StaticMemBio.Bio.Reset | aiofastnet/static_mem_bio.c:147-195 | Forgets the window and only the window |
| StaticMemBio.Bio.Eof | aiofastnet/static_mem_bio.c:147-195 | True iff everything put in has been taken out |
| Engine.SslEngine.Write | aiofastnet/ssl_engine_direct.pyx:589-640 | NONE iff everything was taken, a prefix otherwise; the bytes OpenSSL wants repeated start the rest; a refusal on an empty BIO uses up a stall |
| Engine.SslEngine.Read | aiofastnet/ssl_engine_direct.pyx:546-587 | Returns the next plaintext in order; NONE iff the buffer is full |
| Engine.SslEngine.DoHandshake | aiofastnet/ssl_engine_direct.pyx:501-519 | Complete, waiting or an exception, only adding ciphertext |
| Engine.SslEngine.Shutdown | aiofastnet/ssl_engine_direct.pyx:521-544 | The same for close_notify, counted |
| Tls.SslTransport.Promises | aiofastnet/ssl_transport.pyx:299-877 | Both pipelines conserve their bytes, also after a forced close; waiting ciphertext has a wake-up, and waiting plaintext too unless something was written before the handshake was over; the writer is registered iff the kernel still owes room; until closing the protocol has got exactly what was read from the engine, in order, and later only disjoint pieces of that, in order; it sees grammatical, well-timed calls that start with connection_made; hysteresis; timers guard every waiting state; close_notify comes last |
| Tls.SslTransport.Run | aiofastnet/ssl_transport.pyx:932-1279 | Any run of events keeps the boundary invariant; closing never ends, nothing is accepted while closing, WRAPPED is not re-entered; what was written early is fixed when the handshake ends, without it waiting plaintext always has a wake-up, and past the handshake a queue that has one keeps one |
| Tls.SslTransport.PublicRun | aiofastnet/ssl_transport.pyx:932-1279 | With a transport that is handed out no earlier than in connection_made, waiting plaintext has a wake-up after every run |
| Tls.SslTransport.NextEvent | aiofastnet/ssl_transport.pyx:932-1279 | The same for each single event |
| Tls.SslTransport.constructor | aiofastnet/ssl_transport.pyx:951-1014 | A new transport waits for its handshake with the timer armed |
| Tls.SslTransport.SetState | aiofastnet/ssl_transport.pyx:299-320 | Switches exactly along the allowed edges |
| Tls.SslTransport.FlushOutgoingBio | aiofastnet/ssl_transport.pyx:1071-1103 | True iff the BIO is empty and more may be sent; ciphertext remains only behind a short write with the writer registered |
| Tls.SslTransport.EnsureWriter | aiofastnet/ssl_transport.pyx:1118-1126 | Registers the writer unless finished |
| Tls.SslTransport.WriteImpl | aiofastnet/ssl_transport.pyx:804-824 | Encrypted bytes and the tail make up the data; a tail has a reason to wait; the retry loop terminates; SSL_write is retried with the same bytes |
| Tls.SslTransport.Write | aiofastnet/ssl_transport.pyx:707-727 | Accepts exactly the buffer's content at call time unless closing, and keeps no reference to memory the caller may change; queued data goes first; waiting data keeps its wake-up; an empty queue is tried at once |
| Tls.SslTransport.WriteC | aiofastnet/ssl_transport.pyx:693-705 | The same for bytes behind a pointer into memory the caller reuses |
| Tls.SslTransport.AppendToBacklog | aiofastnet/ssl_transport.pyx:653-659 | The queue grows by the content of this moment, copied if the buffer is mutable |
| Tls.SslTransport.WriteLines | aiofastnet/ssl_transport.pyx:729-764 | The same as Write for the concatenation of a list of buffers |
| Tls.SslTransport.EncryptLines | aiofastnet/ssl_transport.pyx:729-764 | Lines go to the engine until one leaves a tail; from there on they queue in order |
| Tls.SslTransport.EncryptBacklog | aiofastnet/ssl_transport.pyx:766-802 | Items go to the engine in order; the first one left over stays as its tail, with a reason to wait |
| Tls.SslTransport.FlushWriteBacklog | aiofastnet/ssl_transport.pyx:766-802 | Really offers queued plaintext in WRAPPED and FLUSHING and leaves none without a wake-up |
| Tls.SslTransport.DoHandshake | aiofastnet/ssl_transport.pyx:349-369 | Ends past the handshake or waiting for the peer or the socket |
| Tls.SslTransport.HandshakeDone | aiofastnet/ssl_transport.pyx:371-396 | Only after a complete handshake: WRAPPED and connection_made, or an exception |
| Tls.SslTransport.DoRead | aiofastnet/ssl_transport.pyx:424-439 | Unless paused, the loop that fits the protocol reads until OpenSSL has nothing more or must first send, and no queued plaintext is left asleep |
| Tls.SslTransport.DoReadCopied | aiofastnet/ssl_transport.pyx:471-500 | The copying loop terminates, and what it says to the protocol is exactly a complete conversation of ReadLoop, cut short only by an exception |
| Tls.SslTransport.DoReadBuffered | aiofastnet/ssl_transport.pyx:441-469 | The same for the buffer protocol |
| Tls.SslTransport.Deliver | aiofastnet/ssl_transport.pyx:441-500 | The chunk reaches the protocol in one callback that records whether reading is paused or the connection closing, before and after |
| Tls.SslTransport.CallGetBuffer | aiofastnet/ssl_transport.pyx:441-469 | get_buffer() is never called while paused; the state is recorded before the call and after it, and the chunk may then be delivered whatever it did |
| Tls.SslTransport.TakeChunk | aiofastnet/ssl_transport.pyx:441-500 | The protocol gets the next plaintext of the engine, no more than the room, and nothing else, closing or not |
| Tls.SslTransport.ShouldRetryRead | aiofastnet/ssl_transport.pyx:502-514 | Retries only after the BIO has been emptied; otherwise the reason for stopping is known |
| Tls.SslTransport.StartShutdown | aiofastnet/ssl_transport.pyx:516-527 | Aborts a handshake, starts flushing when connected, does nothing later |
| Tls.SslTransport.DoReadIntoVoid | aiofastnet/ssl_transport.pyx:553-565 | Discards input, produces no ciphertext, terminates |
| Tls.SslTransport.DoFlush | aiofastnet/ssl_transport.pyx:567-574 | Leaves FLUSHING exactly when nothing is left to send, here or upstream |
| Tls.SslTransport.DoShutdown | aiofastnet/ssl_transport.pyx:576-598 | engine.shutdown is called and the transport is finished or waits for the peer or the socket |
| Tls.SslTransport.CallShutdown | aiofastnet/ssl_transport.pyx:576-598 | The first call comes when all earlier ciphertext is on the wire and, unless forced, all accepted plaintext in it |
| Tls.SslTransport.Close | aiofastnet/ssl_transport.pyx:271-278 | Closing afterwards; idempotent; waiting data keeps its wake-up |
| Tls.SslTransport.Abort | aiofastnet/ssl_transport.pyx:619-622 | Ends UNWRAPPED and finished from any damaged state |
| Tls.SslTransport.HandleError | aiofastnet/ssl_transport.pyx:533-551 | Any exception ends in a valid finished transport, whatever it was doing |
| Tls.SslTransport.ProcessEof | aiofastnet/ssl_transport.pyx:624-641 | A raw end of stream finishes the transport without any engine.shutdown call of its own |
| Tls.SslTransport.IncomingBioUpdated | aiofastnet/ssl_transport.pyx:643-651 | In every state what can be done with new input is done |
| Tls.SslTransport.CallProtocolEofReceived | aiofastnet/ssl_transport.pyx:848-853 | At most once, and only while connected |
| Tls.SslTransport.CallProtocolConnectionMade | aiofastnet/ssl_transport.pyx:826-832 | Connected afterwards unless finished; once, and only after a complete handshake |
| Tls.SslTransport.CallProtocolConnectionLost | aiofastnet/ssl_transport.pyx:842-846 | connection_lost exactly when the protocol was connected |
| Tls.SslTransport.SetWriteBufferLimits | aiofastnet/ssl_transport.pyx:1059-1062 | Refused limits change nothing; accepted ones keep the hysteresis |
| Tls.SslTransport.ReadReadyRound | aiofastnet/ssl_transport.pyx:1217-1240 | Reads unless paused, even on a connection that has been given up during this cycle; another round only after a full read |
| Tls.SslTransport.ReadReady | aiofastnet/ssl_transport.pyx:1202-1244 | Keeps the boundary invariant; reads less than the budget plus the room of the incoming BIO; past the handshake the engine is asked for input iff something was received; asks the socket unless paused or finished; an end of stream finishes the transport |
| Tls.SslTransport.WriteReady | aiofastnet/ssl_transport.pyx:1137-1168 | Keeps the boundary invariant; queued plaintext is offered first, then the state's own work; during the handshake the queue is not touched |
| Tls.SslTransport.StrandEarlyWrite | aiofastnet/ssl_transport.pyx:1137-1168 | From the first byte that waits, over any events and calls, through the handshake and past it: the queue has only grown and sleeps iff the engine did not want input and no writer is registered, or it has a wake-up again |
| Tls.SslTransport.SleepOn | aiofastnet/ssl_transport.pyx:424-439 | Past the handshake a sleeping queue sleeps on in any run, with everything accepted meanwhile behind it, iff the engine is not asked for input |
| Tls.SslTransport.LaterBytesSleepToo | aiofastnet/ssl_transport.pyx:707-727 | pause_reading(), a write, the retry and resume_reading() leave such a queue asleep, with the new bytes in it and the engine untouched |
| Tls.SslTransport.LoseWakeUp | aiofastnet/ssl_transport.pyx:1137-1168 | With any environment: a write during the handshake leaves its queue awake, and the next _write_ready puts it to sleep iff the engine did not want input and the socket has taken everything |
| Tls.Rehearsal | aiofastnet/ssl_transport.pyx:1137-1168 | A whole run from the constructor to a connected transport on which everything written sleeps, without conditions |
| Tls.SslTransport.RetrySslRead | aiofastnet/ssl_transport.pyx:337-347 | The scheduled retry wakes whatever was queued early, unless reading is paused; then it changes nothing |
| Tls.SslTransport.CheckHandshakeTimeout | aiofastnet/ssl_transport.pyx:328-335 | Gives up a handshake that still goes on, and does nothing else |
| Tls.SslTransport.CheckShutdownTimeout | aiofastnet/ssl_transport.pyx:529-531 | Cuts short a shutdown that still goes on, and does nothing else |
| Tls.SslTransport.FinalizeClose | aiofastnet/ssl_transport.pyx:1264-1279 | Disconnected and detached afterwards, with the invariant kept |
| Tls.SslTransport.StartHandshake | aiofastnet/ssl_transport.pyx:1000-1016 | Construction ends at the boundary, or with an exception that leaves no reader, no writer, no handshake timer and no socket behind; the shutdown timer survives iff the transport is shutting down, and if it was aborted as well, only then |
| Fallback.Budget | aiofastnet/ssl_engine_fallback.pyx:145-163 | Zero iff the hint is used up; else the room below it rounded up to whole records |
| Fallback.WriteStaysBelow | aiofastnet/ssl_engine_fallback.pyx:145-190 | A write within the budget stays below hint + 16383 + overhead per record |
| Fallback.FallbackEngine.Write | aiofastnet/ssl_engine_fallback.pyx:145-190 | Offers whole records up to the budget and accepts a prefix of that, NONE iff all; below the hint a refusal uses up a stall |
| Fallback.FallbackEngine.Read | aiofastnet/ssl_engine_fallback.pyx:105-143 | Fills the buffer in order, NONE iff full, and asks for input when there is none |
| Fallback.TlsLayer.WriteImpl | aiofastnet/ssl_transport.pyx:804-824 | Flush and retry terminates, because each retry takes a byte or uses up a stall; only WANT_READ leaves a tail |
| Fallback.TlsLayer.FlushOutgoingBio | aiofastnet/ssl_transport.pyx:1561-1578 | Everything pending goes downstream, in order |
| Fallback.TlsLayer.Run | aiofastnet/ssl_transport.pyx:1530-1578 | Every run keeps the pending ciphertext below the bound and downstream ++ pending == emitted |
| Interleave.InterleaveAddrinfos | aiofastnet/api_create_connection.py:239-258 | A permutation that keeps each family's order; the first min(count, n) entries are the first family's; then turns never go back and ties follow the order of first appearance; IndexError iff the list is empty and the count above one |
| Interleave.ZipLongest | aiofastnet/api_create_connection.py:254-257 | Equals everybody's first, then everybody's second, and so on |
| Interleave.GroupByFamily | aiofastnet/api_create_connection.py:241-248 | One list per family in order of first appearance, holding exactly that family's addresses in order |
| Interleave.RoundsOf | aiofastnet/api_create_connection.py:254-257 | Taking turns loses nothing and reorders nothing within a family |
| Interleave.RoundsAreFair | aiofastnet/api_create_connection.py:254-257 | The i-th address of each family precedes the (i+1)-th of any other |
| Interleave.SameOfSameBag | aiofastnet/api_create_connection.py:239-258 | Equal sublists for every family make a permutation |
| UnixAddress.SetUnixSockaddr | aiofastnet/utils.pyx:219-240 | Accepts exactly unnamed, abstract and NUL-free shorter paths; fills the whole storage; a refusal leaves it alone; the length stays in bounds |
| UnixAddress.SockaddrToPyaddr | aiofastnet/utils.pyx:280-296 | Decodes as text up to the first NUL, or as bytes when abstract |
| UnixAddress.Strnlen | aiofastnet/utils.pyx:242-250 | Finds the C string within a bound |
| UnixAddress.RoundTrip | aiofastnet/utils.pyx:219-296 | Every accepted path comes back from its address |
| UnixAddress.Injective | aiofastnet/utils.pyx:219-240 | Different accepted paths have different addresses |
| UnixAddress.Reencode | aiofastnet/utils.pyx:219-296 | A decoded address can be encoded again iff its name has fewer than 108 bytes or is an abstract one of 108, and then means the same |
| UnixAddress.FullPathnameIsRefused | aiofastnet/utils.pyx:219-296 | A pathname of 108 bytes without a NUL is decoded but not encoded |

## Left out

- kTLS and socket BIOs, and with them sendfile on the TLS transport (`_try_sendfile`, `SSL_sendfile`): foreign calls.
- The incoming BIO of the TLS transport: arriving records are modelled by the plaintext they decrypt to; the BIO itself is the class StaticMemBio.Bio.
- TLS 1.2 renegotiation and engine reads that emit ciphertext: the wake-up invariant needs reads that produce no output, as the source assumes.
- SSLTransport_Transport beyond its write path: its read side and lifecycle delegate to the transport below.
- Prompt redelivery after `resume_reading` on the TLS transport: `_read_ready` returns on EAGAIN before it looks at data left in the engine, so nothing is claimed.
- The handshake waiter future, certificates, ALPN, channel bindings and hostname checks: foreign calls or plain delegation.
- Calls into the transport from pause_writing and resume_writing: assumed not to re-enter the write path.
- Protocols that buffer upstream, on the stream transport; on the TLS transport their size is the field `upstream`, and the hysteresis is promised only without them.
- Requests are values that the queue replaces, not objects updated in place; nobody else holds them, so aliasing is not at stake.
- Memoryviews with items wider than a byte, and the clips to LONG_MAX and INT_MAX inside the BIO's control calls.
- Endless interruptions and endless demands for output space: signals interrupt finitely many system calls, and OpenSSL asks for output space with an empty BIO only finitely often; without this the source's own retry loops would not end.
- Thread-affinity checks, logging, repr, `__del__` warnings, and the routing of KeyboardInterrupt and SystemExit.
- Datagram, pipe and proactor transports, Server, DNS, Happy Eyeballs scheduling and the streams API: smaller copies of the same arguments, or delegation.
- AF_INET and AF_INET6 addresses (foreign calls), text encoding of file names, and the BSD length byte of a sockaddr_un.
- Fallback handshake and shutdown output: the bound is about runs of application data, and WANT_WRITE from an unbounded MemoryBIO is limited to finitely many times.
- Stream.StreamTransport.WriteReady: an exception from shutdown(2) after the queue has drained escapes to the event loop, as in the source; the method returns it and promises nothing more about it.
