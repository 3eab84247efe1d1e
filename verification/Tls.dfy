/** SSLTransport_Socket of ssl_transport.pyx over memory BIOs: plaintext backlog, TLS engine, outgoing BIO, socket. */
module Tls {
  import opened Prelude
  import opened Buffers
  import opened Engine
  import opened Kernel
  import opened Lifecycle
  import opened ReadLoop
  import opened Watermarks
  import opened StaticMemBio

  datatype State = UNWRAPPED | DO_HANDSHAKE | WRAPPED | FLUSHING | SHUTDOWN

  const MAX_READ_BYTES_PER_CYCLE_HINT: nat := DATA_RECEIVED_MAX_SIZE
  const VOID_BUFFER_SIZE: nat := 16 * 1024

  /** The switches that _set_state admits, as a table. */
  predicate Allowed(from: State, to: State) {
    to == UNWRAPPED || (from, to) in {
      (UNWRAPPED, DO_HANDSHAKE), (DO_HANDSHAKE, WRAPPED),
      (WRAPPED, FLUSHING), (WRAPPED, SHUTDOWN), (WRAPPED, DO_HANDSHAKE), (FLUSHING, SHUTDOWN)
    }
  }

  /** How far a connection has come. */
  function Rank(s: State): (r: nat)
    ensures r <= 4
  {
    match s
    case DO_HANDSHAKE => 0
    case WRAPPED => 1
    case FLUSHING => 2
    case SHUTDOWN => 3
    case UNWRAPPED => 4
  }

  /** What the world looked like when SSL_shutdown was called for the first time. */
  datatype Snapshot = Snapshot(wire: seq<byte>, cipher: seq<byte>, plain: seq<byte>, accepted: seq<byte>, forced: bool)

  ghost predicate Nonempty(backlog: seq<seq<byte>>) {
    forall i :: 0 <= i < |backlog| ==> backlog[i] != []
  }

  /** The receiving side: plaintext still to be read, how often the engine was asked for it, what the protocol has got,
      what was read from the socket and how often, and the answers to do_handshake. */
  datatype Input = Input(
    inbound: nat,
    readings: nat,
    calls: seq<Callback<byte>>,
    received: nat,
    polls: nat,
    ended: bool,
    handshakes: seq<Verdict>
  )

  ghost predicate InputGrows(a: Input, b: Input) {
    && a.readings <= b.readings && a.calls <= b.calls && a.polls <= b.polls && (a.ended ==> b.ended)
    && a.handshakes <= b.handshakes && a.received <= b.received
  }

  /** No input arrives and no handshake goes on. */
  ghost predicate InputShrinks(a: Input, b: Input) {
    && a.readings <= b.readings && a.calls <= b.calls && b.inbound <= a.inbound
    && a.polls == b.polls && a.ended == b.ended && a.handshakes == b.handshakes && a.received == b.received
  }

  /** What an observer may remember of a transport; `early` bytes were accepted before the handshake was over, and
      `earlyWrite` tells whether any of them still wait for their first chance to be encrypted. */
  datatype View = View(
    accepted: seq<byte>,
    early: nat,
    earlyWrite: bool,
    wire: seq<byte>,
    rank: nat,
    closing: bool,
    finalizing: bool,
    detached: bool,
    connected: bool,
    eofReceived: bool,
    firstShutdown: Option<Snapshot>,
    rawEof: Option<nat>,
    handshakeTimer: bool,
    input: Input
  )

  /** How far a connection has come before an event. */
  datatype Progress = Progress(
    state: State,
    readPaused: bool,
    backlogSize: int,
    readings: nat,
    handshakes: nat,
    shutdowns: nat,
    writes: nat
  )

  /** `b` can be seen after `a`, from one event to the next: nothing written is forgotten, nothing closed reopens. */
  ghost predicate Onward(a: View, b: View) {
    && a.accepted <= b.accepted
    && a.wire <= b.wire
    && a.rank <= b.rank
    && (a.closing ==> b.closing && b.accepted == a.accepted)
    && (a.finalizing ==> b.finalizing)
    && (a.detached ==> b.detached)
    && (a.connected && !b.connected ==> b.finalizing)
    && (a.eofReceived ==> b.eofReceived)
    && (a.firstShutdown.Some? ==> b.firstShutdown == a.firstShutdown)
    && (a.rawEof.Some? ==> b.rawEof == a.rawEof)
    && (b.handshakeTimer ==> a.handshakeTimer)
    && a.early <= b.early && (a.closing ==> b.early == a.early)
    && (a.rank >= 1 ==> b.early == a.early && (b.earlyWrite ==> a.earlyWrite))
    && InputGrows(a.input, b.input)
  }

  /** The same within one event: no input arrives, and the protocol is neither connected nor disconnected. */
  ghost predicate Draws(a: View, b: View) {
    && Onward(a, b)
    && a.connected == b.connected && a.detached == b.detached && a.rawEof == b.rawEof
    && InputShrinks(a.input, b.input)
  }

  /** And the protocol gets nothing; the only callback that can happen meanwhile is eof_received. */
  ghost predicate Leads(a: View, b: View) {
    && Draws(a, b)
    && b.input.calls == a.input.calls + if b.eofReceived && !a.eofReceived then [EofReceived] else []
  }

  /** `Leads` is an order; from a fixed beginning it accumulates over any number of steps. */
  lemma LeadsFrom(a: View)
    ensures Leads(a, a)
    ensures forall b, c :: Leads(a, b) && Leads(b, c) ==> Leads(a, c)
    ensures forall b :: Leads(a, b) ==>
              && a.rank <= b.rank && (a.finalizing ==> b.finalizing) && (a.eofReceived ==> b.eofReceived)
              && a.connected == b.connected && a.detached == b.detached && a.rawEof == b.rawEof
              && (b.handshakeTimer ==> a.handshakeTimer) && InputShrinks(a.input, b.input)
  {
  }

  lemma DrawsFrom(a: View)
    ensures Draws(a, a)
    ensures forall b, c :: Draws(a, b) && Draws(b, c) ==> Draws(a, c)
    ensures forall b, c :: Draws(a, b) && Leads(b, c) ==> Draws(a, c)
    ensures forall b :: Leads(a, b) ==> Draws(a, b)
    ensures forall b :: Draws(a, b) ==> Onward(a, b)
    ensures forall b :: Draws(a, b) ==>
              && a.rank <= b.rank && (a.finalizing ==> b.finalizing) && (a.closing ==> b.closing)
              && (a.eofReceived ==> b.eofReceived)
              && a.connected == b.connected && a.detached == b.detached && a.rawEof == b.rawEof
              && (b.handshakeTimer ==> a.handshakeTimer) && InputShrinks(a.input, b.input)
  {
  }

  lemma OnwardFrom(a: View)
    ensures Onward(a, a)
    ensures forall b, c :: Onward(a, b) && Onward(b, c) ==> Onward(a, c)
    ensures forall b, c :: Onward(a, b) && Leads(b, c) ==> Onward(a, c)
    ensures forall b :: Onward(a, b) ==>
              && a.rank <= b.rank && (a.finalizing ==> b.finalizing) && InputGrows(a.input, b.input)
              && (b.handshakeTimer ==> a.handshakeTimer)
  {
  }

  lemma EarlyIsFixed(a: View, b: View)
    requires Onward(a, b) && (a.rank >= 1 || a.closing)
    ensures b.early == a.early
  {
  }

  /** The steps that only an event takes: input arrives, the protocol is connected or disconnected. */
  lemma OnwardByEvent(a: View, b: View)
    requires b == a.(input := b.input, connected := b.connected, detached := b.detached, rawEof := b.rawEof,
                     rank := b.rank, closing := b.closing, finalizing := b.finalizing,
                     handshakeTimer := b.handshakeTimer)
    requires (b.handshakeTimer ==> a.handshakeTimer)
    requires a.rank <= b.rank && (a.closing ==> b.closing) && (a.finalizing ==> b.finalizing)
              && (a.detached ==> b.detached)
    requires InputGrows(a.input, b.input)
    requires (a.connected && !b.connected ==> b.finalizing) && (a.rawEof.Some? ==> b.rawEof == a.rawEof)
    ensures Onward(a, b)
  {
  }

  lemma LeadsByWriting(a: View, b: View)
    requires b == a.(accepted := b.accepted, wire := b.wire, early := b.early, earlyWrite := b.earlyWrite)
    requires a.accepted <= b.accepted && a.wire <= b.wire && a.early <= b.early
    requires a.rank >= 1 ==> b.early == a.early && (b.earlyWrite ==> a.earlyWrite)
    requires a.closing ==> b.accepted == a.accepted && b.early == a.early
    ensures Leads(a, b)
  {
  }

  lemma LeadsByClosing(a: View, b: View)
    requires b == a.(rank := b.rank, closing := b.closing, finalizing := b.finalizing,
                     handshakeTimer := b.handshakeTimer)
    requires (b.handshakeTimer ==> a.handshakeTimer)
    requires a.rank <= b.rank && (a.closing ==> b.closing) && (a.finalizing ==> b.finalizing)
    ensures Leads(a, b)
  {
  }

  lemma LeadsByShutdown(a: View, b: View)
    requires b == a.(firstShutdown := b.firstShutdown) && (a.firstShutdown.Some? ==> b.firstShutdown == a.firstShutdown)
    ensures Leads(a, b)
  {
  }

  lemma LeadsByReading(a: View, b: View)
    requires b == a.(input := b.input) && InputShrinks(a.input, b.input) && b.input.calls == a.input.calls
    ensures Leads(a, b)
  {
  }

  lemma LeadsByEof(a: View, b: View)
    requires !a.eofReceived && b == a.(input := a.input.(calls := a.input.calls + [EofReceived]), eofReceived := true)
    ensures Leads(a, b)
  {
  }

  lemma DrawsByCallback(a: View, b: View)
    requires b == a.(input := a.input.(calls := b.input.calls)) && a.input.calls <= b.input.calls
    ensures Draws(a, b)
  {
  }

  /** What a rehearsal is about. */
  datatype Scene = Scene(
    backlog: seq<seq<byte>>,
    accepted: seq<byte>,
    registered: bool,
    hadEagain: bool,
    finalizing: bool,
    heard: bool,
    plain: seq<byte>,
    lastWrite: Verdict,
    stalls: nat,
    roomy: bool
  )

  /** What decides about plaintext that waits; it is awake if there is a reason to try again. */
  datatype Held = Held(
    rank: nat,
    finalizing: bool,
    readings: nat,
    plain: seq<byte>,
    lastWrite: Verdict,
    backlog: seq<seq<byte>>,
    awake: bool
  )

  /** The queue has not been offered to the engine, nor has the engine been asked for input; more may have been queued. */
  ghost predicate Untouched(a: Held, b: Held) {
    && b.rank <= 1 && b.readings == a.readings
    && b.plain == a.plain && b.lastWrite == a.lastWrite && a.backlog <= b.backlog
  }

  /** What can become of waiting plaintext: nothing at all, or it is awake; and past the handshake what is awake stays
      awake, and what sleeps sleeps on until the engine is asked for input. */
  ghost predicate Rests(a: Held, b: Held) {
    && (a.finalizing ==> b.finalizing)
    && (!b.finalizing ==>
          && a.rank <= b.rank && a.readings <= b.readings
          && (a.rank >= 1 && a.awake ==> b.awake)
          && (a.rank <= 1 && a.backlog != [] ==> Untouched(a, b) || (b.rank >= 1 && b.awake))
          && (a.rank == 1 && a.backlog != [] && !a.awake && b.readings == a.readings ==> Untouched(a, b) && !b.awake))
  }

  lemma RestsFrom(a: Held)
    ensures Rests(a, a)
    ensures forall b, c :: Rests(a, b) && Rests(b, c) ==> Rests(a, c)
    ensures forall b :: Rests(a, b) ==> (a.finalizing ==> b.finalizing)
  {
  }

  /** A queue without anything in it. */
  lemma RestsFromNothing(a: Held, b: Held)
    requires a.backlog == [] && a.rank <= b.rank && a.readings <= b.readings && (a.finalizing ==> b.finalizing)
    requires a.rank >= 1 && a.awake && !b.finalizing ==> b.awake
    ensures Rests(a, b)
  {
  }

  /** Something is added to what waits. */
  lemma RestsByQueueing(a: Held, b: Held)
    requires b == a.(backlog := b.backlog) && a.backlog <= b.backlog
    ensures Rests(a, b)
  {
  }

  /** The engine is asked for input, and the queue is looked at after that. */
  lemma RestsByReading(a: Held, b: Held)
    requires a.rank <= b.rank && a.readings < b.readings && (a.finalizing ==> b.finalizing)
    requires !b.finalizing ==> b.rank >= 1 && b.awake
    ensures Rests(a, b)
  {
  }

  /** What is awake past the handshake. */
  lemma RestsAwake(a: Held, b: Held)
    requires a.rank >= 1 && a.awake && a.rank <= b.rank && a.readings <= b.readings && (a.finalizing ==> b.finalizing)
    requires !b.finalizing ==> b.awake
    ensures Rests(a, b)
  {
  }

  /** During the handshake it does not matter whether the kernel owes room, before or after. */
  lemma RestsInHandshake(a: Held, b: Held, c: Held, d: Held)
    requires a.rank == 0 && b == a.(awake := b.awake) && Rests(b, c) && d == c.(awake := d.awake) && (c.awake ==> d.awake)
    ensures Rests(a, d)
  {
  }

  lemma NothingFlat(backlog: seq<seq<byte>>)
    requires Nonempty(backlog)
    ensures backlog == [] || |Flatten(backlog)| > 0
  {
    if backlog != [] {
      assert backlog[0] != [];
    }
  }

  lemma NoLines(a: seq<byte>, lines: seq<seq<byte>>)
    ensures a + Flatten(lines[..0]) == a
  {
  }

  lemma LinesStep(a: seq<byte>, lines: seq<seq<byte>>, n: nat)
    requires n < |lines|
    ensures a + Flatten(lines[..n + 1]) == (a + Flatten(lines[..n])) + lines[n]
  {
    assert lines[..n + 1] == lines[..n] + [lines[n]];
    FlattenSnoc(lines[..n], lines[n]);
  }

  lemma FlattenFrom(backlog: seq<seq<byte>>, n: nat)
    requires n < |backlog|
    ensures Flatten(backlog[n..]) == backlog[n] + Flatten(backlog[n + 1..])
  {
    assert backlog[n..][1..] == backlog[n + 1..];
  }

  class SslTransport {
    const eng: SslEngine
    const sock: Descriptor<byte>
    const marks: WriteWatermarks
    // An aiofastnet protocol on top buffers data of its own.
    const layered: bool
    // The room in the incoming BIO.
    const incomingSize: nat
    // A rehearsed application pauses reading in every callback, and does nothing else.
    const rehearsed: bool

    var state: State
    var backlog: seq<seq<byte>>
    var backlogSize: int
    // Some system write has come back short since _write_ready last started.
    var hadEagain: bool
    // The loop calls _write_ready when the socket becomes writable.
    var registered: bool
    var readPaused: bool
    var readerAdded: bool
    var protocolBuffered: bool
    var connected: bool
    var eofReceived: bool
    var finalizing: bool
    // _finalize_close has run: socket, protocol and loop are gone.
    var detached: bool
    var handshakeTimer: bool
    var shutdownTimer: bool
    var closedWrites: nat
    // How much such a protocol still holds.
    var upstream: nat

    // Plaintext accepted from write, writelines and write_c, in call order.
    ghost var accepted: seq<byte>
    // How much of it was accepted while the handshake was going on.
    ghost var early: nat
    // Where in what the engine has returned each delivered chunk begins.
    ghost var places: seq<nat>
    // The callbacks made on the protocol.
    ghost var calls: seq<Callback<byte>>
    // Data was queued before the handshake was complete and has not been offered to the engine since.
    ghost var earlyWrite: bool
    ghost var firstShutdown: Option<Snapshot>
    // A raw end of stream has ended the connection, after so many SSL_shutdown calls.
    ghost var rawEof: Option<nat>

    // ---------------------------------------------------------------- invariants

    /** Ciphertext conservation and the registration protocol. */
    ghost predicate Wires()
      reads this`finalizing, this`registered, this`hadEagain, eng.outgoing, eng.outgoing.buf, sock`wire, sock`full, marks
    {
      && eng.Valid() && marks.Valid()
      && sock.wire == eng.outgoing.got
      && (finalizing ==> !registered)
      && (hadEagain && !finalizing ==> registered)
      && (hadEagain <==> sock.full)
    }

    /** Every waiting state is guarded by its timer, and only a complete handshake leads past DO_HANDSHAKE. */
    ghost predicate Guarded()
      reads this`state, this`finalizing, this`handshakeTimer, this`shutdownTimer, this`detached, this`connected,
            eng.inbox`handshakes
    {
      && (state == UNWRAPPED ==> finalizing)
      && (state == DO_HANDSHAKE && !finalizing ==> handshakeTimer)
      && (state in {FLUSHING, SHUTDOWN} && !finalizing ==> shutdownTimer)
      && (shutdownTimer ==> Rank(state) >= 2)
      && (detached ==> finalizing)
      && (!finalizing && (connected || 1 <= Rank(state) <= 3) ==> Answer(NONE) in eng.inbox.handshakes)
    }

    /** Plaintext conservation, size accounting, and the repeat-the-same-bytes rule of SSL_write. */
    ghost predicate Plain()
      reads this`finalizing, this`backlog, this`backlogSize, this`accepted, this`early, eng`plain, eng`unfinished
    {
      if finalizing then
        backlogSize == 0 && eng.plain <= accepted
      else
        && eng.plain + Flatten(backlog) == accepted
        && backlogSize == |Flatten(backlog)|
        && Nonempty(backlog)
        && (eng.unfinished.Some? ==> backlog != [] && eng.unfinished.value <= backlog[0])
    }

    /** Plaintext conservation while the first items are already in the engine but not yet out of the list. */
    ghost predicate PlainFrom(completed: nat)
      reads this`backlog, this`backlogSize, this`accepted, this`early, eng`plain, eng`unfinished
    {
      && completed <= |backlog|
      && eng.plain + Flatten(backlog[completed..]) == accepted
      && backlogSize == |Flatten(backlog[completed..])|
      && Nonempty(backlog[completed..])
      && (eng.unfinished.Some? ==> completed < |backlog| && eng.unfinished.value <= backlog[completed])
    }

    /** close_notify comes last, and after a raw end of stream not at all. */
    ghost predicate Ordered()
      reads this`state, this`rawEof, this`firstShutdown, eng`shutdowns, eng.outgoing`rptr, eng.outgoing`wptr
    {
      && (Rank(state) < 3 ==> eng.shutdowns == 0)
      && (state == SHUTDOWN && eng.shutdowns == 0 && rawEof.None? ==> eng.outgoing.IsEmpty())
      && (rawEof.Some? ==> Rank(state) >= 3 && eng.shutdowns == rawEof.value)
      && (firstShutdown.Some? <==> eng.shutdowns > 0)
      && (firstShutdown.Some? ==>
            && firstShutdown.value.wire == firstShutdown.value.cipher
            && (!firstShutdown.value.forced ==> firstShutdown.value.plain == firstShutdown.value.accepted))
    }

    /** Until the connection closes, the protocol has got exactly what was read, in order. */
    ghost predicate Inbound()
      reads this`state, this`finalizing, this`calls, eng.inbox`inbound, eng.inbox`arrived, eng.inbox`taken
    {
      eng.inbox.Valid() && (Rank(state) < 2 && !finalizing ==> Delivered(calls) == eng.inbox.taken)
    }

    /** Also when the connection is closing, the protocol gets pieces of what was read, in order and none twice. */
    ghost predicate Pieced()
      reads this`calls, this`places, eng.inbox`taken
    {
      PiecedUpTo(|eng.inbox.taken|)
    }

    ghost predicate PiecedUpTo(n: nat)
      requires n <= |eng.inbox.taken|
      reads this`calls, this`places, eng.inbox`taken
    {
      InPieces(Chunks(calls), places, eng.inbox.taken[..n])
    }

    /** What the queue may hold in each state. */
    ghost predicate Staged()
      reads this`state, this`finalizing, this`backlogSize, this`earlyWrite, this`rawEof
    {
      && (rawEof.Some? ==> finalizing)
      && (state == SHUTDOWN && !finalizing ==> backlogSize == 0)
      && (state == DO_HANDSHAKE && !finalizing && backlogSize != 0 ==> earlyWrite)
    }

    /** The protocol has been called in the right order. */
    ghost predicate Story()
      reads this`calls, this`connected, this`eofReceived, this`finalizing, this`detached
    {
      && Reached(calls).Phase?
      && (connected <==> Reached(calls).made && !Reached(calls).lost)
      && (eofReceived <==> Reached(calls).eof)
      && (Reached(calls).lost ==> finalizing)
      && (detached ==> !connected)
      && WellTimed(calls)
      && (calls != [] ==> calls[0] == ConnectionMade)
    }

    lemma NotMet()
      requires Story() && !connected && !finalizing
      ensures calls == [] && !Reached(calls).made && !Reached(calls).lost
    {
      GrammarMeans(calls);
    }

    lemma Met()
      requires Story() && connected
      ensures calls != [] && Reached(calls).made && !Reached(calls).lost
    {
    }

    /** What was accepted before the handshake was over. */
    ghost predicate Early()
      reads this`state, this`accepted, this`early, this`earlyWrite
    {
      early <= |accepted| && (state == DO_HANDSHAKE ==> early == |accepted|) && (earlyWrite ==> early > 0)
    }

    /** Past the handshake the protocol is connected. */
    ghost predicate Joined()
      reads this`state, this`finalizing, this`connected
    {
      !finalizing && 1 <= Rank(state) <= 3 ==> connected
    }

    /** Flow control, when nobody on top buffers as well. */
    ghost predicate Flow()
      reads this`finalizing, this`backlogSize, marks
    {
      !finalizing && !layered ==> marks.Settled(backlogSize)
    }

    ghost predicate Valid()
      reads this, eng, eng.inbox, eng.outgoing, eng.outgoing.buf, sock, marks
    {
      Wires() && Guarded() && Plain() && Ordered() && Staged() && Inbound() && Flow() && Story() && Early() && Pieced()
      && Joined()
    }

    /** Just past the handshake, before connection_made. */
    ghost predicate Unjoined()
      reads this, eng, eng.inbox, eng.outgoing, eng.outgoing.buf, sock, marks
    {
      Wires() && Guarded() && Plain() && Ordered() && Staged() && Inbound() && Flow() && Story() && Early() && Pieced()
    }

    /** What still holds while an exception is on its way to _handle_error. */
    ghost predicate Hurt()
      reads this, eng, eng.inbox, eng.outgoing, eng.outgoing.buf, sock, marks
    {
      Bare() && Guarded()
    }

    /** What a forced close starts from. */
    ghost predicate Bare()
      reads this, eng, eng.inbox, eng.outgoing, eng.outgoing.buf, sock, marks
    {
      && Wires() && Ordered() && Story() && Early() && Pieced() && eng.inbox.Valid()
      && eng.plain <= accepted
      && (finalizing ==> backlogSize == 0) && (detached ==> finalizing) && (shutdownTimer ==> Rank(state) >= 2)
    }

    ghost predicate After(err: Option<Exn>)
      reads this, eng, eng.inbox, eng.outgoing, eng.outgoing.buf, sock, marks
    {
      if err.None? then Valid() else Hurt()
    }

    /** No ciphertext waits without somebody being told when the socket drains. */
    ghost predicate Flushed()
      reads this`hadEagain, this`finalizing, eng.outgoing
    {
      !eng.outgoing.IsEmpty() ==> hadEagain || finalizing
    }

    /** The last engine write stopped because TLS first needs input. */
    ghost predicate WantedRead()
      reads eng`lastWrite
    {
      eng.lastWrite == Answer(WANT_READ)
    }

    /** No plaintext waits without a reason to try again... */
    ghost predicate Awake()
      reads this`backlogSize, this`finalizing, this`hadEagain, eng`lastWrite
    {
      backlogSize != 0 && !finalizing ==> hadEagain || WantedRead()
    }

    /** ...but for plaintext that was queued too early. */
    ghost predicate Wakes()
      reads this`backlogSize, this`finalizing, this`hadEagain, this`earlyWrite, eng`lastWrite
    {
      Awake() || earlyWrite
    }

    /** The state in which control returns to the event loop. */
    ghost predicate Boundary()
      reads this, eng, eng.inbox, eng.outgoing, eng.outgoing.buf, sock, marks
    {
      Valid() && Flushed() && Wakes() && (!finalizing ==> (registered <==> hadEagain))
    }

    predicate IsClosing()
      reads this`state, this`finalizing
    {
      finalizing || state in {FLUSHING, SHUTDOWN, UNWRAPPED}
    }

    /** The part of the state that only ever moves one way. */
    ghost function Now(): View
      reads this`accepted, this`early, this`state, this`finalizing, this`detached, this`connected, this`eofReceived,
            this`firstShutdown, this`rawEof, this`handshakeTimer, sock`wire, sock`received, sock`polls, sock`ended,
            eng.inbox`inbound, eng.inbox`readings, eng.inbox`handshakes, this`calls, this`early, this`earlyWrite
    {
      View(accepted, early, earlyWrite, sock.wire, Rank(state), IsClosing(), finalizing, detached, connected, eofReceived,
           firstShutdown, rawEof, handshakeTimer,
           Input(|eng.inbox.inbound|, |eng.inbox.readings|, calls, |sock.received|, sock.polls, sock.ended,
                 eng.inbox.handshakes))
    }

    /** A short write stays known and keeps the writer registered. */
    twostate predicate Armed()
      reads this`hadEagain, this`registered
    {
      && (old(hadEagain) ==> hadEagain)
      && (registered && !hadEagain ==> old(registered))
    }

    twostate predicate Sends()
      reads this`hadEagain, this`registered, sock`wire, sock`received, sock`polls, sock`ended
    {
      && Armed() && old(sock.wire) <= sock.wire
      && sock.polls == old(sock.polls) && sock.ended == old(sock.ended) && sock.received == old(sock.received)
    }

    /** A step inside an event: histories are only extended, the connection only moves forward. */
    twostate predicate Grows()
      reads this, sock`wire, sock`received, sock`polls, sock`ended, eng.inbox`inbound,
            eng.inbox`readings, eng.inbox`handshakes
    {
      Armed() && Leads(old(Now()), Now())
    }

    /** The same when the protocol may get chunks. */
    twostate predicate Reads()
      reads this, sock`wire, sock`received, sock`polls, sock`ended, eng.inbox`inbound,
            eng.inbox`readings, eng.inbox`handshakes
    {
      Armed() && Draws(old(Now()), Now())
    }

    /** Before close_notify ciphertext may come and go. */
    twostate lemma StillOrdered()
      requires old(Ordered()) && Rank(state) < 3
      requires unchanged(this`state, this`finalizing, this`rawEof, this`firstShutdown)
                && eng.shutdowns == old(eng.shutdowns)
      ensures Ordered()
    {
    }

    /** Nothing has been read from the socket. */
    twostate predicate NoInput()
      reads this`rawEof, sock`received, sock`polls, sock`ended
    {
      && rawEof == old(rawEof)
      && sock.polls == old(sock.polls) && sock.ended == old(sock.ended) && |sock.received| == |old(sock.received)|
    }

    /** What the event loop does by itself: nothing is accepted before the handshake is over, and as long as it is not
        over the queue stays as it is. */
    twostate predicate Offstage()
      reads this`early, this`state, this`finalizing, this`backlog, this`backlogSize, eng`lastWrite
    {
      && early == old(early)
      && (state == DO_HANDSHAKE && !finalizing ==>
            backlog == old(backlog) && backlogSize == old(backlogSize) && eng.lastWrite == old(eng.lastWrite))
    }

    ghost function HeldNow(): Held
      reads this`state, this`finalizing, this`backlog, this`backlogSize, this`hadEagain, eng`plain, eng`lastWrite,
            eng.inbox`readings
    {
      Held(Rank(state), finalizing, |eng.inbox.readings|, eng.plain, eng.lastWrite, backlog, Awake())
    }

    twostate predicate Resting()
      reads this`state, this`finalizing, this`backlog, this`backlogSize, this`hadEagain, eng`plain, eng`lastWrite,
            eng.inbox`readings
    {
      Rests(old(HeldNow()), HeldNow())
    }

    /** When the socket takes data again: during the handshake the queue is left alone, later it is looked after. */
    twostate predicate Heeded()
      reads this`state, this`finalizing, this`backlog, this`backlogSize, this`hadEagain, eng`plain, eng`lastWrite,
            eng.inbox`readings
    {
      if old(state) == DO_HANDSHAKE then Resting() else Awake()
    }

    /** Kernel, OpenSSL and application all play their parts. */
    predicate Rehearsed() {
      sock.rehearsed && eng.rehearsed && rehearsed
    }

    ghost function SceneNow(): Scene
      reads this`backlog, this`registered, this`hadEagain, this`finalizing, this`accepted, eng`heard, eng`plain,
            eng`lastWrite, eng`stalls, sock`roomy
    {
      Scene(backlog, accepted, registered, hadEagain, finalizing, eng.heard, eng.plain, eng.lastWrite, eng.stalls,
            sock.roomy)
    }

    /** Nothing has happened to what waits. */
    twostate predicate Still()
      reads this`backlog, this`registered, this`hadEagain, this`finalizing, this`accepted, eng`heard, eng`plain,
            eng`lastWrite, eng`stalls, sock`roomy
    {
      SceneNow() == old(SceneNow())
    }

    /** The rehearsal of the handshake: it waits for the peer, or is complete, and the application has paused reading. */
    ghost predicate Cued()
      reads this`hadEagain, this`connected, eng.outgoing
    {
      Rehearsed() && !hadEagain && !connected && eng.outgoing.IsEmpty()
    }

    twostate predicate Played()
      reads this`state, this`readPaused, this`connected, this`backlog, this`registered, this`hadEagain, this`finalizing,
            this`accepted, eng`heard, eng`plain, eng`lastWrite, eng`stalls, eng.outgoing, sock`roomy
    {
      && Still() && eng.outgoing.IsEmpty()
      && if eng.heard then state == WRAPPED && readPaused else state == DO_HANDSHAKE && !connected
    }

    /** The rehearsal of a write during the handshake: the engine wants room, and the socket has none. */
    ghost predicate Refusing()
      reads this`hadEagain, eng`heard, eng`stalls, eng.outgoing, sock`roomy
    {
      Rehearsed() && !eng.heard && eng.stalls > 0 && !sock.roomy && eng.outgoing.IsEmpty() && !hadEagain
    }

    twostate predicate Refused()
      reads this`hadEagain, eng`heard, eng`lastWrite, sock`roomy
    {
      hadEagain && eng.lastWrite == Answer(WANT_WRITE) && unchanged(eng`heard, sock`roomy)
    }

    /** A registered writer means that the kernel owes room. */
    predicate Honest()
      reads this`registered, this`hadEagain
    {
      registered ==> hadEagain
    }

    /** What a handler of new input may start from. */
    ghost predicate Steady()
      reads this`state, this`finalizing, this`connected, this`calls, this`readPaused
    {
      (state == DO_HANDSHAKE ==> !finalizing) && (state == WRAPPED ==> connected && Fresh())
    }

    /** No ciphertext was produced. */
    twostate predicate Silent()
      reads eng`shutdowns, eng.outgoing
    {
      && eng.outgoing.put == old(eng.outgoing.put)
      && eng.shutdowns == old(eng.shutdowns)
      && (old(eng.outgoing.IsEmpty()) ==> eng.outgoing.IsEmpty())
    }

    /** Once closing, application calls make the engine produce nothing, except that close() may move on. */
    twostate predicate Calm()
      reads this, eng, eng.inbox, eng.outgoing
    {
      && (Rank(old(state)) >= 2 || (old(finalizing) && state == old(state)) ==> Silent())
      && (Rank(old(state)) >= 2 ==> state == old(state) || state == UNWRAPPED)
      && (Rank(state) < 2 ==> eng.inbox.readings == old(eng.inbox.readings) && eng.inbox.taken == old(eng.inbox.taken))
    }

    /** Waiting data keeps its wake-up. */
    twostate predicate Kept()
      reads this, eng, eng.inbox, eng.outgoing
    {
      (old(Flushed()) ==> Flushed()) && (old(Wakes()) ==> Wakes()) && (old(Awake()) ==> Awake())
    }

    ghost function EofPending(): nat
      reads this
    {
      if eofReceived then 0 else 1
    }

    ghost function RankLeft(): nat
      reads this
    {
      4 - Rank(state)
    }

    lemma ValidIsHurt()
      requires Valid()
      ensures Hurt() && eng.Valid() && marks.Valid() && backlogSize >= 0
      ensures Rank(state) < 3 ==> rawEof.None?
      ensures state == UNWRAPPED || detached ==> finalizing
      ensures hadEagain && !finalizing ==> registered
    {
    }

    lemma EmptyQueue()
      requires Plain() && !finalizing && backlogSize == 0
      ensures backlog == [] && eng.unfinished == None && eng.plain == accepted
    {
      NothingFlat(backlog);
    }

    /** Reading stops only when OpenSSL has nothing more, or must first get rid of ciphertext. */
    ghost predicate Drained()
      reads this`hadEagain, eng.inbox`readings
    {
      var r := eng.inbox.readings;
      r != [] && (r[|r| - 1] == Answer(WANT_READ) || (r[|r| - 1] == Answer(WANT_WRITE) && hadEagain))
    }

    ghost predicate ReadOut(before: nat)
      reads this`readPaused, this`state, this`hadEagain, eng.inbox`readings
    {
      before < |eng.inbox.readings| && (readPaused || Rank(state) >= 2 || Drained())
    }

    /** The handshake is over and the protocol connected, or it waits for the peer or the socket. */
    ghost predicate Shook(before: nat)
      reads this`state, this`hadEagain, this`connected, this`finalizing, eng.inbox`handshakes
    {
      var h := eng.inbox.handshakes;
      || (Rank(state) >= 1 && (connected || finalizing))
      || (before < |h| && (h[|h| - 1] == Answer(WANT_READ) || (h[|h| - 1] == Answer(WANT_WRITE) && hadEagain)))
    }

    /** The shutdown is over, or waits for the peer or the socket. */
    ghost predicate Parted(before: nat)
      reads this`finalizing, this`hadEagain, eng`shutdowns, eng`lastShutdown
    {
      && before < eng.shutdowns
      && (finalizing || eng.lastShutdown == Answer(WANT_READ) || (eng.lastShutdown == Answer(WANT_WRITE) && hadEagain))
    }

    ghost function Before(): Progress
      reads this`state, this`readPaused, this`backlogSize, eng.inbox`readings, eng.inbox`handshakes, eng`shutdowns,
            eng`writes
    {
      Progress(state, readPaused, backlogSize, |eng.inbox.readings|, |eng.inbox.handshakes|, eng.shutdowns, eng.writes)
    }

    /** What input must lead to, state by state: nothing that can be done now is left undone. */
    ghost predicate Advanced(b: Progress)
      reads this, eng, eng.inbox, eng.outgoing, eng.outgoing.buf
    {
      match b.state
      case DO_HANDSHAKE => Shook(b.handshakes)
      case WRAPPED => !b.readPaused ==> ReadOut(b.readings) && (Awake() || (registered && b.backlogSize != 0))
      case FLUSHING => state == FLUSHING ==> eng.Valid() && LocalWriteBufferSize() != 0
      case SHUTDOWN => Parted(b.shutdowns)
      case UNWRAPPED => true
    }

    /** The same when the socket takes data again; plaintext that is queued comes first. */
    ghost predicate Served(b: Progress)
      reads this, eng, eng.inbox, eng.outgoing, eng.outgoing.buf
    {
      if b.state == WRAPPED && b.backlogSize != 0 then b.writes < eng.writes && Awake() else Advanced(b)
    }

    // ---------------------------------------------------------------- construction

    constructor (eng: SslEngine, sock: Descriptor<byte>, marks: WriteWatermarks, buffered: bool, layered: bool,
                 incomingSize: nat, rehearsed: bool)
      requires eng.Valid() && eng.plain == [] && eng.unfinished == None && eng.shutdowns == 0
      requires marks.Valid() && !marks.paused
      requires sock.wire == eng.outgoing.got == [] && !sock.full && eng.inbox.Valid() && eng.inbox.taken == []
      ensures Valid() && Wakes() && !hadEagain && !registered
      ensures this.eng == eng && this.sock == sock && this.marks == marks && this.rehearsed == rehearsed
      ensures state == DO_HANDSHAKE && handshakeTimer && !finalizing && !connected
      ensures backlog == [] && accepted == [] && early == 0
                && firstShutdown == None && rawEof == None && !detached
    {
      this.eng, this.sock, this.marks := eng, sock, marks;
      this.layered, this.incomingSize, this.rehearsed := layered, incomingSize, rehearsed;
      state, handshakeTimer, shutdownTimer := DO_HANDSHAKE, true, false;
      backlog, backlogSize := [], 0;
      hadEagain, registered := false, false;
      readPaused, readerAdded, protocolBuffered := false, true, buffered;
      connected, eofReceived, finalizing, detached := false, false, false, false;
      closedWrites, upstream := 0, 0;
      accepted, early, calls, places, earlyWrite, firstShutdown, rawEof := [], 0, [], [], false, None, None;
    }

    // ---------------------------------------------------------------- states

    method SetState(to: State) returns (err: Option<Exn>)
      modifies this`state
      ensures err.None? <==> Allowed(old(state), to)
      ensures state == if err.None? then to else old(state)
    {
      var allowed := false;
      if to == UNWRAPPED {
        allowed := true;
      } else if state == UNWRAPPED && to == DO_HANDSHAKE {
        allowed := true;
      } else if state == DO_HANDSHAKE && to == WRAPPED {
        allowed := true;
      } else if state == WRAPPED && (to == FLUSHING || to == SHUTDOWN || to == DO_HANDSHAKE) {
        allowed := true;
      } else if state == FLUSHING && to == SHUTDOWN {
        allowed := true;
      }
      if !allowed {
        return Some(RuntimeErr);
      }
      state := to;
      return None;
    }

    /** _force_close: drops the queue and the registrations and has the loop run _finalize_close. */
    method ForceClose(exn: Option<Exn>)
      requires Bare()
      modifies this`backlog, this`backlogSize, this`registered, this`readerAdded, this`finalizing
      ensures Valid() && finalizing && Grows()
    {
      hide Bio.Valid, Bio.Window, WriteWatermarks.Valid, Inbox.Valid, Plain, Ordered, Inbound, Leads, Onward, Guarded,
           Staged, Reached;
      if !detached && !finalizing {
        DropEverything();
      }
      FinalIsValid();
      LeadsByClosing(old(Now()), Now());
    }

    method DropEverything()
      requires !detached
      modifies this`backlog, this`backlogSize, this`registered, this`readerAdded, this`finalizing
      ensures finalizing && backlogSize == 0 && !registered && !readerAdded
    {
      if backlogSize != 0 {
        backlog, backlogSize := [], 0;
      }
      DropWriter();
      readerAdded := false;
      finalizing := true;
    }

    lemma FinalIsValid()
      requires finalizing && Bare()
      ensures Valid()
    {
      hide Wires, Ordered, Story, Inbox.Valid, Pieced;
    }

    method DropWriter()
      modifies this`registered
      ensures registered == (old(registered) && detached)
    {
      if detached || !registered {
        return;
      }
      registered := false;
    }

    method FatalError(exn: Exn)
      requires Bare()
      modifies this`backlog, this`backlogSize, this`registered, this`readerAdded, this`finalizing
      ensures Valid() && finalizing && Grows()
    {
      hide Wires, Guarded, Plain, Ordered, Staged, Inbox.Valid, Inbound, Flow, Story, Joined, Leads, Onward, Pieced;
      ForceClose(Some(exn));
    }

    method Abort(exn: Option<Exn>)
      requires Hurt()
      modifies this`state, this`backlog, this`backlogSize, this`registered, this`readerAdded, this`finalizing
      ensures Valid() && finalizing && state == UNWRAPPED && Grows()
    {
      hide Valid, Hurt, Bare, Leads;
      LeadsFrom(Now());
      HurtIsBare();
      if state != UNWRAPPED {
        Unwrap();
      }
      LeadsFrom(Now());
      ForceClose(exn);
    }

    lemma HurtIsBare()
      requires Hurt()
      ensures Bare()
    {
    }

    method Unwrap()
      requires Bare()
      modifies this`state
      ensures Bare() && state == UNWRAPPED && Grows()
    {
      hide Wires, Story, Pieced, Inbox.Valid, Draws, Leads, Onward;
      var _ := SetState(UNWRAPPED);
      LeadsByClosing(old(Now()), Now());
    }

    method CancelHandshakeTimer()
      requires Bare()
      modifies this`handshakeTimer
      ensures Bare() && !handshakeTimer && Grows()
    {
      hide Wires, Ordered, Story, Early, Pieced, Inbox.Valid, Draws, Leads, Onward;
      handshakeTimer := false;
      LeadsByClosing(old(Now()), Now());
    }

    method OnShutdownComplete(exn: Option<Exn>)
      requires Bare()
      modifies this`shutdownTimer, this`backlog, this`backlogSize, this`registered, this`readerAdded, this`finalizing
      ensures Valid() && finalizing && Grows()
      ensures old(shutdownTimer) ==> !shutdownTimer
    {
      hide Valid, Bare, Leads;
      LeadsFrom(Now());
      if shutdownTimer {
        CancelShutdownTimer();
      }
      if exn.Some? {
        FatalError(exn.value);
      } else {
        ForceClose(None);
      }
    }

    method CancelShutdownTimer()
      requires Bare()
      modifies this`shutdownTimer
      ensures Bare() && !shutdownTimer
    {
      hide Wires, Ordered, Story, Early, Pieced, Inbox.Valid;
      shutdownTimer := false;
    }

    /** _on_handshake_complete with an exception. */
    method HandshakeFailed(exn: Exn)
      requires Hurt()
      modifies this`state, this`handshakeTimer, this`backlog, this`backlogSize, this`registered, this`readerAdded,
               this`finalizing
      ensures Valid() && finalizing && state == UNWRAPPED && !handshakeTimer && Grows()
    {
      hide Valid, Hurt, Bare, Leads;
      LeadsFrom(Now());
      HurtIsBare();
      CancelHandshakeTimer();
      Unwrap();
      FatalError(exn);
    }

    /** _handle_error, whichever operation raised. */
    method HandleError(exn: Exn)
      requires Hurt()
      modifies this`state, this`handshakeTimer, this`shutdownTimer, this`backlog, this`backlogSize, this`registered,
               this`readerAdded, this`finalizing
      ensures Valid() && finalizing && Grows()
      ensures state == if old(state) == DO_HANDSHAKE then UNWRAPPED else old(state)
    {
      if state == DO_HANDSHAKE {
        HandshakeFailed(exn);
        return;
      }
      if state == FLUSHING || state == SHUTDOWN {
        OnShutdownComplete(Some(exn));
        return;
      }
      FatalError(exn);
    }

    // ---------------------------------------------------------------- the outgoing BIO

    method EnsureWriter()
      modifies this`hadEagain, this`registered
      ensures hadEagain
      ensures registered == (old(registered) || !finalizing)
    {
      hadEagain := true;
      if finalizing || registered {
        return;
      }
      registered := true;
    }

    /** _flush_outgoing_bio: true when the BIO has been emptied and more may be produced. */
    method FlushOutgoingBio() returns (ok: bool, err: Option<Exn>)
      requires Wires()
      modifies eng.outgoing, sock, this`hadEagain, this`registered
      ensures Wires()
      ensures Silent() && Sends()
      ensures err.None? ==> Flushed()
      ensures err.None? ==> (ok <==> !hadEagain) && (ok ==> eng.outgoing.IsEmpty())
      ensures old(hadEagain) ==> sock.wire == old(sock.wire) && err == None && hadEagain
      ensures err.Some? ==> !hadEagain
      ensures sock.roomy == old(sock.roomy)
      ensures !old(hadEagain) && (old(eng.outgoing.IsEmpty()) || (sock.rehearsed && sock.roomy)) ==>
                err.None? && ok && !hadEagain && registered == old(registered)
      ensures sock.rehearsed && !sock.roomy && !old(eng.outgoing.IsEmpty()) ==> err.None? && hadEagain
    {
      hide Bio.Valid, WriteWatermarks.Valid;
      if hadEagain {
        return false, None;
      }
      var data := eng.outgoing.GetMemData();
      if |data| == 0 {
        return true, None;
      }
      var r := sock.Write(data);
      if r.IoFailed? {
        return false, Some(r.exn);
      }
      if r.Sent? {
        var rc := eng.outgoing.Consume(r.n);
        assert rc == 1;
      }
      if r.WouldBlock? || r.n < |data| {
        EnsureWriter();
        return false, None;
      }
      return true, None;
    }

    /** The same, from a transport in working order. */
    method FlushNow() returns (ok: bool, err: Option<Exn>)
      requires Valid()
      modifies eng.outgoing, sock, this`hadEagain, this`registered
      ensures After(err) && Grows() && NoInput() && Silent()
      ensures err.None? ==> Flushed() && Kept()
      ensures HeldNow() == old(HeldNow()).(awake := Awake())
      ensures err.None? ==> (ok <==> !hadEagain) && (ok ==> eng.outgoing.IsEmpty())
      ensures err.Some? ==> !hadEagain
      ensures !old(hadEagain) && (old(eng.outgoing.IsEmpty()) || (sock.rehearsed && sock.roomy)) ==>
                err.None? && ok && !hadEagain && registered == old(registered)
      ensures sock.roomy == old(sock.roomy)
    {
      hide Valid, Hurt, Flushed, Wakes, Awake, Draws, Leads, Onward;
      ok, err := FlushKeeping();
      LeadsByWriting(old(Now()), Now());
      ValidIsHurt();
      KeptByFlushing(err);
    }

    twostate lemma KeptByFlushing(new err: Option<Exn>)
      requires err.None? ==> Flushed()
      requires unchanged(this`backlogSize, this`finalizing, this`earlyWrite, eng`lastWrite)
      requires Armed()
      ensures err.None? ==> Kept()
    {
    }

    method FlushKeeping() returns (ok: bool, err: Option<Exn>)
      requires Valid()
      modifies eng.outgoing, sock, this`hadEagain, this`registered
      ensures Valid() && Sends() && Silent() && sock.roomy == old(sock.roomy)
      ensures err.None? ==> Flushed()
      ensures err.None? ==> (ok <==> !hadEagain) && (ok ==> eng.outgoing.IsEmpty())
      ensures err.Some? ==> !hadEagain
      ensures !old(hadEagain) && (old(eng.outgoing.IsEmpty()) || (sock.rehearsed && sock.roomy)) ==>
                err.None? && ok && !hadEagain && registered == old(registered)
    {
      hide Bio.Valid, Bio.Window, WriteWatermarks.Valid, Inbox.Valid, Inbound, Flow, Story, Joined, Guarded, Plain,
           Early, Staged, Pieced, Flushed;
      ok, err := FlushOutgoingBio();
    }

    method ShouldRetryAfterWantWrite() returns (ok: bool, err: Option<Exn>)
      requires Wires()
      modifies eng.outgoing, sock, this`hadEagain, this`registered
      ensures Wires()
      ensures Silent() && Sends()
      ensures err.None? ==> Flushed()
      ensures err.None? ==> (ok <==> !hadEagain) && (ok ==> eng.outgoing.IsEmpty())
      ensures old(hadEagain) ==> sock.wire == old(sock.wire) && err == None && hadEagain
      ensures sock.roomy == old(sock.roomy)
      ensures sock.rehearsed && !sock.roomy && !old(eng.outgoing.IsEmpty()) ==> err.None? && hadEagain
    {
      ok, err := FlushOutgoingBio();
    }

    // ---------------------------------------------------------------- writing

    /** _is_protocol_ready. */
    method IsProtocolReady() returns (ready: bool)
      modifies this`closedWrites
      ensures ready <==> !IsClosing()
      ensures ready ==> unchanged(this)
      ensures closedWrites == old(closedWrites) + if ready then 0 else 1
    {
      if finalizing || state == FLUSHING || state == SHUTDOWN || state == UNWRAPPED {
        closedWrites := closedWrites + 1;
        return false;
      }
      return true;
    }

    /** The same, for a transport in working order. */
    method CheckReady() returns (ready: bool)
      requires Valid()
      modifies this`closedWrites
      ensures Valid() && Grows() && Kept() && Calm() && Resting()
      ensures (ready <==> !IsClosing()) && (ready ==> unchanged(this))
      ensures IsClosing() == old(IsClosing())
    {
      hide Wires, Guarded, Plain, Ordered, Staged, Inbound, Flow, Story, Early, Joined, Leads, Rests, Awake, Pieced;
      LeadsFrom(Now());
      RestsFrom(HeldNow());
      ready := IsProtocolReady();
    }

    /** get_write_buffer_size. */
    function WriteBufferSize(): int
      reads this`backlogSize, this`upstream
    {
      backlogSize + if layered then upstream else 0
    }

    /** get_local_write_buffer_size: also counts ciphertext that has not reached the socket. */
    function LocalWriteBufferSize(): int
      requires eng.Valid()
      reads this`backlogSize, this`upstream, eng.outgoing, eng.outgoing.buf
    {
      WriteBufferSize() + eng.OutgoingPending()
    }

    /** _write_impl: encrypts as much as OpenSSL and the socket will take; what is left over is the tail. Without a buffer
        only a pointer to the data is known. */
    method WriteImpl(buffer: Option<Buffer>, data: seq<byte>) returns (tail: Option<Buffer>, err: Option<Exn>)
      requires Wires() && data != []
      requires buffer.Some? ==> buffer.value.Valid() && (buffer.value.Frozen() ==> buffer.value.Fixed() == data)
      requires eng.unfinished.Some? ==> eng.unfinished.value <= data
      modifies eng, eng.outgoing, eng.outgoing.buf, sock, this`hadEagain, this`registered
      ensures Wires() && eng.shutdowns == old(eng.shutdowns)
      ensures Sends()
      ensures old(eng.plain) <= eng.plain <= old(eng.plain) + data
      ensures err.None? && tail.None? ==> eng.plain == old(eng.plain) + data && eng.unfinished == None
      ensures tail.Some? ==> tail.value.Valid() && tail.value.Frozen()
      ensures err.None? && tail.Some? ==>
                && tail.value.Fixed() != []
                && eng.plain + tail.value.Fixed() == old(eng.plain) + data
                && (eng.unfinished.Some? ==> eng.unfinished.value <= tail.value.Fixed())
                && (hadEagain || WantedRead())
      ensures old(eng.writes) < eng.writes
      ensures old(Refusing()) ==> err.None? && tail.Some? && tail.value.Fixed() == data && Refused()
    {
      hide Wires, Refusing, Refused, Taken, WantedRead, Buffer.Valid, Buffer.Fixed, Buffer.Frozen, Buffer.Content;
      var rest, again;
      rest, again, err := WriteRound(data);
      while again
        invariant Wires() && eng.shutdowns == old(eng.shutdowns) && Sends()
        invariant Taken(old(eng.plain), data, eng.plain, rest)
        invariant again ==> err.None? && rest != []
        invariant old(Refusing()) ==> !again && err.None? && rest == data && Refused()
        invariant eng.unfinished.Some? ==> err.Some? || (rest != [] && eng.unfinished.value <= rest)
        invariant !again && err.None? && rest != [] ==> hadEagain || WantedRead()
        invariant old(eng.writes) < eng.writes
        decreases if again then 1 else 0, |rest|, if eng.outgoing.IsEmpty() then 0 else 1, eng.stalls
      {
        ghost var before, so := eng.plain, rest;
        rest, again, err := WriteRound(rest);
        TakenOn(old(eng.plain), data, before, so, eng.plain, rest);
      }
      TakenMeans(old(eng.plain), data, eng.plain, rest);
      if err.None? && rest != [] {
        var left := Leftover(buffer, data, rest);
        tail := Some(left);
      } else {
        tail := None;
      }
    }

    /** What the engine has taken of some data, and what is left of it. */
    static ghost predicate Taken(before: seq<byte>, data: seq<byte>, plain: seq<byte>, rest: seq<byte>) {
      && before <= plain && plain + rest == before + data
      && |rest| <= |data| && rest == data[|data| - |rest|..]
    }

    static lemma TakenOn(a: seq<byte>, data: seq<byte>, b: seq<byte>, rest: seq<byte>, c: seq<byte>, left: seq<byte>)
      requires Taken(a, data, b, rest) && Taken(b, rest, c, left)
      ensures Taken(a, data, c, left)
    {
    }

    static lemma TakenMeans(a: seq<byte>, data: seq<byte>, b: seq<byte>, rest: seq<byte>)
      requires Taken(a, data, b, rest)
      ensures a <= b <= a + data && b + rest == a + data && (rest == [] ==> b == a + data)
      ensures |rest| <= |data| && rest == data[|data| - |rest|..]
    {
    }

    /** One round of the loop in _write_impl: what it leaves, and whether the engine may be asked again at once. */
    method WriteRound(data: seq<byte>) returns (rest: seq<byte>, again: bool, err: Option<Exn>)
      requires Wires() && data != []
      requires eng.unfinished.Some? ==> eng.unfinished.value <= data
      modifies eng, eng.outgoing, eng.outgoing.buf, sock, this`hadEagain, this`registered
      ensures Wires() && eng.shutdowns == old(eng.shutdowns) && Sends()
      ensures Taken(old(eng.plain), data, eng.plain, rest) && |rest| <= |data|
      ensures again ==>
                && err.None? && rest != []
                && (|rest| < |data|
                    || (eng.outgoing.IsEmpty() && (old(eng.outgoing.IsEmpty()) ==> eng.stalls < old(eng.stalls))))
      ensures eng.unfinished.Some? ==> err.Some? || (rest != [] && eng.unfinished.value <= rest)
      ensures !again && err.None? && rest != [] ==> hadEagain || WantedRead()
      ensures eng.writes == old(eng.writes) + 1
      ensures old(Refusing()) ==> err.None? && !again && rest == data && Refused()
    {
      hide Bio.Valid, Bio.Window, WriteWatermarks.Valid;
      var v, written := eng.Write(data);
      PlainCut(old(eng.plain), data, written);
      rest, again, err := data[written..], false, None;
      if v.Raised? {
        err := Some(v.exn);
      } else if v.code == WANT_WRITE {
        again, err := ShouldRetryAfterWantWrite();
        again := again && err.None?;
      }
    }

    static lemma PlainCut(plain: seq<byte>, data: seq<byte>, n: nat)
      requires n <= |data|
      ensures plain + data[..n] + data[n..] == plain + data
    {
      assert data == data[..n] + data[n..];
    }

    /** `aiofn_maybe_copy_buffer_tail(data, data_ptr, data_len)`. */
    method Leftover(buffer: Option<Buffer>, data: seq<byte>, rest: seq<byte>) returns (tail: Buffer)
      requires buffer.Some? ==> buffer.value.Valid() && (buffer.value.Frozen() ==> buffer.value.Fixed() == data)
      requires |rest| <= |data| && rest == data[|data| - |rest|..]
      ensures tail.Valid() && tail.Frozen() && tail.Fixed() == rest
    {
      TailIsRest(buffer, data, |data| - |rest|);
      tail := MaybeCopyBufferTail(buffer, rest);
    }

    /** A write straight into the engine, and what it produced on to the socket. */
    method WriteAndFlush(buffer: Option<Buffer>, data: seq<byte>) returns (tail: Option<Buffer>, err: Option<Exn>)
      requires Wires() && data != [] && eng.unfinished == None
      requires buffer.Some? ==> buffer.value.Valid() && (buffer.value.Frozen() ==> buffer.value.Fixed() == data)
      modifies eng, eng.outgoing, eng.outgoing.buf, sock, this`hadEagain, this`registered
      ensures Wires() && Sends() && eng.shutdowns == old(eng.shutdowns)
      ensures eng.plain <= old(eng.plain) + data
      ensures tail.Some? ==> tail.value.Valid() && tail.value.Frozen()
      ensures err.None? ==>
                && eng.plain + (if tail.Some? then tail.value.Fixed() else []) == old(eng.plain) + data
                && (eng.unfinished.Some? ==>
                      tail.Some? && tail.value.Fixed() != [] && eng.unfinished.value <= tail.value.Fixed())
                && (tail.Some? ==> hadEagain || WantedRead())
                && Flushed()
      ensures old(eng.writes) < eng.writes
      ensures old(Refusing()) ==> err.None? && tail.Some? && tail.value.Fixed() == data && Refused()
    {
      hide Bio.Valid, Bio.Window, WriteWatermarks.Valid, Inbox.Valid, Inbound, Flow, Story, Joined, Buffer.Fixed,
           Pieced;
      tail, err := WriteImpl(buffer, data);
      if err.None? {
        var _, e := FlushOutgoingBio();
        err := e;
      }
    }

    /** The bytes of a write the transport has taken responsibility for. */
    ghost method Accept(data: seq<byte>)
      requires !IsClosing()
      modifies this`accepted, this`early
      ensures Recorded(data) && earlyWrite == old(earlyWrite)
    {
      accepted := accepted + data;
      early := early + if state == DO_HANDSHAKE then |data| else 0;
    }

    /** The transport has taken responsibility for some data, early or not. */
    twostate predicate Recorded(data: seq<byte>)
      reads this`accepted, this`early, this`earlyWrite, this`state
    {
      && accepted == old(accepted) + data
      && early == old(early) + (if state == DO_HANDSHAKE then |data| else 0)
      && (old(earlyWrite) ==> earlyWrite)
      && (earlyWrite ==> old(earlyWrite) || (state == DO_HANDSHAKE && data != []))
    }

    twostate lemma StillEarly(data: seq<byte>)
      requires old(Early()) && Recorded(data) && state == old(state)
      ensures Early()
    {
    }

    ghost method NoteEarlyWrite()
      modifies this`earlyWrite
      ensures earlyWrite == (old(earlyWrite) || state == DO_HANDSHAKE)
    {
      earlyWrite := earlyWrite || state == DO_HANDSHAKE;
    }

    /** _append_to_backlog: the queue never refers to memory that the caller may change. The ghost history of accepted
        bytes is extended by the caller. */
    method AppendToBacklog(data: Option<Buffer>, maybePause: bool)
      requires marks.Valid() && (data.Some? ==> data.value.Valid())
      modifies this`backlog, this`backlogSize, this`earlyWrite, marks
      ensures marks.Valid()
      ensures var added := if data.Some? then old(data.value.Content()) else [];
              && backlog == (if added != [] then old(backlog) + [added] else old(backlog))
              && backlogSize == old(backlogSize) + |added|
              && (earlyWrite <==> old(earlyWrite) || (state == DO_HANDSHAKE && added != []))
      ensures maybePause && old(Flow()) ==> Flow()
      ensures !maybePause ==> unchanged(marks)
    {
      if data.Some? {
        var copy := MaybeCopyBuffer(data.value).Fixed();
        if |copy| != 0 {
          backlog := backlog + [copy];
          backlogSize := backlogSize + |copy|;
          NoteEarlyWrite();
          if maybePause {
            marks.MaybePauseProtocol(WriteBufferSize());
          }
        }
      }
    }

    lemma FixedIsContent(buffer: Buffer)
      requires buffer.Valid() && buffer.Frozen()
      ensures buffer.Content() == buffer.Fixed()
    {
    }

    /** `_append_to_backlog(tail, True)` on an empty queue. */
    method QueueTail(tail: Option<Buffer>)
      requires marks.Valid() && !finalizing && backlog == [] && backlogSize == 0
      requires tail.Some? ==> tail.value.Valid() && tail.value.Frozen()
      requires eng.plain + (if tail.Some? then tail.value.Fixed() else []) == accepted
      requires eng.unfinished.Some? ==> tail.Some? && tail.value.Fixed() != [] && eng.unfinished.value <= tail.value.Fixed()
      modifies this`backlog, this`backlogSize, this`earlyWrite, marks
      ensures Plain() && marks.Valid()
      ensures earlyWrite <==> old(earlyWrite) || (state == DO_HANDSHAKE && backlog != [])
      ensures tail.None? ==> backlogSize == 0
      ensures old(Flow()) ==> Flow()
      ensures tail.Some? && tail.value.Fixed() != [] ==> backlog == [tail.value.Fixed()]
    {
      hide WriteWatermarks.Valid, Inbox.Valid, Inbound, Flow, Story, Joined, Buffer.Fixed, Buffer.Content, Pieced;
      if tail.Some? {
        FixedIsContent(tail.value);
        FlattenSnoc([], tail.value.Fixed());
      }
      AppendToBacklog(tail, true);
      assert tail.Some? && tail.value.Fixed() != [] ==> backlog == [tail.value.Fixed()];
    }

    /** A write that finds the queue empty: encrypt, flush, queue the tail. */
    method EncryptOrQueue(buffer: Option<Buffer>, data: seq<byte>) returns (err: Option<Exn>)
      requires Wires() && Plain() && !IsClosing() && backlogSize == 0 && data != []
      requires buffer.Some? ==> buffer.value.Valid() && (buffer.value.Frozen() ==> buffer.value.Fixed() == data)
      modifies eng, eng.outgoing, eng.outgoing.buf, sock, marks, this`accepted, this`early, this`hadEagain,
               this`registered, this`backlog, this`backlogSize, this`earlyWrite
      ensures Wires() && Recorded(data)
      ensures Sends() && eng.shutdowns == old(eng.shutdowns)
      ensures if err.None? then Plain() && Flushed() && Awake() else eng.plain <= accepted
      ensures err.None? && backlogSize != 0 && state == DO_HANDSHAKE ==> earlyWrite
      ensures old(eng.writes) < eng.writes
      ensures old(Refusing()) ==> err.None? && backlog == [data] && Refused()
      ensures err.None? && old(Flow()) ==> Flow()
    {
      hide Bio.Valid, Bio.Window, WriteWatermarks.Valid, Plain, Buffer.Fixed;
      EmptyQueue();
      Accept(data);
      var tail, e := WriteAndFlush(buffer, data);
      if e.None? {
        QueueTail(tail);
        NothingQueued();
      }
      return e;
    }

    lemma NothingQueued()
      requires Plain() && !finalizing
      ensures (backlogSize == 0 <==> backlog == []) && backlogSize >= 0 && eng.plain <= accepted
    {
      NothingFlat(backlog);
    }

    method WriteThrough(buffer: Option<Buffer>, data: seq<byte>) returns (err: Option<Exn>)
      requires Valid() && !IsClosing() && backlogSize == 0 && data != []
      requires buffer.Some? ==> buffer.value.Valid() && (buffer.value.Frozen() ==> buffer.value.Fixed() == data)
      modifies eng, eng.outgoing, eng.outgoing.buf, sock, marks, this`accepted, this`early, this`hadEagain,
               this`registered, this`backlog, this`backlogSize, this`earlyWrite
      ensures After(err)
      ensures accepted == old(accepted) + data
      ensures Grows()
      ensures err.None? ==> Flushed() && Awake()
      ensures old(eng.writes) < eng.writes
      ensures old(Refusing()) ==> err.None? && backlog == [data] && Refused()
    {
      hide Bio.Valid, Bio.Window, WriteWatermarks.Valid, Inbox.Valid, Inbound, Flow, Story, Joined, Plain, Ordered,
           Guarded, Early, Leads, Pieced;
      ValidIsHurt();
      var e := EncryptOrQueue(buffer, data);
      StillOrdered();
      StillEarly(data);
      LeadsByWriting(old(Now()), Now());
      return e;
    }

    /** Data that finds other data queued before it. */
    method QueueLine(line: Buffer, maybePause: bool)
      requires Plain() && marks.Valid() && !IsClosing() && backlog != [] && line.Valid()
      modifies this`accepted, this`early, this`backlog, this`backlogSize, this`earlyWrite, marks
      ensures Plain() && marks.Valid() && Recorded(old(line.Content()))
      ensures backlogSize == old(backlogSize) + |old(line.Content())|
      ensures backlog == if old(line.Content()) == [] then old(backlog) else old(backlog) + [old(line.Content())]
      ensures maybePause && old(Flow()) ==> Flow()
      ensures !maybePause ==> unchanged(marks)
    {
      hide WriteWatermarks.Valid, Inbox.Valid, Inbound, Flow, Story, Joined, Flatten, Buffer.Content, Pieced;
      var data := line.Content();
      Accept(data);
      SameContent(line);
      FlattenSnoc(backlog, data);
      Assoc(eng.plain, Flatten(backlog), data);
      AppendToBacklog(Some(line), maybePause);
      assert data == [] ==> Flatten(backlog) + data == Flatten(backlog);
    }

    /** More behind what is queued already. */
    twostate lemma QueuedRests()
      requires old(backlogSize) != 0 && backlogSize != 0 && old(backlog) <= backlog
      requires unchanged(this`state, this`finalizing, this`hadEagain, eng`plain, eng`lastWrite, eng.inbox`readings)
      ensures Resting()
    {
      RestsByQueueing(old(HeldNow()), HeldNow());
    }

    method WriteBehind(data: Buffer)
      requires Valid() && !IsClosing() && backlogSize != 0 && data.Valid()
      modifies this`accepted, this`early, this`backlog, this`backlogSize, this`earlyWrite, marks
      ensures Valid() && accepted == old(accepted) + old(data.Content()) && Grows()
      ensures backlogSize == old(backlogSize) + |old(data.Content())|
      ensures Kept() && Calm() && Resting() && old(backlog) <= backlog
    {
      hide Bio.Valid, Bio.Window, WriteWatermarks.Valid, Inbox.Valid, Inbound, Flow, Story, Joined, Early, Leads,
           Buffer.Content, Buffer.Memory, Pieced, Resting;
      ValidIsHurt();
      QueueLine(data, true);
      StillEarly(old(data.Content()));
      QueuedRests();
      LeadsByWriting(old(Now()), Now());
    }

    /** The part of write_nocheck and write_c inside `try`, with nothing queued. */
    method WriteContent(buffer: Option<Buffer>, data: seq<byte>)
      requires Valid() && !IsClosing() && backlogSize == 0 && data != []
      requires buffer.Some? ==> buffer.value.Valid() && (buffer.value.Frozen() ==> buffer.value.Fixed() == data)
      modifies this, eng, eng.outgoing, eng.outgoing.buf, sock, marks
      ensures Valid() && Grows() && Kept() && Calm() && Resting()
      ensures old(Refusing()) ==> !finalizing && backlog == [data] && Refused()
      ensures accepted == old(accepted) + data && old(eng.writes) < eng.writes && (!finalizing ==> state == old(state))
    {
      hide Bio.Valid, Bio.Window, Wires, Guarded, Plain, Ordered, Staged, Inbox.Valid, Inbound, Flow, Story, Joined,
           Early, Leads, Rests, Pieced;
      NoPlainQueued();
      LeadsFrom(Now());
      var err := WriteThrough(buffer, data);
      if err.Some? {
        HandleError(err.value);
      }
      RestsFromNothing(old(HeldNow()), HeldNow());
    }

    /** The memory of the caller is not the storage of the outgoing BIO. */
    predicate Foreign(data: Buffer) {
      data.Valid() && eng.outgoing.buf !in data.Memory()
    }

    /** write_nocheck. */
    method Write(data: Buffer)
      requires Valid() && Foreign(data)
      modifies this, eng, eng.inbox, eng.outgoing, eng.outgoing.buf, sock, marks
      ensures Valid() && Grows() && Kept() && Calm() && Resting()
      ensures accepted == old(accepted) + if old(IsClosing()) then [] else old(data.Content())
      ensures !finalizing ==> state == old(state)
      ensures old(Refusing()) && old(backlogSize) == 0 && !old(IsClosing()) && old(data.Content()) != [] ==>
                !finalizing && backlog == [old(data.Content())] && Refused() && connected == old(connected)
      ensures old(backlogSize) != 0 && !old(IsClosing()) ==>
                && unchanged(eng, sock, this`state, this`finalizing, this`registered, this`hadEagain, this`readPaused)
                && old(backlog) <= backlog
      ensures old(backlogSize) == 0 && !old(IsClosing()) && old(data.Content()) != [] ==> old(eng.writes) < eng.writes
    {
      hide Valid, Leads, Flushed, Wakes, Awake, Silent, Buffer.Content, Buffer.Fixed, Rests, HeldNow, Refusing;
      LeadsFrom(Now());
      var ready := CheckReady();
      if ready {
        if backlogSize != 0 {
          WriteBehind(data);
        } else if |data.Content()| != 0 {
          FixedBuffer(data);
          WriteContent(Some(data), data.Content());
        }
      }
    }

    lemma FixedBuffer(data: Buffer)
      requires data.Valid()
      ensures data.Frozen() ==> data.Fixed() == data.Content()
    {
    }

    /** write_c: the bytes are only known by a pointer into memory that the caller may reuse. */
    method WriteC(memory: array<byte>, at: nat, size: nat)
      requires Valid() && at + size <= memory.Length && memory != eng.outgoing.buf
      modifies this, eng, eng.inbox, eng.outgoing, eng.outgoing.buf, sock, marks
      ensures Valid() && Grows() && Kept() && Calm() && Resting()
      ensures accepted == old(accepted) + if old(IsClosing()) then [] else old(memory[at..at + size])
      ensures old(backlogSize) != 0 && !old(IsClosing()) ==>
                && unchanged(eng, sock, this`state, this`finalizing, this`registered, this`hadEagain, this`readPaused)
                && old(backlog) <= backlog
      ensures old(backlogSize) == 0 && !old(IsClosing()) && size != 0 ==> old(eng.writes) < eng.writes
    {
      hide Valid, Leads, Flushed, Wakes, Awake, Silent, Buffer.Fixed, Rests;
      LeadsFrom(Now());
      var content := memory[at..at + size];
      var ready := CheckReady();
      if ready && size != 0 {
        if backlogSize == 0 {
          WriteContent(None, content);
        } else {
          WriteBehind(Buffer.Bytes(content));
        }
      }
    }

    /** The lines of a writelines call, and what they contain. */
    ghost predicate Lines(lines: seq<Buffer>, data: seq<seq<byte>>)
      reads set i, o | 0 <= i < |lines| && o in lines[i].Memory() :: o
    {
      && |lines| == |data|
      && forall i :: 0 <= i < |lines| ==> Foreign(lines[i]) && lines[i].Content() == data[i]
    }

    twostate lemma SameContent(line: Buffer)
      requires line.Valid() && unchanged(line.Memory())
      ensures line.Content() == old(line.Content())
    {
    }

    /** One line of writelines while everything before it went into the engine. */
    method WriteLine(line: Buffer, data: seq<byte>) returns (err: Option<Exn>)
      requires Wires() && Plain() && !IsClosing() && backlog == []
      requires line.Valid() && (line.Frozen() ==> line.Fixed() == data)
      modifies eng, eng.outgoing, eng.outgoing.buf, sock, this`accepted, this`early, this`hadEagain, this`registered,
               this`backlog, this`backlogSize, this`earlyWrite
      ensures Wires() && Recorded(data)
      ensures if err.None? then Plain() else eng.plain <= accepted
      ensures err.None? && backlog != [] ==> (hadEagain || WantedRead()) && (state == DO_HANDSHAKE ==> earlyWrite)
      ensures Sends()
      ensures eng.shutdowns == old(eng.shutdowns)
    {
      hide Bio.Valid, Bio.Window, WriteWatermarks.Valid, Inbox.Valid, Inbound, Flow, Story, Joined, Buffer.Fixed,
           Pieced;
      EmptyQueue();
      Accept(data);
      if |data| != 0 {
        var tail, e := WriteImpl(Some(line), data);
        if e.Some? {
          return e;
        }
        if tail.Some? {
          var rest := tail.value.Fixed();
          FlattenSnoc([], rest);
          backlog := backlog + [rest];
          backlogSize := backlogSize + |rest|;
          NoteEarlyWrite();
        }
      }
      return None;
    }

    /** One round of the loop of writelines: the line goes to the engine, or to the queue behind what is there. */
    method EncryptLine(line: Buffer, data: seq<byte>) returns (err: Option<Exn>)
      requires Wires() && Plain() && !IsClosing() && Foreign(line) && line.Content() == data
      modifies eng, eng.outgoing, eng.outgoing.buf, sock, marks, this`accepted, this`early, this`hadEagain,
               this`registered, this`backlog, this`backlogSize, this`earlyWrite
      ensures Wires() && Recorded(data) && unchanged(marks)
      ensures if err.None? then Plain() else eng.plain <= accepted
      ensures old(backlog) != [] ==> err.None? && backlog != [] && unchanged(eng, sock, this`hadEagain)
      ensures err.None? && old(backlog) == [] && backlog != [] ==>
                (hadEagain || WantedRead()) && (state == DO_HANDSHAKE ==> earlyWrite)
      ensures Sends() && eng.shutdowns == old(eng.shutdowns)
    {
      hide Bio.Valid, Bio.Window, WriteWatermarks.Valid, Inbox.Valid, Inbound, Flow, Story, Joined, Plain,
           Buffer.Content, Buffer.Memory, Pieced;
      if |backlog| > 0 {
        err := None;
        QueueLine(line, false);
      } else {
        FixedBuffer(line);
        err := WriteLine(line, data);
      }
    }

    /** The loop of writelines over an empty queue: lines go to the engine until one of them leaves a tail. */
    method EncryptLines(lines: seq<Buffer>, data: seq<seq<byte>>) returns (err: Option<Exn>)
      requires Wires() && Plain() && !IsClosing() && backlog == [] && Lines(lines, data)
      modifies eng, eng.outgoing, eng.outgoing.buf, sock, marks, this`accepted, this`early, this`hadEagain,
               this`registered, this`backlog, this`backlogSize, this`earlyWrite
      ensures Wires() && Recorded(Flatten(data))
      ensures if err.None? then Plain() else eng.plain <= accepted
      ensures err.None? && backlog != [] ==> (hadEagain || WantedRead()) && (state == DO_HANDSHAKE ==> earlyWrite)
      ensures Sends()
      ensures eng.shutdowns == old(eng.shutdowns)
      ensures unchanged(marks)
    {
      hide Bio.Valid, Bio.Window, WriteWatermarks.Valid, Inbox.Valid, Inbound, Flow, Story, Joined, Plain, Wires,
           Flatten, Buffer.Content, Nonempty, Pieced;
      var idx := 0;
      NoLines(accepted, data);
      err := None;
      while idx < |lines| && err.None?
        invariant 0 <= idx <= |lines|
        invariant Wires() && unchanged(marks) && if err.None? then Plain() else eng.plain <= accepted
        invariant Recorded(Flatten(data[..idx]))
        invariant err.None? && backlog != [] ==> (hadEagain || WantedRead()) && (state == DO_HANDSHAKE ==> earlyWrite)
        invariant Sends() && eng.shutdowns == old(eng.shutdowns)
        decreases |lines| - idx
      {
        LinesStep(old(accepted), data, idx);
        SameContent(lines[idx]);
        err := EncryptLine(lines[idx], data[idx]);
        idx := idx + 1;
      }
      FlattenConcat(data[..idx], data[idx..]);
      assert data == data[..idx] + data[idx..];
      if err.Some? {
        Accept(Flatten(data[idx..]));
      } else {
        assert data[..idx] == data;
      }
    }

    method EncryptLinesAndFlush(lines: seq<Buffer>, data: seq<seq<byte>>) returns (err: Option<Exn>)
      requires Wires() && Plain() && !IsClosing() && backlog == [] && Lines(lines, data)
      modifies eng, eng.outgoing, eng.outgoing.buf, sock, marks, this`accepted, this`early, this`hadEagain,
               this`registered, this`backlog, this`backlogSize, this`earlyWrite
      ensures Wires() && Recorded(Flatten(data))
      ensures Sends()
      ensures eng.shutdowns == old(eng.shutdowns)
      ensures if err.None? then Plain() && Flushed() && Awake() else eng.plain <= accepted
      ensures err.None? && backlogSize != 0 && state == DO_HANDSHAKE ==> earlyWrite
      ensures err.None? && old(Flow()) ==> Flow()
    {
      hide Bio.Valid, Bio.Window, WriteWatermarks.Valid, Inbox.Valid, Inbound, Story, Joined, Plain, Lines, Flatten,
           Pieced;
      NothingQueued();
      err := EncryptLines(lines, data);
      if err.None? {
        NothingQueued();
        var _, e := FlushOutgoingBio();
        err := e;
      }
      if err.None? {
        marks.MaybePauseProtocol(WriteBufferSize());
      }
    }

    method WriteLinesThrough(lines: seq<Buffer>, data: seq<seq<byte>>) returns (err: Option<Exn>)
      requires Valid() && !IsClosing() && backlogSize == 0 && Lines(lines, data)
      modifies eng, eng.outgoing, eng.outgoing.buf, sock, marks, this`accepted, this`early, this`hadEagain,
               this`registered, this`backlog, this`backlogSize, this`earlyWrite
      ensures After(err)
      ensures accepted == old(accepted) + Flatten(data)
      ensures Grows()
      ensures err.None? ==> Flushed() && Awake()
    {
      hide Bio.Valid, Bio.Window, WriteWatermarks.Valid, Inbox.Valid, Inbound, Plain, Ordered, Guarded, Leads, Story,
           Joined, Early, Flatten, Nonempty, Lines, Pieced;
      ValidIsHurt();
      EmptyQueue();
      var e := EncryptLinesAndFlush(lines, data);
      StillOrdered();
      StillEarly(Flatten(data));
      LeadsByWriting(old(Now()), Now());
      return e;
    }

    /** Lines that find other data queued before them: one look at the watermarks at the end. */
    method QueueLines(lines: seq<Buffer>, data: seq<seq<byte>>)
      requires Plain() && marks.Valid() && !IsClosing() && backlog != [] && Lines(lines, data)
      modifies this`accepted, this`early, this`backlog, this`backlogSize, this`earlyWrite, marks
      ensures Plain() && marks.Valid() && Recorded(Flatten(data))
      ensures old(backlog) <= backlog && backlogSize >= old(backlogSize) && (old(Flow()) ==> Flow())
    {
      hide Bio.Valid, Bio.Window, WriteWatermarks.Valid, Plain, Flatten;
      var idx := 0;
      NoLines(accepted, data);
      while idx < |lines|
        invariant 0 <= idx <= |lines|
        invariant Plain() && unchanged(marks) && backlog != [] && old(backlog) <= backlog && backlogSize >= old(backlogSize)
        invariant Recorded(Flatten(data[..idx]))
      {
        LinesStep(old(accepted), data, idx);
        SameContent(lines[idx]);
        QueueLine(lines[idx], false);
        idx := idx + 1;
      }
      assert data[..idx] == data;
      marks.MaybePauseProtocol(WriteBufferSize());
    }

    method WriteLinesBehind(lines: seq<Buffer>, data: seq<seq<byte>>)
      requires Valid() && !IsClosing() && backlogSize != 0 && Lines(lines, data)
      modifies this`accepted, this`early, this`backlog, this`backlogSize, this`earlyWrite, marks
      ensures Valid() && accepted == old(accepted) + Flatten(data) && Grows()
      ensures Kept() && Calm() && Resting() && old(backlog) <= backlog
    {
      hide Bio.Valid, Bio.Window, WriteWatermarks.Valid, Inbox.Valid, Inbound, Flow, Story, Joined, Plain, Early,
           Leads, Lines, Pieced, Resting;
      SizeMeansQueue();
      ValidIsHurt();
      QueueLines(lines, data);
      StillEarly(Flatten(data));
      QueuedRests();
      LeadsByWriting(old(Now()), Now());
    }

    /** The part of writelines_nocheck inside `try`. */
    method WriteLinesNow(lines: seq<Buffer>, data: seq<seq<byte>>)
      requires Valid() && !IsClosing() && backlogSize == 0 && Lines(lines, data)
      modifies this, eng, eng.outgoing, eng.outgoing.buf, sock, marks
      ensures Valid() && Grows() && Kept() && Calm() && Resting() && accepted == old(accepted) + Flatten(data)
    {
      hide Valid, Hurt, Leads, Lines, Rests;
      NoPlainQueued();
      LeadsFrom(Now());
      var err := WriteLinesThrough(lines, data);
      if err.Some? {
        HandleError(err.value);
      }
      RestsFromNothing(old(HeldNow()), HeldNow());
    }

    /** The rest of writelines_nocheck. */
    method WriteLinesReady(lines: seq<Buffer>, data: seq<seq<byte>>)
      requires Valid() && !IsClosing() && Lines(lines, data)
      modifies this, eng, eng.outgoing, eng.outgoing.buf, sock, marks
      ensures Valid() && Grows() && Kept() && Calm() && Resting() && accepted == old(accepted) + Flatten(data)
      ensures old(backlogSize) != 0 ==>
                && unchanged(eng, sock, this`state, this`finalizing, this`registered, this`hadEagain, this`readPaused)
                && old(backlog) <= backlog
    {
      hide Valid, Leads, Lines, Rests;
      if backlogSize != 0 {
        WriteLinesBehind(lines, data);
      } else {
        WriteLinesNow(lines, data);
      }
    }

    /** writelines_nocheck. */
    method WriteLines(lines: seq<Buffer>)
      requires Valid() && forall i :: 0 <= i < |lines| ==> lines[i].Valid() && Foreign(lines[i])
      modifies this, eng, eng.inbox, eng.outgoing, eng.outgoing.buf, sock, marks
      ensures Valid() && Grows() && Calm()
      ensures accepted == old(accepted) + if old(IsClosing()) then [] else Flatten(old(Contents(lines)))
      ensures Kept() && Resting()
      ensures old(backlogSize) != 0 && !old(IsClosing()) ==>
                && unchanged(eng, sock, this`state, this`finalizing, this`registered, this`hadEagain, this`readPaused)
                && old(backlog) <= backlog
    {
      hide Valid, Leads, Flushed, Wakes, Awake, Silent, Buffer.Content, Rests;
      LeadsFrom(Now());
      var data := Contents(lines);
      var ready := CheckReady();
      if ready {
        assert Lines(lines, data);
        WriteLinesReady(lines, data);
      }
    }

    /** One item of the queue goes to the engine, or what the engine leaves of it stays in its place. */
    method EncryptItem(completed: nat) returns (done: bool, err: Option<Exn>)
      requires Wires() && PlainFrom(completed) && completed < |backlog|
      modifies eng, eng.outgoing, eng.outgoing.buf, sock, this`hadEagain, this`registered, this`backlog,
               this`backlogSize
      ensures Wires()
      ensures Sends() && eng.shutdowns == old(eng.shutdowns)
      ensures eng.plain <= accepted
      ensures |backlog| == |old(backlog)| && old(eng.writes) < eng.writes
      ensures done ==> err.None? && PlainFrom(completed + 1) && backlog == old(backlog)
      ensures !done && err.None? ==> PlainFrom(completed) && (hadEagain || WantedRead())
      ensures backlogSize <= old(backlogSize)
    {
      hide Bio.Valid, Bio.Window, WriteWatermarks.Valid, Inbox.Valid, Inbound, Flow, Story, Joined, Flatten, Pieced;
      var data := backlog[completed];
      ghost var before := eng.plain;
      ghost var later := Flatten(backlog[completed + 1..]);
      FlattenFrom(backlog, completed);
      Assoc(before, data, later);
      var tail, e := WriteImpl(Some(Buffer.Bytes(data)), data);
      if e.Some? {
        return false, e;
      }
      backlogSize := backlogSize - |data|;
      if tail.Some? {
        backlog := backlog[completed := tail.value.Fixed()];
        backlogSize := backlogSize + |tail.value.Fixed()|;
        FlattenFrom(backlog, completed);
        assert backlog[completed + 1..] == old(backlog)[completed + 1..];
        Assoc(eng.plain, tail.value.Fixed(), later);
      }
      return tail.None?, None;
    }

    /** The loop of _flush_write_backlog: how many leading items went to the engine completely. */
    method EncryptBacklog() returns (completed: nat, err: Option<Exn>)
      requires Wires() && Plain() && !finalizing
      modifies eng, eng.outgoing, eng.outgoing.buf, sock, this`hadEagain, this`registered, this`backlog,
               this`backlogSize
      ensures Wires()
      ensures Sends() && eng.shutdowns == old(eng.shutdowns)
      ensures eng.plain <= accepted
      ensures completed <= |backlog|
      ensures err.None? ==> PlainFrom(completed) && (completed < |backlog| ==> hadEagain || WantedRead())
      ensures old(backlog) != [] ==> old(eng.writes) < eng.writes
      ensures err.None? ==> backlogSize <= old(backlogSize)
    {
      hide Bio.Valid, Bio.Window, WriteWatermarks.Valid, Inbox.Valid, Inbound, Flow, Story, Joined, Wires, Flatten,
           Pieced;
      completed := 0;
      assert backlog[0..] == backlog;
      while completed < |backlog|
        invariant completed <= |backlog|
        invariant Wires() && PlainFrom(completed) && |backlog| == |old(backlog)|
        invariant Sends() && eng.shutdowns == old(eng.shutdowns) && backlogSize <= old(backlogSize)
        invariant old(eng.writes) <= eng.writes && (completed > 0 ==> old(eng.writes) < eng.writes)
        decreases |backlog| - completed
      {
        var done;
        done, err := EncryptItem(completed);
        if !done {
          return;
        }
        completed := completed + 1;
      }
      return completed, None;
    }

    /** `del self._write_backlog[:items_completed]`. */
    method DropCompleted(completed: nat)
      requires PlainFrom(completed) && !finalizing
      modifies this`backlog
      ensures Plain() && backlogSize == old(backlogSize)
      ensures completed == |old(backlog)| ==> backlogSize == 0
    {
      if completed > 0 {
        backlog := backlog[completed..];
      } else {
        assert backlog[0..] == backlog;
      }
    }

    /** The loop, the flush after it, the removal of what is done, and the flow control. */
    method EncryptAndFlush() returns (err: Option<Exn>)
      requires Wires() && Plain() && !finalizing
      modifies eng, eng.outgoing, eng.outgoing.buf, sock, marks, this`hadEagain, this`registered, this`backlog,
               this`backlogSize, this`earlyWrite
      ensures Wires() && Sends() && eng.shutdowns == old(eng.shutdowns)
      ensures if err.None? then Plain() && Flushed() && Awake() else eng.plain <= accepted
      ensures old(backlog) != [] ==> old(eng.writes) < eng.writes
      ensures err.None? && old(Flow()) ==> Flow()
      ensures earlyWrite ==> old(earlyWrite)
    {
      hide Bio.Valid, Bio.Window, WriteWatermarks.Valid, Inbox.Valid, Inbound, PlainFrom, Plain, Story, Joined, Pieced;
      var completed, e := EncryptBacklog();
      if e.None? {
        var _, e' := FlushOutgoingBio();
        e := e';
      }
      if e.None? {
        DropCompleted(completed);
        marks.MaybeResumeProtocol(WriteBufferSize());
        earlyWrite := false;
      }
      return e;
    }

    /** _flush_write_backlog once there is something to do. */
    method FlushQueue() returns (err: Option<Exn>)
      requires Valid() && state in {WRAPPED, FLUSHING} && !finalizing
      modifies eng, eng.outgoing, eng.outgoing.buf, sock, marks, this`hadEagain, this`registered, this`backlog,
               this`backlogSize, this`earlyWrite
      ensures After(err) && Grows()
      ensures err.None? ==> Flushed() && Awake()
      ensures old(backlog) != [] ==> old(eng.writes) < eng.writes
    {
      hide Bio.Valid, Bio.Window, WriteWatermarks.Valid, Inbox.Valid, Inbound, Flow, Story, Joined, PlainFrom, Plain,
           Ordered, Guarded, Wires, Leads, Pieced;
      ValidIsHurt();
      var e := EncryptAndFlush();
      StillOrdered();
      LeadsByWriting(old(Now()), Now());
      return e;
    }

    lemma SizeMeansQueue()
      requires Plain() && backlogSize != 0
      ensures !finalizing && backlog != []
    {
    }

    /** _flush_write_backlog. */
    method FlushWriteBacklog() returns (err: Option<Exn>)
      requires Valid()
      modifies eng, eng.outgoing, eng.outgoing.buf, sock, marks, this`hadEagain, this`registered, this`backlog,
               this`backlogSize, this`earlyWrite
      ensures After(err) && Grows()
      ensures err.None? && !(state in {WRAPPED, FLUSHING}) ==> backlog == old(backlog)
      ensures err.None? && state in {WRAPPED, FLUSHING} ==> Awake()

      ensures old(backlogSize) != 0 && state in {WRAPPED, FLUSHING} && !finalizing ==> old(eng.writes) < eng.writes
      ensures err.None? ==> Kept()
    {
      hide Bio.Valid, Bio.Window, WriteWatermarks.Valid, Inbox.Valid, Inbound, Flow, Story, Joined, Plain, Leads,
           Pieced;
      LeadsFrom(Now());
      ValidIsHurt();
      if (state == WRAPPED || state == FLUSHING) && backlogSize != 0 {
        SizeMeansQueue();
        err := FlushQueue();
      } else {
        err := None;
      }
    }

    // ---------------------------------------------------------------- closing

    /** _should_retry_read: what to do with the code that ended an engine read. */
    method ShouldRetryRead(code: SslError) returns (retry: bool, err: Option<Exn>)
      requires Valid()
      modifies this, eng, eng.inbox, eng.outgoing, eng.outgoing.buf, sock, marks
      ensures After(err) && Grows()
      ensures err.None? ==> Kept()
      ensures Rank(old(state)) >= 2 ==> Silent() && (state == old(state) || state == UNWRAPPED)
      ensures retry ==> err.None? && code == WANT_WRITE && eng.outgoing.IsEmpty()
      ensures retry ==>
                && state == old(state) && finalizing == old(finalizing)
                && eng.inbox.inbound == old(eng.inbox.inbound) && !hadEagain
      ensures err.None? && Rank(state) < 2 ==> eng.inbox.readings == old(eng.inbox.readings)
      ensures err.None? && Rank(state) < 2 && !retry ==> code == WANT_READ || (code == WANT_WRITE && hadEagain)
      ensures |old(eng.inbox.readings)| <= |eng.inbox.readings|
      ensures err.None? && code == ZERO_RETURN && old(connected) ==> eofReceived
      ensures retry ==> readPaused == old(readPaused) && calls == old(calls)
      ensures err.None? && Rank(state) < 2 ==> unchanged(this`calls, this`state, this`finalizing, this`readPaused)
      decreases EofPending(), RankLeft(), 4
    {
      hide Valid, Hurt, Leads, Flushed, Wakes, Awake;
      LeadsFrom(Now());
      if code == WANT_READ {
        return false, None;
      }
      if code == WANT_WRITE {
        retry, err := FlushNow();
        return retry && err.None?, err;
      }
      if code == ZERO_RETURN {
        err := PeerHasClosed();
        return false, err;
      }
      ValidIsHurt();
      return false, Some(RuntimeErr);
    }

    /** The answer ZERO_RETURN: the peer has sent its close_notify. */
    method PeerHasClosed() returns (err: Option<Exn>)
      requires Valid()
      modifies this, eng, eng.inbox, eng.outgoing, eng.outgoing.buf, sock, marks
      ensures After(err) && Grows() && |old(eng.inbox.readings)| <= |eng.inbox.readings|
      ensures err.None? ==> Kept() && Rank(state) >= 2
      ensures Rank(old(state)) >= 2 ==> Silent() && (state == old(state) || state == UNWRAPPED)
      ensures err.None? && old(connected) ==> eofReceived
      decreases EofPending(), RankLeft(), 3
    {
      hide Bio.Valid, Bio.Window, WriteWatermarks.Valid, Inbox.Valid, Inbound, Flow, Story, Joined, Plain, Leads,
           Guarded, Staged, Wires, Ordered, Pieced;
      LeadsFrom(Now());
      err := CallProtocolEofReceived();
      if err.None? {
        LeadsFrom(Now());
        err := StartShutdown();
      } else {
        ValidIsHurt();
      }
    }

    /** _call_protocol_eof_received: at most once, and only between connection_made and connection_lost. */
    method CallProtocolEofReceived() returns (err: Option<Exn>)
      requires Valid()
      modifies this, eng, eng.inbox, eng.outgoing, eng.outgoing.buf, sock, marks
      ensures Valid() && Grows() && Kept() && Calm()
      ensures eofReceived <==> old(eofReceived) || old(connected)
      ensures !old(connected) || old(eofReceived) ==> err.None? && unchanged(this, eng, eng.inbox, eng.outgoing, sock)
      decreases EofPending(), RankLeft(), 2
    {
      hide Valid, Leads, Flushed, Wakes, Awake;
      LeadsFrom(Now());
      if !connected || eofReceived {
        return None;
      }
      MarkEof();
      LeadsFrom(Now());
      var raised := UserCode();
      return if raised then Some(UserError) else None;
    }

    method MarkEof()
      requires Valid() && connected && !eofReceived
      modifies this`eofReceived, this`calls
      ensures Valid() && Grows() && Kept() && Calm() && eofReceived && calls == old(calls) + [EofReceived]
    {
      hide Wires, Guarded, Plain, Ordered, Staged, Inbox.Valid, Flow, Joined, Early, Leads, Onward, Reached, Delivered,
           WellTimed, Undisturbed, LastRoom, InPieces, Chunks;
      Met();
      Extend(calls, EofReceived);
      eofReceived := true;
      calls := calls + [EofReceived];
      LeadsByEof(old(Now()), Now());
    }

    /** Application code running inside a callback: any number of transport calls, then a return or an exception. */
    method UserCode() returns (raised: bool)
      requires Valid()
      modifies this, eng, eng.inbox, eng.outgoing, eng.outgoing.buf, sock, marks
      ensures Valid() && Grows() && Kept() && Calm() && Resting()
      ensures rehearsed ==>
                Still() && state == old(state) && (eng.outgoing.IsEmpty() <==> old(eng.outgoing.IsEmpty()))
                && (!IsClosing() ==> readPaused)
      decreases EofPending(), RankLeft(), 11
    {
      hide Bio.Valid, Bio.Window, Valid, Leads, Rests, HeldNow;
      LeadsFrom(Now());
      RestsFrom(HeldNow());
      if rehearsed {
        PauseOnly();
        return false;
      }
      var calls: nat := *;
      while calls > 0
        invariant Valid() && Grows() && Kept() && Calm() && Resting()
        decreases calls
      {
        calls := calls - 1;
        LeadsFrom(Now());
        RestsFrom(old(HeldNow()));
        UserCall();
      }
      raised := *;
    }

    /** Any one call that application code may make on its transport. */
    method UserCall()
      requires Valid()
      modifies this, eng, eng.inbox, eng.outgoing, eng.outgoing.buf, sock, marks
      ensures Valid() && Grows() && Kept() && Calm() && Resting()
      decreases EofPending(), RankLeft(), 10
    {
      hide Valid, Leads, Kept, Calm, Armed, Rests;
      if {
        case true => AnyWrite();
        case true => Close();
        case true => OtherCall();
      }
    }

    /** The calls that write. */
    method AnyWrite()
      requires Valid()
      modifies this, eng, eng.inbox, eng.outgoing, eng.outgoing.buf, sock, marks
      ensures Valid() && Grows() && Kept() && Calm() && Resting()
    {
      hide Valid, Leads, Flushed, Wakes, Awake, Rests;
      LeadsFrom(Now());
      RestsFrom(HeldNow());
      if {
        case true =>
          var data: Buffer := *;
          if Foreign(data) {
            Write(data);
          }
        case true =>
          var lines: seq<Buffer> := *;
          if forall i | 0 <= i < |lines| :: lines[i].Valid() && Foreign(lines[i]) {
            WriteLines(lines);
          }
        case true =>
          var length: nat :| true;
          var memory := new byte[length];
          var at: nat, size: nat :| at + size <= length;
          WriteC(memory, at, size);
      }
    }

    /** Calls that send nothing. */
    method OtherCall()
      requires Valid()
      modifies this, eng, eng.inbox, eng.outgoing, eng.outgoing.buf, sock, marks
      ensures Valid() && Grows() && Kept() && Calm() && Resting()
    {
      hide Bio.Valid, Bio.Window, Wires, Guarded, Plain, Ordered, Inbox.Valid, Inbound, Flow, Story, Joined, Leads,
           Staged, Kept, Calm, Silent, Rests, Pieced, HeldNow;
      LeadsFrom(Now());
      RestsFrom(HeldNow());
      if {
        case true => AbortNow();
        case true => Configure();
        case true =>
          var high: Option<int>, low: Option<int> := *, *;
          var _ := SetWriteBufferLimits(high, low);
      }
    }

    /** set_write_buffer_limits(). */
    method SetWriteBufferLimits(high: Option<int>, low: Option<int>) returns (err: Option<Exn>)
      requires Valid()
      modifies marks
      ensures Valid() && Grows() && Kept() && Calm() && Resting()
      ensures err.Some? ==> unchanged(marks)
      ensures err.None? <==> InOrder(high, low)
      ensures err.None? ==> marks.highWater == EffectiveHigh(high, low) && marks.lowWater == EffectiveLow(high, low)
    {
      hide Bio.Valid, Bio.Window, WriteWatermarks.Valid, Inbox.Valid, Inbound, Guarded, Plain, Ordered, Staged, Leads,
           Onward, Rests;
      LeadsFrom(Now());
      RestsFrom(HeldNow());
      err := marks.SetWriteBufferLimits(WriteBufferSize(), high, low);
    }

    method Configure()
      modifies this`readPaused, this`readerAdded, this`protocolBuffered, this`upstream
      ensures Kept() && Calm() && Resting()
    {
      hide Bio.Valid, Bio.Window, Rests;
      RestsFrom(HeldNow());
      if {
        case true => PauseReading();
        case true => ResumeReading();
        case true => protocolBuffered, upstream := *, *;
      }
    }

    /** All that a rehearsed application does in a callback. */
    method PauseOnly()
      requires Valid()
      modifies this`readPaused, this`readerAdded
      ensures Valid() && Grows() && Kept() && Calm() && Resting()
      ensures !IsClosing() ==> readPaused
    {
      hide Wires, Guarded, Plain, Ordered, Staged, Inbound, Flow, Story, Early, Pieced, Joined, Leads, Flushed, Wakes,
           Awake, Rests;
      LeadsFrom(Now());
      RestsFrom(HeldNow());
      PauseReading();
    }

    method PauseReading()
      modifies this`readPaused, this`readerAdded
      ensures readPaused <==> old(readPaused) || !IsClosing()
      ensures readerAdded <==> old(readerAdded) && (IsClosing() || old(readPaused))
    {
      if IsClosing() || readPaused {
        return;
      }
      readPaused := true;
      readerAdded := false;
    }

    method ResumeReading()
      modifies this`readPaused, this`readerAdded
      ensures readPaused <==> old(readPaused) && IsClosing()
      ensures readerAdded <==> old(readerAdded) || (!IsClosing() && old(readPaused))
    {
      if IsClosing() || !readPaused {
        return;
      }
      readPaused := false;
      readerAdded := true;
    }

    /** _start_shutdown. */
    method StartShutdown() returns (err: Option<Exn>)
      requires Valid()
      modifies this, eng, eng.inbox, eng.outgoing, eng.outgoing.buf, sock, marks
      ensures After(err) && Grows()
      ensures err.None? ==> Kept() && Resting()
      ensures state == old(state) || Rank(state) >= 2
      ensures old(state) in {FLUSHING, SHUTDOWN, UNWRAPPED} ==>
                err.None? && unchanged(this, eng, eng.inbox, eng.outgoing, sock)
      ensures old(state) == DO_HANDSHAKE ==> Silent()
      ensures Rank(state) >= 2
      ensures old(state) == DO_HANDSHAKE ==> err.None? && early == old(early)
      decreases EofPending(), RankLeft(), 2
    {
      hide Valid, Hurt, Leads, Flushed, Wakes, Awake, Rests;
      LeadsFrom(Now());
      RestsFrom(HeldNow());
      if state == FLUSHING || state == SHUTDOWN || state == UNWRAPPED {
        return None;
      }
      if state == DO_HANDSHAKE {
        ValidIsHurt();
        Abort(None);
        FinalIsAwake();
        FinalRests();
        return None;
      }
      err := BeginFlushing();
      if err.None? {
        LeadsFrom(Now());
        err := DoFlush();
        AwakeIsWakes();
        if err.None? {
          RestsByReading(old(HeldNow()), HeldNow());
        }
      } else {
        ValidIsHurt();
      }
    }

    lemma AwakeIsWakes()
      ensures Awake() ==> Wakes()
    {
    }

    /** The switch to FLUSHING, and the timer. Without a loop there is no timer. */
    method BeginFlushing() returns (err: Option<Exn>)
      requires Valid() && state == WRAPPED
      modifies this`state, this`shutdownTimer
      ensures Valid() && Grows() && state == FLUSHING
      ensures old(Flushed()) ==> Flushed()
      ensures old(Wakes()) ==> Wakes()
    {
      hide Bio.Valid, Bio.Window, WriteWatermarks.Valid, Inbox.Valid, Wires, Plain, Leads, Draws, Onward, Story, Flow,
           Delivered, Pieced;
      var _ := SetState(FLUSHING);
      if detached {
        err := Some(AttributeErr);
      } else {
        shutdownTimer := true;
        err := None;
      }
      LeadsByClosing(old(Now()), Now());
    }

    /** One round of _do_read_into_void. */
    method VoidRound() returns (again: bool, err: Option<Exn>)
      requires Valid() && Rank(state) >= 2
      modifies this, eng, eng.inbox, eng.outgoing, eng.outgoing.buf, sock, marks
      ensures After(err) && Grows()
      ensures err.None? ==> Kept()
      ensures Silent()
      ensures state == old(state) || state == UNWRAPPED
      ensures again ==> err.None? && state == old(state)
      ensures again && |eng.inbox.inbound| == |old(eng.inbox.inbound)| ==>
                !old(eng.outgoing.IsEmpty()) && eng.outgoing.IsEmpty()
      ensures |old(eng.inbox.readings)| < |eng.inbox.readings|
      decreases EofPending(), RankLeft(), 5
    {
      hide Bio.Valid, Bio.Window, WriteWatermarks.Valid, Inbox.Valid, Inbound, Flow, Story, Joined, Wires, Guarded,
           Plain, Leads, Ordered, Early, Bare, Pieced;
      LeadsFrom(Now());
      ValidIsHurt();
      var v := ReadVoid();
      LeadsFrom(Now());
      ValidIsHurt();
      if v.Raised? {
        again, err := false, Some(v.exn);
      } else if v.code == NONE {
        again, err := true, None;
      } else {
        again, err := ShouldRetryRead(v.code);
      }
    }

    /** _do_read_into_void: discards whatever the peer still sends. */
    method DoReadIntoVoid() returns (err: Option<Exn>)
      requires Valid() && Rank(state) >= 2
      modifies this, eng, eng.inbox, eng.outgoing, eng.outgoing.buf, sock, marks
      ensures After(err) && Grows()
      ensures err.None? ==> Kept()
      ensures Silent()
      ensures state == old(state) || state == UNWRAPPED
      ensures |old(eng.inbox.readings)| < |eng.inbox.readings|
      decreases EofPending(), RankLeft(), 6
    {
      hide Bio.Valid, Bio.Window, WriteWatermarks.Valid, Inbox.Valid, Inbound, Flow, Story, Joined, Wires, Guarded,
           Plain, Leads, Pieced;
      LeadsFrom(Now());
      while true
        invariant Valid() && Grows() && Kept()
        invariant Silent()
        invariant state == old(state)
        decreases |eng.inbox.inbound|, if eng.outgoing.IsEmpty() then 0 else 1
      {
        LeadsFrom(Now());
        var again, e := VoidRound();
        if !again {
          return e;
        }
      }
    }

    /** _do_flush: the step from FLUSHING to SHUTDOWN, taken exactly when nothing is left to send. */
    method DoFlush() returns (err: Option<Exn>)
      requires Valid() && state == FLUSHING
      modifies this, eng, eng.inbox, eng.outgoing, eng.outgoing.buf, sock, marks
      ensures After(err) && Grows()
      ensures err.None? ==> Awake() && (old(Flushed()) ==> Flushed())
      ensures Rank(state) >= 2
      ensures err.None? && state == FLUSHING ==> eng.Valid() && LocalWriteBufferSize() != 0
      ensures |old(eng.inbox.readings)| < |eng.inbox.readings|
      decreases EofPending(), RankLeft(), 9
    {
      hide Bio.Valid, Bio.Window, WriteWatermarks.Valid, Inbox.Valid, Inbound, Flow, Story, Joined, Plain, Ordered,
           Guarded, Staged, Wires, Leads, Pieced;
      LeadsFrom(Now());
      err := ReadAndFlush();
      if err.None? {
        ValidIsHurt();
        if LocalWriteBufferSize() == 0 {
          LeadsFrom(Now());
          err := EnterShutdown();
        }
      }
    }

    /** The beginning of _do_flush. */
    method ReadAndFlush() returns (err: Option<Exn>)
      requires Valid() && state == FLUSHING
      modifies this, eng, eng.inbox, eng.outgoing, eng.outgoing.buf, sock, marks
      ensures After(err) && Grows()
      ensures err.None? ==> Awake() && (old(Flushed()) ==> Flushed()) && rawEof.None?
      ensures state == FLUSHING || state == UNWRAPPED
      ensures |old(eng.inbox.readings)| < |eng.inbox.readings|
      decreases EofPending(), RankLeft(), 7
    {
      hide Bio.Valid, Bio.Window, WriteWatermarks.Valid, Inbox.Valid, Inbound, Flow, Story, Joined, Plain, Ordered,
           Guarded, Staged, Wires, Leads, Pieced;
      LeadsFrom(Now());
      ValidIsHurt();
      err := DoReadIntoVoid();
      if err.None? && backlogSize != 0 {
        err := FlushWriteBacklog();
      }
      if err.None? {
        ValidIsHurt();
      }
    }

    /** The last two lines of _do_flush. Application code may have aborted the connection in the meantime. */
    method EnterShutdown() returns (err: Option<Exn>)
      requires Valid() && LocalWriteBufferSize() == 0 && (state == FLUSHING || state == UNWRAPPED) && rawEof.None?
      modifies this, eng, eng.inbox, eng.outgoing, eng.outgoing.buf, sock, marks
      ensures After(err) && Grows()
      ensures err.None? ==> Awake() && Flushed()
      ensures Rank(state) >= 2
      ensures err.None? ==> Rank(state) >= 3
      decreases EofPending(), RankLeft(), 8
    {
      hide Valid, Hurt, Leads, Flushed, Awake;
      LeadsFrom(Now());
      err := SwitchToShutdown();
      if err.None? {
        LeadsFrom(Now());
        err := DoShutdown();
      } else {
        ValidIsHurt();
      }
    }

    method SwitchToShutdown() returns (err: Option<Exn>)
      requires Valid() && LocalWriteBufferSize() == 0 && (state == FLUSHING || state == UNWRAPPED) && rawEof.None?
      modifies this`state
      ensures Valid() && Grows() && state == if err.None? then SHUTDOWN else UNWRAPPED
    {
      hide Bio.Valid, Bio.Window, WriteWatermarks.Valid, Inbox.Valid, Plain, Leads, Draws, Onward, Story, Flow,
           Delivered, Wires, Pieced;
      ValidIsHurt();
      OutgoingIsEmpty();
      err := SetState(SHUTDOWN);
      LeadsByClosing(old(Now()), Now());
    }

    lemma OutgoingIsEmpty()
      requires eng.Valid() && LocalWriteBufferSize() == 0 && backlogSize >= 0
      ensures eng.outgoing.IsEmpty()
    {
    }

    /** _do_shutdown. */
    method DoShutdown() returns (err: Option<Exn>)
      requires Valid() && state == SHUTDOWN && rawEof.None?
      modifies this, eng, eng.inbox, eng.outgoing, eng.outgoing.buf, sock, marks
      ensures After(err) && Grows()
      ensures err.None? ==> Flushed() && Awake()
      ensures err.None? ==> eng.shutdowns > 0
      ensures Rank(state) >= 3
      ensures err.None? ==> Parted(old(eng.shutdowns))
      ensures |old(eng.inbox.readings)| < |eng.inbox.readings|
      decreases EofPending(), RankLeft(), 7
    {
      hide Bio.Valid, Bio.Window, WriteWatermarks.Valid, Inbox.Valid, Inbound, Flow, Story, Joined, Plain, Leads,
           Pieced;
      LeadsFrom(Now());
      err := DoReadIntoVoid();
      if err.Some? {
        return;
      }
      while true
        invariant Valid() && Grows()
        invariant Rank(state) >= 3 && (eng.shutdowns == 0 ==> eng.outgoing.IsEmpty())
        invariant old(eng.shutdowns) <= eng.shutdowns && |old(eng.inbox.readings)| < |eng.inbox.readings|
        decreases if eng.outgoing.IsEmpty() then 0 else 1, eng.stalls
      {
        var again, e := ShutdownRound();
        if !again {
          return e;
        }
      }
    }

    /** One round of the loop in _do_shutdown. */
    method ShutdownRound() returns (again: bool, err: Option<Exn>)
      requires Valid() && Rank(state) >= 3 && rawEof.None?
      requires eng.shutdowns == 0 ==> eng.outgoing.IsEmpty()
      modifies this, eng, eng.outgoing, eng.outgoing.buf, sock, marks
      ensures After(err) && Grows()
      ensures eng.shutdowns > 0 && Rank(state) >= 3
      ensures again ==>
                && err.None? && eng.outgoing.IsEmpty()
                && (old(eng.outgoing.IsEmpty()) ==> eng.stalls < old(eng.stalls))
      ensures !again && err.None? ==> Flushed() && Awake()
      ensures old(eng.shutdowns) < eng.shutdowns && (!again && err.None? ==> Parted(old(eng.shutdowns)))
    {
      hide Valid, Hurt, Leads, Flushed, Awake, Bare, Kept, Wakes;
      LeadsFrom(Now());
      again := false;
      var v := CallShutdown();
      ValidIsHurt();
      LeadsFrom(Now());
      if v.Raised? {
        err := Some(v.exn);
      } else {
        again, err := SettleShutdown(v.code);
      }
    }

    /** What _do_shutdown does with the answer of engine.shutdown. */
    method SettleShutdown(code: SslError) returns (again: bool, err: Option<Exn>)
      requires Valid() && Rank(state) >= 3 && eng.shutdowns > 0 && code in {NONE, WANT_READ, WANT_WRITE}
      modifies this`hadEagain, this`shutdownTimer, this`backlog, this`backlogSize, this`registered, this`readerAdded,
               this`finalizing, eng.outgoing, sock
      ensures After(err) && Grows()
      ensures again ==> err.None? && code == WANT_WRITE && eng.outgoing.IsEmpty()
      ensures !again && err.None? ==> Flushed() && Awake()
      ensures code == NONE && err.None? ==> finalizing
      ensures !again && err.None? ==> finalizing || code == WANT_READ || (code == WANT_WRITE && hadEagain)
    {
      hide Valid, Hurt, Leads, Flushed, Wakes;
      LeadsFrom(Now());
      var ok;
      ok, err := FlushNow();
      if err.None? && code == NONE {
        LeadsFrom(Now());
        ValidIsHurt();
        OnShutdownComplete(None);
        FinalIsAwake();
      } else if err.None? {
        NotLate();
      }
      again := code == WANT_WRITE && ok && err.None?;
    }

    /** engine.shutdown, with the world as it is at the first call put on record. */
    method CallShutdown() returns (v: Verdict)
      requires Valid() && Rank(state) >= 3 && rawEof.None?
      requires eng.shutdowns == 0 ==> eng.outgoing.IsEmpty()
      modifies this`firstShutdown, eng`stalls, eng`shutdowns, eng`lastShutdown, eng.outgoing, eng.outgoing.buf
      ensures Valid() && eng.shutdowns > 0 && Grows()
      ensures v.Answer? ==> v.code in {NONE, WANT_READ, WANT_WRITE}
      ensures v == Answer(WANT_WRITE) && old(eng.outgoing.IsEmpty()) ==> eng.stalls < old(eng.stalls)
      ensures eng.shutdowns == old(eng.shutdowns) + 1 && eng.lastShutdown == v
    {
      hide Bio.Valid, Inbound, Flow, Story, Early, Joined, Staged, Plain, Draws, Leads, Onward, Nonempty, Pieced;
      if firstShutdown.None? {
        firstShutdown := Some(Snapshot(sock.wire, eng.outgoing.put, eng.plain, accepted, finalizing));
        NothingKeptBack();
        NothingOnTheWay();
      }
      v := eng.Shutdown();
      LeadsByShutdown(old(Now()), Now());
    }

    lemma NothingOnTheWay()
      requires Wires()
      ensures eng.outgoing.IsEmpty() ==> sock.wire == eng.outgoing.put
    {
    }

    lemma NothingKeptBack()
      requires Plain() && Staged()
      ensures state == SHUTDOWN && !finalizing ==> eng.plain == accepted
    {
      if state == SHUTDOWN && !finalizing {
        EmptyQueue();
      }
    }

    /** abort(). */
    method AbortNow()
      requires Valid()
      modifies this`state, this`backlog, this`backlogSize, this`registered, this`readerAdded, this`finalizing
      ensures Valid() && finalizing && state == UNWRAPPED && Grows()
      ensures Kept() && Calm() && Resting()
    {
      ValidIsHurt();
      Abort(None);
      FinalRests();
    }

    /** close(). */
    method Close()
      requires Valid()
      modifies this, eng, eng.inbox, eng.outgoing, eng.outgoing.buf, sock, marks
      ensures Valid() && Grows() && Kept() && Calm() && Resting()
      ensures IsClosing() && (old(state) == DO_HANDSHAKE ==> early == old(early))
      ensures old(state) in {FLUSHING, SHUTDOWN, UNWRAPPED} ==> unchanged(this, eng, eng.inbox, eng.outgoing, sock)
      decreases EofPending(), RankLeft(), 9
    {
      hide Bio.Valid, Bio.Window, WriteWatermarks.Valid, Inbox.Valid, Inbound, Flow, Story, Joined, Plain, Leads,
           Rests, Pieced;
      LeadsFrom(Now());
      RestsFrom(HeldNow());
      var err := StartShutdown();
      if err.Some? {
        HandleError(err.value);
        FinalRests();
      }
    }

    // ---------------------------------------------------------------- reading

    /** All is well except that `data` has been read and is still to be delivered. */
    ghost predicate Owed(data: seq<byte>)
      reads this, eng, eng.inbox, eng.outgoing, eng.outgoing.buf, sock, marks
    {
      && Wires() && Guarded() && Plain() && Ordered() && Staged() && Flow() && Story() && Early() && Joined()
      && eng.inbox.Valid()
      && (Rank(state) < 2 && !finalizing ==> Delivered(calls) + data == eng.inbox.taken)
      && Unread(data)
    }

    /** What has been read last is still to be delivered. */
    ghost predicate Unread(data: seq<byte>)
      reads this`calls, this`places, eng.inbox`taken
    {
      var n := |eng.inbox.taken| - |data|;
      0 <= n && eng.inbox.taken[n..] == data && PiecedUpTo(n)
    }

    /** Where a chunk begins that has just been read. */
    ghost function PlaceOf(data: seq<byte>): seq<nat>
      requires |data| <= |eng.inbox.taken|
      reads eng.inbox`taken
    {
      if data == [] then [] else [|eng.inbox.taken| - |data|]
    }

    lemma HandOver(data: seq<byte>)
      requires Unread(data)
      ensures |data| <= |eng.inbox.taken|
      ensures InPieces(Chunks(calls) + Piece(data), places + PlaceOf(data), eng.inbox.taken[..|eng.inbox.taken|])
    {
      var taken := eng.inbox.taken;
      var n := |taken| - |data|;
      PieceAdded(Chunks(calls), places, taken[..n], data);
      assert taken[..n] + data == taken[..|taken|];
    }

    lemma NothingOwed()
      ensures Owed([]) <==> Valid()
    {
      hide Wires, Guarded, Plain, Ordered, Staged, Inbox.Valid;
      assert Delivered(calls) + [] == Delivered(calls);
    }

    /** Whatever is read comes behind all that was delivered. */
    twostate lemma ReadAhead(new data: seq<byte>)
      requires old(Pieced()) && eng.inbox.taken == old(eng.inbox.taken) + data && unchanged(this`calls, this`places)
      ensures Pieced() && Unread(data)
    {
      hide InPieces, Chunks;
      var taken, so := eng.inbox.taken, old(eng.inbox.taken);
      assert so[..|so|] == so && taken[..|taken|] == so + data;
      assert taken[..|so|] == so && taken[|so|..] == data;
      PiecesGrow(Chunks(calls), places, so, data);
    }

    /** engine.read for the protocol. What was read before an exception is lost. */
    method ReadEngine(size: nat) returns (v: Verdict, data: seq<byte>)
      requires Valid()
      modifies eng.inbox
      ensures Hurt() && Leads(old(Now()), Now()) && (v.Answer? ==> Owed(data))
      ensures |data| <= size && old(eng.inbox.inbound) == data + eng.inbox.inbound
      ensures v.Answer? ==> v.code in {NONE, WANT_READ, WANT_WRITE, ZERO_RETURN}
      ensures v == Answer(NONE) <==> |data| == size
      ensures v == Answer(WANT_WRITE) ==> !eng.outgoing.IsEmpty()
      ensures eng.inbox.readings == old(eng.inbox.readings) + [v]
    {
      hide Wires, Guarded, Plain, Ordered, Staged, Inbox.Valid, Flow, Story, Early, Joined, Leads, Onward, Pieced,
           Unread;
      ValidIsHurt();
      v, data := eng.Read(size);
      ReadAhead(data);
      LeadsByReading(old(Now()), Now());
    }

    /** engine.read into the void. */
    method ReadVoid() returns (v: Verdict)
      requires Valid() && Rank(state) >= 2
      modifies eng.inbox
      ensures Valid() && Leads(old(Now()), Now())
      ensures v == Answer(NONE) ==> |eng.inbox.inbound| < |old(eng.inbox.inbound)|
      ensures v.Answer? ==> v.code in {NONE, WANT_READ, WANT_WRITE, ZERO_RETURN}
      ensures v == Answer(WANT_WRITE) ==> !eng.outgoing.IsEmpty()
      ensures |old(eng.inbox.readings)| < |eng.inbox.readings|
    {
      hide Wires, Guarded, Plain, Ordered, Staged, Inbox.Valid, Flow, Story, Early, Joined, Leads, Onward, Pieced,
           Unread;
      ValidIsHurt();
      var discarded;
      v, discarded := eng.Read(VOID_BUFFER_SIZE);
      ReadAhead(discarded);
      LeadsByReading(old(Now()), Now());
    }

    function NowGate(): Gate
      reads this`readPaused, this`state, this`finalizing
    {
      Gate(readPaused, IsClosing())
    }

    /** A transport that still reads although it is closing has only just been closed by its protocol. */
    ghost predicate Fresh()
      reads this`calls, this`readPaused, this`state, this`finalizing
    {
      !readPaused && IsClosing() ==> JustLeft(calls, |calls|, NowGate())
    }

    /** The protocol is ready for a chunk: it has just supplied a buffer, or it takes what comes. */
    ghost predicate Offered(size: nat, buffered: bool)
      reads this`calls, this`readPaused, this`state, this`finalizing
    {
      if buffered then calls != [] && calls[|calls| - 1] == Supplied(size, NowGate())
      else !readPaused && Fresh()
    }

    /** A callback is made, or returns, with whatever it delivers. */
    ghost method Note(c: Callback<byte>, data: seq<byte>)
      requires Owed(data) && connected && !Single(c) && Chunk(c) == data && Timed(calls, |calls|, c)
      modifies this`calls, this`places
      ensures Valid() && Reads() && Kept() && Calm() && calls == old(calls) + [c]
    {
      hide Wires, Guarded, Plain, Ordered, Staged, Inbox.Valid, Flow, Early, Joined, Draws, Onward, Reached, Delivered,
           Chunks, Unread, Timed, WellTimed, Undisturbed, LastRoom, InPieces;
      Met();
      Extend(calls, c);
      HandOver(data);
      calls := calls + [c];
      places := places + PlaceOf(data);
      DrawsByCallback(old(Now()), Now());
    }

    lemma OfferedIsFresh(size: nat, buffered: bool)
      requires Offered(size, buffered)
      ensures Fresh()
    {
    }

    lemma ReturnedIsFresh()
      requires calls != [] && calls[|calls| - 1] == Returned(NowGate())
      ensures Fresh()
    {
    }

    lemma OfferedIsTimed(data: seq<byte>, size: nat, buffered: bool)
      requires Offered(size, buffered) && 0 < |data| <= size
      ensures Timed(calls, |calls|, if buffered then BufferUpdated(data, NowGate()) else DataReceived(data, NowGate()))
    {
      hide JustLeft;
    }

    static lemma OnlyEof(a: View, b: View)
      requires Leads(a, b)
      ensures b.input.calls == a.input.calls + if b.eofReceived && !a.eofReceived then [EofReceived] else []
      ensures WithoutEof(b.input.calls) == WithoutEof(a.input.calls)
      ensures a.closing ==> b.closing
    {
      WithoutEofConcat(a.input.calls, if b.eofReceived && !a.eofReceived then [EofReceived] else []);
    }

    /** Plaintext goes to the protocol. */
    method Deliver(data: seq<byte>, size: nat, buffered: bool) returns (err: Option<Exn>)
      requires Owed(data) && connected && Offered(size, buffered) && 0 < |data| <= size
      modifies this, eng, eng.inbox, eng.outgoing, eng.outgoing.buf, sock, marks
      ensures Valid() && Reads() && Kept() && Calm()
      ensures WithoutEof(calls) == WithoutEof(old(calls)) + Handing(data, buffered, old(NowGate()), NowGate())
      ensures Fresh()
    {
      hide Valid, Owed, Draws, Leads, Onward, Offered, Timed, Flushed, Wakes, Awake, WithoutEof, Fresh;
      DrawsFrom(Now());
      var c := if buffered then BufferUpdated(data, NowGate()) else DataReceived(data, NowGate());
      OfferedIsTimed(data, size, buffered);
      ghost var eof;
      err, eof := Ask(c, data);
      Exchange(old(calls), c, eof, Returned(NowGate()));
      NoteReturn();
    }

    /** A callback from its beginning to the moment before its return is noted. */
    method Ask(c: Callback<byte>, data: seq<byte>) returns (err: Option<Exn>, ghost eof: bool)
      requires Owed(data) && connected && !Single(c) && Chunk(c) == data && Timed(calls, |calls|, c)
      modifies this, eng, eng.inbox, eng.outgoing, eng.outgoing.buf, sock, marks
      ensures Valid() && connected && Reads() && Kept() && Calm()
      ensures calls == old(calls) + [c] + if eof then [EofReceived] else []
    {
      hide Valid, Owed, Draws, Leads, Onward, Timed, Flushed, Wakes, Awake;
      DrawsFrom(Now());
      Note(c, data);
      ghost var before := Now();
      err := CallProtocol();
      OnlyEof(before, Now());
      eof := eofReceived && !before.eofReceived;
    }

    /** A data_received / buffer_updated / get_buffer call on the protocol. */
    method CallProtocol() returns (err: Option<Exn>)
      requires Valid()
      modifies this, eng, eng.inbox, eng.outgoing, eng.outgoing.buf, sock, marks
      ensures Valid() && Grows() && Kept() && Calm()
    {
      var raised := UserCode();
      return if raised then Some(UserError) else None;
    }

    /** A read from the engine, and the delivery of what it has brought. */
    method TakeChunk(size: nat, buffered: bool) returns (v: Verdict, chunk: seq<byte>, err: Option<Exn>)
      requires Valid() && connected && Offered(size, buffered) && 0 < size
      modifies this, eng, eng.inbox, eng.outgoing, eng.outgoing.buf, sock, marks
      ensures After(err) && Reads()
      ensures err.None? ==> Kept() && v.Answer? && v.code in {NONE, WANT_READ, WANT_WRITE, ZERO_RETURN}
      ensures |chunk| <= size && chunk <= old(eng.inbox.inbound)
      ensures |eng.inbox.inbound| <= |old(eng.inbox.inbound)| - |chunk|
      ensures err.None? ==> (v == Answer(NONE) <==> |chunk| == size)
      ensures chunk == [] ==> unchanged(this, eng, eng.outgoing, sock)
      // the protocol gets just this chunk, closed or not
      ensures WithoutEof(calls) == WithoutEof(old(calls)) + Handing(chunk, buffered, old(NowGate()), NowGate())
      ensures Fresh()
      ensures v == Answer(WANT_WRITE) ==> !old(eng.outgoing.IsEmpty())
      ensures |old(eng.inbox.readings)| < |eng.inbox.readings|
      ensures err.None? && Rank(state) < 2 ==> eng.inbox.readings == old(eng.inbox.readings) + [v]
    {
      hide Bio.Valid, Bio.Window, WriteWatermarks.Valid, Inbox.Valid, Inbound, Flow, Story, Joined, Early, Wires,
           Guarded, Plain, Ordered, Staged, Owed, Draws, Leads, Onward, Offered, WithoutEof, Fresh, Pieced;
      DrawsFrom(Now());
      OfferedIsFresh(size, buffered);
      var data;
      v, data := ReadEngine(size);
      chunk := [];
      DrawsFrom(Now());
      if v.Raised? {
        err := Some(v.exn);
      } else if |data| > 0 {
        chunk := data;
        err := Deliver(data, size, buffered);
        ValidIsHurt();
      } else {
        err := None;
        NothingOwed();
      }
    }

    /** What both loops do when the engine has not filled the room. */
    method RetryRead(code: SslError) returns (again: bool, err: Option<Exn>)
      requires Valid() && Fresh()
      modifies this, eng, eng.inbox, eng.outgoing, eng.outgoing.buf, sock, marks
      ensures After(err) && Reads()
      ensures err.None? ==> Kept()
      ensures again ==>
                && err.None? && code == WANT_WRITE && eng.outgoing.IsEmpty() && !hadEagain
                && state == old(state) && eng.inbox.inbound == old(eng.inbox.inbound) && NowGate() == old(NowGate())
      ensures err.None? && Rank(state) < 2 ==> eng.inbox.readings == old(eng.inbox.readings)
      ensures err.None? && Rank(state) < 2 && !again ==> code == WANT_READ || (code == WANT_WRITE && hadEagain)
      ensures |old(eng.inbox.readings)| <= |eng.inbox.readings|
      ensures WithoutEof(calls) == WithoutEof(old(calls))
      ensures err.None? && (again || Rank(state) < 2) ==> Fresh()
    {
      hide Valid, Hurt, Draws, Leads, Onward, WithoutEof, JustLeft, Flushed, Wakes, Awake;
      DrawsFrom(Now());
      again, err := ShouldRetryRead(code);
      OnlyEof(old(Now()), Now());
    }

    /** One round of _do_read__copied; `r` is its part of the conversation. */
    method ReadCopiedRound() returns (again: bool, err: Option<Exn>, ghost r: Round)
      requires Valid() && connected && !readPaused && Fresh()
      modifies this, eng, eng.inbox, eng.outgoing, eng.outgoing.buf, sock, marks
      ensures After(err) && Reads()
      ensures err.None? ==> Kept()
      ensures again ==> err.None? && !readPaused && NowGate() == r.left
      ensures again && |eng.inbox.inbound| == |old(eng.inbox.inbound)| ==>
                !old(eng.outgoing.IsEmpty()) && eng.outgoing.IsEmpty()
      ensures !again && err.None? ==> ReadOut(|old(eng.inbox.readings)|)
      ensures |old(eng.inbox.readings)| < |eng.inbox.readings|
      ensures Fits(r, false) && r.entry == old(NowGate()) && r.chunk <= old(eng.inbox.inbound)
      ensures WithoutEof(calls) == WithoutEof(old(calls)) + Trace(r, false)
      ensures err.None? ==> (again <==> GoesOn(r)) && (again || Rank(state) < 2 ==> Fresh())
    {
      hide Valid, Hurt, Draws, Leads, Onward, WithoutEof, Fresh, Fits, GoesOn, Trace, Handing, Flushed, Wakes, Awake,
           Calm;
      DrawsFrom(Now());
      ghost var entry := NowGate();
      again := false;
      var v, chunk;
      v, chunk, err := TakeChunk(DATA_RECEIVED_MAX_SIZE, false);
      ghost var left := NowGate();
      DrawsFrom(Now());
      if err.None? && !readPaused {
        if |chunk| < DATA_RECEIVED_MAX_SIZE {
          again, err := RetryRead(v.code);
        } else {
          again := true;
        }
      }
      CopiedRound(entry, chunk, left, again && |chunk| < DATA_RECEIVED_MAX_SIZE);
      r := Round(entry, DATA_RECEIVED_MAX_SIZE, entry, chunk, left, again && |chunk| < DATA_RECEIVED_MAX_SIZE);
    }

    /** A read loop as a conversation: `rounds` is what happened, of which the last round may have been cut short by an
        exception after `said` callbacks. */
    twostate predicate Conversed(rounds: seq<Round>, said: nat, buffered: bool, whole: bool)
      reads this`calls, this`readPaused, this`state, this`finalizing
    {
      && rounds != [] && Chain(rounds, buffered) && rounds[0].entry == old(NowGate())
      && (whole ==> Complete(rounds, buffered) && said == |Trace(rounds[|rounds| - 1], buffered)|)
      && said <= |Trace(rounds[|rounds| - 1], buffered)|
      && WithoutEof(calls) == WithoutEof(old(calls)) + Dialogue(rounds[..|rounds| - 1], buffered)
                              + Trace(rounds[|rounds| - 1], buffered)[..said]
    }

    /** The same between two rounds. */
    twostate predicate Conversing(rounds: seq<Round>, buffered: bool)
      reads this`calls, this`readPaused, this`state, this`finalizing
    {
      && Chain(rounds, buffered) && WithoutEof(calls) == WithoutEof(old(calls)) + Dialogue(rounds, buffered)
      && (if rounds == [] then NowGate() == old(NowGate())
          else && rounds[0].entry == old(NowGate())
               && GoesOn(rounds[|rounds| - 1]) && rounds[|rounds| - 1].left == NowGate())
    }

    /** _do_read__copied. */
    method DoReadCopied() returns (err: Option<Exn>, ghost rounds: seq<Round>, ghost said: nat)
      requires Valid() && connected && !readPaused && Fresh()
      modifies this, eng, eng.inbox, eng.outgoing, eng.outgoing.buf, sock, marks
      ensures After(err) && Reads()
      ensures err.None? ==> Kept() && ReadOut(|old(eng.inbox.readings)|) && (Rank(state) < 2 ==> Fresh())
      ensures Conversed(rounds, said, false, err.None?) && (rounds != [] ==> said == |Trace(rounds[|rounds| - 1], false)|)
    {
      hide Valid, Hurt, Draws, Leads, Onward, WithoutEof, Chain, Dialogue, Complete, GoesOn, Trace, Fits, Fresh,
           Drained;
      DrawsFrom(Now());
      rounds := [];
      ChainBegins(WithoutEof(calls), false);
      while true
        invariant Valid() && Reads() && Kept() && connected && !readPaused && Fresh() && Conversing(rounds, false)
        invariant |old(eng.inbox.readings)| <= |eng.inbox.readings|
        decreases |eng.inbox.inbound|, if eng.outgoing.IsEmpty() then 0 else 1
      {
        DrawsFrom(Now());
        ghost var before := WithoutEof(calls);
        var again, e;
        ghost var r;
        again, e, r := ReadCopiedRound();
        ChainSnoc(rounds, r, false, old(WithoutEof(calls)), before);
        rounds := rounds + [r];
        if !again {
          return e, rounds, |Trace(r, false)|;
        }
      }
    }

    /** The protocol supplies a buffer of some size. It may use the transport before it answers. */
    method CallGetBuffer() returns (size: nat, err: Option<Exn>)
      requires Valid() && connected && !readPaused && Fresh()
      modifies this, eng, eng.inbox, eng.outgoing, eng.outgoing.buf, sock, marks
      ensures Valid() && Reads() && Kept() && Calm()
      ensures err.None? ==> 0 < size && Offered(size, true)
      ensures WithoutEof(calls) == WithoutEof(old(calls)) + [GetBuffer(old(NowGate()))]
                                   + if err.None? then [Supplied(size, NowGate())] else []
    {
      hide Valid, Owed, Draws, Leads, Onward, Flushed, Wakes, Awake, WithoutEof, JustLeft, Fresh, Timed, Offered;
      DrawsFrom(Now());
      var c: Callback<byte> := GetBuffer(NowGate());
      MayAsk();
      ghost var eof;
      err, eof := Ask(c, []);
      size :| true;
      if err.None? && size == 0 {
        err := Some(RuntimeErr);
      }
      Exchange(old(calls), c, eof, Supplied(size, NowGate()));
      if err.None? {
        NoteSupplied(size);
      }
    }

    lemma MayAsk()
      requires Valid() && !readPaused && Fresh()
      ensures Owed([]) && Timed(calls, |calls|, GetBuffer(NowGate()))
    {
      hide Owed, Valid;
      NothingOwed();
    }

    ghost method NoteSupplied(size: nat)
      requires Valid() && connected && Timed(calls, |calls|, Supplied(size, NowGate()))
      modifies this`calls, this`places
      ensures Valid() && Reads() && Kept() && Calm() && calls == old(calls) + [Supplied(size, NowGate())]
      ensures Offered(size, true)
    {
      hide Valid, Owed, Draws, Leads, Onward, Flushed, Wakes, Awake, JustLeft, Timed;
      NothingOwed();
      Note(Supplied(size, NowGate()), []);
    }

    ghost method NoteReturn()
      requires Valid() && connected && Timed(calls, |calls|, Returned(NowGate()))
      modifies this`calls, this`places
      ensures Valid() && Reads() && Kept() && Calm() && calls == old(calls) + [Returned(NowGate())] && Fresh()
    {
      hide Valid, Owed, Draws, Leads, Onward, Flushed, Wakes, Awake, JustLeft, Timed, Fresh;
      NothingOwed();
      Note(Returned(NowGate()), []);
      ReturnedIsFresh();
    }

    /** One round of _do_read__buffered, from the protocol's get_buffer on; `r` is its part of the conversation. */
    method ReadBufferedRound() returns (again: bool, err: Option<Exn>, ghost r: Round, ghost said: nat)
      requires Valid() && Flushed() && connected && !readPaused && Fresh()
      modifies this, eng, eng.inbox, eng.outgoing, eng.outgoing.buf, sock, marks
      ensures After(err) && Reads()
      ensures err.None? ==> Kept()
      ensures again ==> err.None? && !readPaused && NowGate() == r.left
      ensures again && |eng.inbox.inbound| == |old(eng.inbox.inbound)| && finalizing == old(finalizing) ==>
                || Rank(old(state)) < Rank(state)
                || (!old(eng.outgoing.IsEmpty()) && eng.outgoing.IsEmpty())
      ensures !again && err.None? ==> ReadOut(|old(eng.inbox.readings)|)
      ensures |old(eng.inbox.readings)| < |eng.inbox.readings| || err.Some?
      ensures Fits(r, true) && r.entry == old(NowGate()) && said <= |Trace(r, true)|
      ensures WithoutEof(calls) == WithoutEof(old(calls)) + Trace(r, true)[..said]
      ensures err.None? ==> (again <==> GoesOn(r)) && said == |Trace(r, true)| && (again || Rank(state) < 2 ==> Fresh())
    {
      hide Valid, Hurt, Draws, Leads, Onward, WithoutEof, Offered, Fresh, Fits, GoesOn, Trace, Handing, Wakes, Awake;
      DrawsFrom(Now());
      ghost var entry := NowGate();
      again := false;
      var size;
      size, err := CallGetBuffer();
      ghost var mid := NowGate();
      ValidIsHurt();
      if err.Some? {
        BufferedRound(entry, 1, mid, [], mid, false);
        r, said := Round(entry, 1, mid, [], mid, false), 1;
        return;
      }
      DrawsFrom(Now());
      ghost var chunk, left, retry;
      again, err, chunk, left, retry := FillBuffer(size);
      BufferedRound(entry, size, mid, chunk, left, retry);
      r := Round(entry, size, mid, chunk, left, retry);
      said := |Trace(r, true)|;
    }

    /** The part of a round that reads into the buffer the protocol has supplied. */
    method FillBuffer(size: nat)
      returns (again: bool, err: Option<Exn>, ghost chunk: seq<byte>, ghost left: Gate, ghost retry: bool)
      requires Valid() && 0 < size && connected && Offered(size, true)
      modifies this, eng, eng.inbox, eng.outgoing, eng.outgoing.buf, sock, marks
      ensures After(err) && Reads()
      ensures err.None? ==> Kept()
      ensures again ==> err.None? && !readPaused && NowGate() == left
      ensures again && |eng.inbox.inbound| == |old(eng.inbox.inbound)| ==>
                !old(eng.outgoing.IsEmpty()) && eng.outgoing.IsEmpty() && !old(hadEagain) && state == old(state)
      ensures !again && err.None? ==> ReadOut(|old(eng.inbox.readings)|)
      ensures |old(eng.inbox.readings)| < |eng.inbox.readings|
      ensures |chunk| <= size && chunk <= old(eng.inbox.inbound)
      ensures WithoutEof(calls) == WithoutEof(old(calls)) + Handing(chunk, true, old(NowGate()), left)
      ensures Onwards(old(NowGate()), left) && (chunk == [] ==> left == old(NowGate()))
      ensures err.None? ==> (again <==> !left.paused && (|chunk| == size || retry))
      ensures err.None? && (again || Rank(state) < 2) ==> Fresh()
    {
      hide Valid, Hurt, Draws, Leads, Onward, WithoutEof, Fresh, Handing, Offered, Flushed, Wakes, Awake, Calm;
      DrawsFrom(Now());
      again, retry := false, false;
      var v, got;
      v, got, err := TakeChunk(size, true);
      chunk, left := got, NowGate();
      DrawsFrom(Now());
      if err.None? {
        if |got| == size {
          again := !readPaused;
        } else {
          again, err := RetryRead(v.code);
          retry := again;
          again := again && !readPaused;
        }
      }
    }

    /** _do_read__buffered. */
    method DoReadBuffered() returns (err: Option<Exn>, ghost rounds: seq<Round>, ghost said: nat)
      requires Valid() && Flushed() && connected && !readPaused && Fresh()
      modifies this, eng, eng.inbox, eng.outgoing, eng.outgoing.buf, sock, marks
      ensures After(err) && Reads()
      ensures err.None? ==> Kept() && ReadOut(|old(eng.inbox.readings)|) && (Rank(state) < 2 ==> Fresh())
      ensures Conversed(rounds, said, true, err.None?)
    {
      hide Valid, Hurt, Draws, Leads, Onward, WithoutEof, Chain, Dialogue, Complete, GoesOn, Trace, Fits, Fresh,
           Drained;
      DrawsFrom(Now());
      rounds := [];
      ChainBegins(WithoutEof(calls), true);
      while true
        invariant Valid() && Reads() && Kept() && connected && !readPaused && Fresh() && Conversing(rounds, true)
        invariant |old(eng.inbox.readings)| <= |eng.inbox.readings|
        decreases |eng.inbox.inbound|, if finalizing then 0 else 1, RankLeft(), if eng.outgoing.IsEmpty() then 0 else 1
      {
        DrawsFrom(Now());
        ghost var before := WithoutEof(calls);
        var again, e;
        ghost var r;
        again, e, r, said := ReadBufferedRound();
        ChainSnoc(rounds, r, true, old(WithoutEof(calls)), before);
        rounds := rounds + [r];
        if !again {
          return e, rounds, said;
        }
      }
    }

    /** _do_read. The loop that fits the protocol runs unless reading is paused; `loopErr` is how it ended. */
    method DoRead() returns (err: Option<Exn>, ghost rounds: seq<Round>, ghost said: nat, ghost loopErr: Option<Exn>)
      requires Valid() && Flushed() && connected && Fresh()
      modifies this, eng, eng.inbox, eng.outgoing, eng.outgoing.buf, sock, marks
      ensures After(err) && Reads()
      ensures err.None? ==> Kept() && (Rank(state) < 2 ==> Fresh())
      ensures old(readPaused) ==> err.None? && unchanged(this, eng, eng.inbox, sock)
      ensures !old(readPaused) ==> Conversed(rounds, said, old(protocolBuffered), loopErr.None?)
      ensures loopErr.Some? ==> err == loopErr
      ensures err.None? && old(Honest()) && Rank(old(state)) >= 1 ==> Resting()
      ensures err.None? && !old(readPaused) ==> ReadOut(|old(eng.inbox.readings)|)
      ensures err.None? && !old(readPaused) && Rank(state) >= 1 ==> Awake() || (registered && old(backlogSize) != 0)
    {
      hide Valid, Hurt, Draws, Leads, Onward, Chain, Complete, Dialogue, Trace, WithoutEof, Fresh, Rests;
      DrawsFrom(Now());
      RestsFrom(HeldNow());
      rounds, said, loopErr := [], 0, None;
      if readPaused {
        return None, rounds, said, loopErr;
      }
      err, rounds, said := RunReadLoop();
      loopErr := err;
      if err.None? && !registered {
        DrawsFrom(Now());
        err := FlushAfterRead();
      }
      if err.None? && old(Honest()) && Rank(old(state)) >= 1 {
        RestsByReading(old(HeldNow()), HeldNow());
      }
    }

    /** The choice between the two loops. */
    method RunReadLoop() returns (err: Option<Exn>, ghost rounds: seq<Round>, ghost said: nat)
      requires Valid() && Flushed() && connected && !readPaused && Fresh()
      modifies this, eng, eng.inbox, eng.outgoing, eng.outgoing.buf, sock, marks
      ensures After(err) && Reads()
      ensures err.None? ==> Kept() && ReadOut(|old(eng.inbox.readings)|) && (Rank(state) < 2 ==> Fresh())
      ensures Conversed(rounds, said, old(protocolBuffered), err.None?)
    {
      hide Valid, Hurt, Draws, Leads, Onward, Conversed, Fresh;
      if protocolBuffered {
        err, rounds, said := DoReadBuffered();
      } else {
        err, rounds, said := DoReadCopied();
      }
    }

    /** The last lines of _do_read. */
    method FlushAfterRead() returns (err: Option<Exn>)
      requires Valid()
      modifies eng, eng.outgoing, eng.outgoing.buf, sock, marks, this`hadEagain, this`registered, this`backlog,
               this`backlogSize, this`earlyWrite
      ensures After(err) && Grows()
      ensures err.None? ==> Kept()
      ensures err.None? && Rank(state) >= 1 ==> Awake()
      ensures unchanged(eng.inbox, this`calls, this`state, this`finalizing, this`readPaused)
    {
      hide Valid, Hurt, Leads, Flushed, Wakes;
      LeadsFrom(Now());
      var ok;
      ok, err := FlushNow();
      if err.None? && backlogSize != 0 {
        if Rank(state) >= 3 {
          NotLate();
        }
        err := FlushWriteBacklog();
      }
    }

    lemma NotLate()
      requires Valid() && Rank(state) >= 3
      ensures finalizing || backlogSize == 0
    {
    }

    // ---------------------------------------------------------------- the handshake

    /** _call_protocol_connection_made; an exception from the application is only reported. */
    method CallProtocolConnectionMade()
      requires Unjoined() && Answer(NONE) in eng.inbox.handshakes && state == WRAPPED
      modifies this, eng, eng.inbox, eng.outgoing, eng.outgoing.buf, sock, marks
      ensures Valid() && Onward(old(Now()), Now()) && Armed() && Kept() && NoInput() && Resting()
      ensures !old(finalizing) ==> connected
      ensures rehearsed && !old(connected) && !old(finalizing) ==>
                Still() && state == WRAPPED && readPaused && (eng.outgoing.IsEmpty() <==> old(eng.outgoing.IsEmpty()))
      ensures old(connected) || old(finalizing) ==> unchanged(this, eng, eng.inbox, eng.outgoing, sock)
      ensures !old(connected) && !old(finalizing) ==> old(calls) + [ConnectionMade] <= calls && Fresh()
    {
      hide Valid, Unjoined, Draws, Leads, Onward, Flushed, Wakes, Awake, Rests, Fresh;
      OnwardFrom(Now());
      RestsFrom(HeldNow());
      if !connected && !finalizing {
        MarkMade();
        OnwardFrom(Now());
        RestsFrom(HeldNow());
        InConnectionMade();
      } else {
        AlreadyJoined();
      }
    }

    method InConnectionMade()
      requires Valid() && connected && calls != [] && calls[|calls| - 1] == ConnectionMade
      modifies this, eng, eng.inbox, eng.outgoing, eng.outgoing.buf, sock, marks
      ensures Valid() && Leads(old(Now()), Now()) && Armed() && Kept() && NoInput() && Resting()
      ensures connected && old(calls) <= calls && Fresh()
      ensures rehearsed ==>
                Still() && state == old(state) && (eng.outgoing.IsEmpty() <==> old(eng.outgoing.IsEmpty()))
                && (!IsClosing() ==> readPaused)
    {
      hide Valid, Draws, Leads, Onward, Flushed, Wakes, Awake, Rests, Fresh, Still, Calm;
      LeadsFrom(Now());
      var _ := UserCode();
      OnlyEof(old(Now()), Now());
      JustMade(old(calls));
    }

    method MarkMade()
      requires Unjoined() && !connected && !finalizing && Answer(NONE) in eng.inbox.handshakes
      modifies this`connected, this`calls
      ensures Valid() && Onward(old(Now()), Now()) && Kept() && connected && calls == old(calls) + [ConnectionMade]
    {
      hide Wires, Plain, Ordered, Staged, Inbox.Valid, Flow, Early, Onward, Reached, Delivered, WellTimed, Undisturbed,
           LastRoom, InPieces, Chunks;
      NotMet();
      Extend(calls, ConnectionMade);
      connected := true;
      calls := calls + [ConnectionMade];
      OnwardByEvent(old(Now()), Now());
    }

    lemma JustMade(so: seq<Callback<byte>>)
      requires so != [] && so[|so| - 1] == ConnectionMade && (calls == so + [] || calls == so + [EofReceived])
      ensures Fresh()
    {
    }

    lemma AlreadyJoined()
      requires Unjoined() && (connected || finalizing)
      ensures Valid()
    {
    }

    /** _on_handshake_complete without an exception. Reading the peer certificate may still raise one. */
    method HandshakeDone() returns (err: Option<Exn>)
      requires Valid() && state == DO_HANDSHAKE && !finalizing && Answer(NONE) in eng.inbox.handshakes
      modifies this, eng, eng.inbox, eng.outgoing, eng.outgoing.buf, sock, marks
      ensures After(err) && Onward(old(Now()), Now()) && Armed() && NoInput() && Offstage()
      ensures Rank(state) >= 1
      ensures err.None? ==> Kept() && Resting() && Steady() && !handshakeTimer && connected
      ensures err.Some? ==> hadEagain == old(hadEagain)
      ensures old(Cued()) ==> err.None? && Still() && state == WRAPPED && readPaused && eng.outgoing.IsEmpty()
    {
      hide Valid, Hurt, Unjoined, Draws, Leads, Onward, Flushed, Wakes, Awake, JustLeft, Rests;
      OnwardFrom(Now());
      RestsFrom(HeldNow());
      err := EnterWrapped();
      ghost var wrapped := Now();
      OnwardFrom(wrapped);
      if err.None? {
        CallProtocolConnectionMade();
        EarlyIsFixed(wrapped, Now());
      }
    }

    /** The handshake is over; the protocol does not know yet. */
    method EnterWrapped() returns (err: Option<Exn>)
      requires Valid() && state == DO_HANDSHAKE && !finalizing && Answer(NONE) in eng.inbox.handshakes
      modifies this`handshakeTimer, this`state
      ensures if err.None? then Unjoined() else Hurt()
      ensures Onward(old(Now()), Now()) && state == WRAPPED && !handshakeTimer && Kept() && Resting()
      ensures Answer(NONE) in eng.inbox.handshakes
      ensures eng.rehearsed ==> err.None?
    {
      hide Bio.Valid, Bio.Window, WriteWatermarks.Valid, Inbox.Valid, Wires, Plain, Draws, Leads, Onward, Story, Flow,
           Pieced;
      ValidIsHurt();
      handshakeTimer := false;
      var _ := SetState(WRAPPED);
      OnwardByEvent(old(Now()), Now());
      err := None;
      var unreadable: bool := *;
      if unreadable && !eng.rehearsed {
        err := Some(SslErr);
      }
    }

    /** What _do_handshake does with an answer. */
    method SettleHandshake(code: SslError) returns (again: bool, err: Option<Exn>)
      requires Valid() && state == DO_HANDSHAKE && !finalizing && code in {NONE, WANT_READ, WANT_WRITE}
      requires code == NONE ==> Answer(NONE) in eng.inbox.handshakes
      modifies this, eng, eng.inbox, eng.outgoing, eng.outgoing.buf, sock, marks
      ensures After(err) && Onward(old(Now()), Now()) && Armed() && NoInput() && Offstage()
      ensures again ==> err.None? && code == WANT_WRITE && eng.outgoing.IsEmpty() && state == DO_HANDSHAKE && !finalizing
      ensures again ==> eng.stalls == old(eng.stalls) && !hadEagain
      ensures err.None? ==> Flushed() && Kept() && Steady() && Resting()
      ensures err.Some? ==> (hadEagain ==> old(hadEagain))
      ensures code != NONE ==> unchanged(eng.inbox, this`state, this`finalizing)
      ensures old(Cued()) && code != WANT_WRITE && (code == NONE <==> old(eng.heard)) ==> err.None? && !again && Played()
      ensures code == NONE ==> Rank(state) >= 1
      ensures err.None? && !again ==>
                (Rank(state) >= 1 && connected) || code == WANT_READ || (code == WANT_WRITE && hadEagain)
    {
      hide Valid, Hurt, Draws, Leads, Onward, Flushed, Awake, JustLeft, Fresh, Rests;
      OnwardFrom(Now());
      if code == NONE {
        again := false;
        err := CompleteHandshake();
      } else {
        var ok;
        ok, err := FlushNow();
        again := code == WANT_WRITE && ok && err.None?;
        if err.None? {
          RestsFrom(old(HeldNow()));
          RestsInHandshake(old(HeldNow()), old(HeldNow()), old(HeldNow()), HeldNow());
        }
      }
    }

    /** The answer NONE. */
    method CompleteHandshake() returns (err: Option<Exn>)
      requires Valid() && state == DO_HANDSHAKE && !finalizing && Answer(NONE) in eng.inbox.handshakes
      modifies this, eng, eng.inbox, eng.outgoing, eng.outgoing.buf, sock, marks
      ensures After(err) && Onward(old(Now()), Now()) && Armed() && NoInput() && Offstage()
      ensures err.None? ==> Flushed() && Kept() && Steady() && Resting() && connected
      ensures err.Some? ==> (hadEagain ==> old(hadEagain))
      ensures Rank(state) >= 1
      ensures old(Cued()) ==> err.None? && Still() && state == WRAPPED && readPaused && eng.outgoing.IsEmpty()
    {
      hide Valid, Hurt, Draws, Leads, Onward, Flushed, Awake, JustLeft, Fresh, Rests, Wakes;
      OnwardFrom(Now());
      err := HandshakeDone();
      if err.None? {
        ghost var done := HeldNow();
        OnwardFrom(Now());
        var ok;
        ok, err := FlushNow();
        if err.None? {
          RestsInHandshake(old(HeldNow()), old(HeldNow()), done, HeldNow());
        }
      }
    }

    /** engine.do_handshake. */
    method CallHandshake() returns (v: Verdict)
      requires Valid() && state == DO_HANDSHAKE
      modifies eng`stalls, eng.inbox`handshakes, eng.outgoing, eng.outgoing.buf
      ensures Valid() && Onward(old(Now()), Now())
      ensures v.Answer? ==> v.code in {NONE, WANT_READ, WANT_WRITE}
      ensures v == Answer(WANT_WRITE) && old(eng.outgoing.IsEmpty()) ==> eng.stalls < old(eng.stalls)
      ensures eng.inbox.handshakes == old(eng.inbox.handshakes) + [v]
      ensures old(Cued()) ==> Cued() && Still() && v == Answer(if eng.heard then NONE else WANT_READ)
      ensures eng.rehearsed ==> v == Answer(if eng.heard then NONE else WANT_READ) && unchanged(eng.outgoing, eng`stalls)
    {
      hide Bio.Valid, Bio.Window, WriteWatermarks.Valid, Inbox.Valid, Inbound, Flow, Story, Joined, Early, Plain,
           Staged, Leads, Draws, Onward, Pieced;
      v := eng.DoHandshake();
      StillOrdered();
      OnwardByEvent(old(Now()), Now());
    }

    /** One round of the loop in _do_handshake. */
    method HandshakeRound() returns (again: bool, err: Option<Exn>)
      requires Valid() && state == DO_HANDSHAKE && !finalizing
      modifies this, eng, eng.inbox, eng.outgoing, eng.outgoing.buf, sock, marks
      ensures After(err) && Onward(old(Now()), Now()) && Armed() && NoInput() && Offstage()
      ensures again ==> err.None? && state == DO_HANDSHAKE && !finalizing && eng.outgoing.IsEmpty() && !hadEagain
                        && (old(eng.outgoing.IsEmpty()) ==> eng.stalls < old(eng.stalls))
      ensures err.None? ==> Flushed() && (old(Wakes()) ==> Wakes()) && (old(Awake()) ==> Awake()) && Steady() && Resting()
      ensures err.Some? ==> (hadEagain ==> old(hadEagain))
      ensures !again && err.None? ==> Shook(|old(eng.inbox.handshakes)|)
      ensures |old(eng.inbox.handshakes)| < |eng.inbox.handshakes|
      ensures old(Cued()) ==> err.None? && !again && Played()
    {
      hide Valid, Draws, Leads, Onward, JustLeft, Fresh, Hurt, Wakes, Awake, Rests, Steady, SceneNow, HeldNow, Cued;
      OnwardFrom(Now());
      again := false;
      var v := CallHandshake();
      ValidIsHurt();
      OnwardFrom(Now());
      if v.Raised? {
        err := Some(v.exn);
      } else {
        again, err := SettleHandshake(v.code);
      }
    }

    /** _do_handshake. */
    method DoHandshake() returns (err: Option<Exn>)
      requires Valid() && state == DO_HANDSHAKE && !finalizing
      modifies this, eng, eng.inbox, eng.outgoing, eng.outgoing.buf, sock, marks
      ensures After(err) && Onward(old(Now()), Now()) && Armed() && NoInput() && Offstage()
      ensures err.None? ==> Flushed() && Kept() && Steady() && Resting()
      ensures err.Some? ==> (hadEagain ==> old(hadEagain))
      ensures err.None? ==> Shook(|old(eng.inbox.handshakes)|)
      ensures old(Cued()) ==> err.None? && Played()
    {
      hide Valid, Hurt, Draws, Leads, Onward, JustLeft, Fresh, Flushed, Rests;
      OnwardFrom(Now());
      RestsFrom(HeldNow());
      while true
        invariant Valid() && state == DO_HANDSHAKE && !finalizing && NoInput() && Onward(old(Now()), Now()) && Armed()
        invariant (old(Wakes()) ==> Wakes()) && (old(Awake()) ==> Awake()) && Offstage() && Resting()
        invariant hadEagain ==> old(hadEagain)
        invariant old(Cued()) ==> Cued() && Still()
        invariant |old(eng.inbox.handshakes)| <= |eng.inbox.handshakes|
        decreases if eng.outgoing.IsEmpty() then 0 else 1, eng.stalls
      {
        OnwardFrom(Now());
        var again, e := HandshakeRound();
        if !again {
          return e;
        }
      }
    }

    // ---------------------------------------------------------------- events

    /** _incoming_bio_updated. */
    method IncomingBioUpdated() returns (err: Option<Exn>)
      requires Valid() && Flushed() && rawEof.None? && Steady()
      modifies this, eng, eng.inbox, eng.outgoing, eng.outgoing.buf, sock, marks
      ensures After(err) && Onward(old(Now()), Now()) && Armed() && NoInput() && Offstage()
      ensures err.None? ==> Kept() && Steady() && (old(Honest()) ==> Resting())
      ensures old(state) == WRAPPED && old(readPaused) ==> err.None? && unchanged(this, eng, sock) && unchanged(eng.inbox)
      ensures err.None? ==> Advanced(old(Before()))
      ensures old(Cued() && state == DO_HANDSHAKE) ==> err.None? && Played()
      ensures err.Some? && old(state) == DO_HANDSHAKE ==> (hadEagain ==> old(hadEagain))
    {
      hide Valid, Hurt, Draws, Leads, Onward, Fresh, Flushed, Wakes, Awake, Shook, ReadOut, Parted, Rests;
      if state == DO_HANDSHAKE {
        err := DoHandshake();
      } else {
        err := Continue();
      }
    }

    /** The same dispatch past the handshake; _write_ready makes it too. */
    method Continue() returns (err: Option<Exn>)
      requires Valid() && Flushed() && rawEof.None? && Steady() && state != DO_HANDSHAKE
      modifies this, eng, eng.inbox, eng.outgoing, eng.outgoing.buf, sock, marks
      ensures After(err) && Onward(old(Now()), Now()) && Armed() && NoInput() && Offstage()
      ensures err.None? ==> Kept() && Steady() && (old(Honest()) ==> Resting())
      ensures old(state) == WRAPPED && old(readPaused) ==> err.None? && unchanged(this, eng, sock) && unchanged(eng.inbox)
      ensures err.None? ==> Advanced(old(Before()))
      ensures err.None? && old(state) in {FLUSHING, SHUTDOWN} ==> Awake()
    {
      hide Valid, Hurt, Draws, Leads, Onward, JustLeft, Fresh, Flushed, Shook, ReadOut, Parted, Conversed, Rests;
      OnwardFrom(Now());
      RestsFrom(HeldNow());
      LeadsFrom(Now());
      DrawsFrom(Now());
      if state == WRAPPED {
        ghost var rounds, said, loopErr;
        err, rounds, said, loopErr := DoRead();
      } else if state == FLUSHING {
        err := DoFlush();
      } else if state == SHUTDOWN {
        err := DoShutdown();
      } else {
        err := None;
      }
      EarlyIsFixed(old(Now()), Now());
      if err.None? && old(state) in {FLUSHING, SHUTDOWN} {
        RestsByReading(old(HeldNow()), HeldNow());
      }
    }

    /** The error path shared by all event callbacks. */
    method Conclude(err: Option<Exn>)
      requires After(err)
      modifies this`state, this`handshakeTimer, this`shutdownTimer, this`backlog, this`backlogSize, this`registered,
               this`readerAdded, this`finalizing
      ensures Valid() && Grows()
      ensures err.Some? ==> finalizing && Flushed() && Wakes() && Awake()
      ensures err.None? ==> unchanged(this)
    {
      hide Valid, Hurt, Leads, Draws, Onward, Flushed, Wakes, Awake;
      LeadsFrom(Now());
      if err.Some? {
        HandleError(err.value);
        FinalIsAwake();
      }
    }

    twostate lemma FinalRests()
      requires finalizing
      ensures Resting()
    {
    }

    lemma FinalIsAwake()
      requires finalizing
      ensures Flushed() && Wakes() && Awake()
    {
    }

    /** _process_eof: the peer has closed the socket without a close_notify. */
    method ProcessEof()
      requires Valid() && rawEof.None? && Steady()
      modifies this`state, this`handshakeTimer, this`shutdownTimer, this`backlog, this`backlogSize,
               this`registered, this`readerAdded, this`finalizing, this`rawEof
      ensures Valid() && finalizing && Onward(old(Now()), Now()) && Armed() && Offstage()
      ensures old(state) in {WRAPPED, FLUSHING} ==> rawEof == Some(0)
      ensures old(state) == UNWRAPPED ==> unchanged(this)
      ensures Flushed() && Wakes() && Awake()
    {
      hide Bio.Valid, Bio.Window, WriteWatermarks.Valid, Inbox.Valid, Inbound, Flow, Story, Early, Joined, Wires,
           Plain, Ordered, Staged, Draws, Leads, Onward, Fresh, Flushed, Wakes, Awake, Pieced;
      OnwardFrom(Now());
      LeadsFrom(Now());
      DrawsFrom(Now());
      ValidIsHurt();
      if state == DO_HANDSHAKE {
        HandshakeFailed(ConnectionReset);
      } else if state != UNWRAPPED {
        EndWithoutNotify();
      }
      FinalIsAwake();
    }

    method EndWithoutNotify()
      requires Valid() && 1 <= Rank(state) <= 3 && rawEof.None?
      modifies this`state, this`shutdownTimer, this`backlog, this`backlogSize, this`registered, this`readerAdded,
               this`finalizing, this`rawEof
      ensures Valid() && finalizing && Onward(old(Now()), Now()) && Armed()
      ensures rawEof == Some(eng.shutdowns) && (old(state) in {WRAPPED, FLUSHING} ==> rawEof == Some(0))
      ensures state != DO_HANDSHAKE
    {
      hide Valid, Bare, Draws, Leads, Onward;
      OnwardFrom(Now());
      MarkRawEof();
      OnwardFrom(Now());
      OnShutdownComplete(None);
    }

    method MarkRawEof()
      requires Valid() && 1 <= Rank(state) <= 3 && rawEof.None?
      modifies this`state, this`rawEof
      ensures Bare() && state == SHUTDOWN && Onward(old(Now()), Now())
      ensures rawEof == Some(eng.shutdowns) && (old(state) in {WRAPPED, FLUSHING} ==> rawEof == Some(0))
    {
      hide Bio.Valid, Bio.Window, WriteWatermarks.Valid, Inbox.Valid, Flow, Story, Draws, Leads, Onward, Pieced;
      ValidIsHurt();
      if state != SHUTDOWN {
        var _ := SetState(SHUTDOWN);
      }
      rawEof := Some(eng.shutdowns);
      OnwardByEvent(old(Now()), Now());
    }

    /** incoming_bio_produce, and what new input leads to. */
    method RecordsArrived(decrypted: seq<byte>) returns (err: Option<Exn>)
      requires Valid() && Flushed() && rawEof.None? && Steady()
      modifies this, eng, eng.inbox, eng.outgoing, eng.outgoing.buf, sock, marks
      ensures After(err) && Onward(old(Now()), Now()) && Armed() && NoInput() && Offstage()
      ensures err.None? ==> Kept() && Steady() && (old(Honest()) ==> Resting())
      ensures old(state) == WRAPPED && old(readPaused) ==> err.None? && unchanged(this, sock)
      ensures err.None? && old(state) == WRAPPED && old(readPaused) ==> eng.inbox.readings == old(eng.inbox.readings)
      ensures err.None? ==> Advanced(old(Before()))
      ensures old(Cued() && state == DO_HANDSHAKE) ==>
                && err.None? && state == WRAPPED && readPaused && !finalizing
                && unchanged(this`backlog, this`registered, this`hadEagain, this`accepted, eng`plain, eng`lastWrite)
    {
      hide Valid, Hurt, Draws, Leads, Onward, JustLeft, Fresh, Flushed, Wakes, Awake, Advanced, Rests;
      OnwardFrom(Now());
      Arrive(decrypted);
      OnwardFrom(Now());
      err := IncomingBioUpdated();
    }

    method Arrive(decrypted: seq<byte>)
      requires Valid()
      modifies eng.inbox`inbound, eng.inbox`arrived, eng`heard
      ensures Valid() && Onward(old(Now()), Now()) && eng.heard
    {
      hide Wires, Guarded, Plain, Ordered, Staged, Inbox.Valid, Flow, Story, Early, Joined, Draws, Leads, Onward,
           Pieced;
      eng.Produce(decrypted);
      OnwardByEvent(old(Now()), Now());
    }

    method ReadSocket(space: nat) returns (r: ReadResult<byte>)
      requires Valid()
      modifies sock`received, sock`interrupts, sock`polls, sock`ended
      ensures Valid() && Onward(old(Now()), Now()) && sock.polls > old(sock.polls)
      ensures sock.ended <==> old(sock.ended) || r.EndOfStream?
      ensures sock.received == old(sock.received) + if r.Received? then r.data else []
      ensures r.Received? ==> 0 < |r.data| <= space
    {
      hide Wires, Guarded, Plain, Ordered, Staged, Inbound, Flow, Story, Early, Joined, Draws, Leads, Onward, Pieced;
      r := sock.Read(space);
      OnwardByEvent(old(Now()), Now());
    }

    /** One round of the loop in _read_ready: a read, and whatever it leads to. Only paused reading stops it: once the
        loop has begun, it goes on even if the connection is given up in the middle of it. */
    method ReadReadyRound() returns (again: bool, got: nat, err: Option<Exn>)
      requires Valid() && Flushed() && rawEof.None? && Steady()
      modifies this, eng, eng.inbox, eng.outgoing, eng.outgoing.buf, sock, marks
      ensures After(err) && Onward(old(Now()), Now()) && Armed() && Offstage()
      ensures err.None? ==> Kept() && (old(Honest()) ==> Resting())
      ensures err.None? && !finalizing && old(state) == WRAPPED ==>
                (got > 0 <==> |old(eng.inbox.readings)| < |eng.inbox.readings|)
      ensures again ==> err.None? && rawEof.None? && Steady() && got > 0
      ensures !old(readPaused) ==> sock.polls > old(sock.polls) || err == Some(RuntimeErr)
      ensures sock.ended ==> old(sock.ended) || finalizing
      ensures |sock.received| == |old(sock.received)| + got && got <= incomingSize
    {
      hide Valid, Hurt, Draws, Leads, Onward, JustLeft, Fresh, Flushed, Advanced, Wakes, Awake, Steady, Rests,
           HeldNow;
      OnwardFrom(Now());
      RestsFrom(HeldNow());
      again, got, err := false, 0, None;
      ValidIsHurt();
      if readPaused {
        return;
      }
      var space: nat :| space <= incomingSize;
      if space == 0 {
        err := Some(RuntimeErr);
      } else {
        again, got, err := ReadInto(space);
      }
    }

    /** The read into the incoming BIO, and what it leads to. */
    method ReadInto(space: nat) returns (again: bool, got: nat, err: Option<Exn>)
      requires Valid() && Flushed() && rawEof.None? && Steady() && !readPaused
      modifies this, eng, eng.inbox, eng.outgoing, eng.outgoing.buf, sock, marks
      ensures After(err) && Onward(old(Now()), Now()) && Armed() && Offstage()
      ensures err.None? ==> Kept() && (old(Honest()) ==> Resting())
      ensures err.None? && !finalizing && old(state) == WRAPPED ==>
                (got > 0 <==> |old(eng.inbox.readings)| < |eng.inbox.readings|)
      ensures again ==> err.None? && rawEof.None? && Steady() && got > 0
      ensures sock.polls > old(sock.polls) && (sock.ended ==> old(sock.ended) || finalizing)
      ensures |sock.received| == |old(sock.received)| + got && got <= space
    {
      hide Valid, Hurt, Draws, Leads, Onward, JustLeft, Fresh, Flushed, Advanced, Wakes, Awake, Steady, Rests, HeldNow;
      OnwardFrom(Now());
      var r := ReadSocket(space);
      OnwardFrom(Now());
      got := if r.Received? then |r.data| else 0;
      again, err := TakeInput(r, space);
    }

    /** What becomes of a read. */
    method TakeInput(r: ReadResult<byte>, space: nat) returns (again: bool, err: Option<Exn>)
      requires Valid() && Flushed() && rawEof.None? && Steady()
      modifies this, eng, eng.inbox, eng.outgoing, eng.outgoing.buf, sock, marks
      ensures After(err) && Onward(old(Now()), Now()) && Armed() && Offstage()
      ensures err.None? ==> Kept() && (old(Honest()) ==> Resting())
      ensures err.None? && !finalizing && old(state) == WRAPPED && !old(readPaused) ==>
                (r.Received? <==> |old(eng.inbox.readings)| < |eng.inbox.readings|)
      ensures again <==> err.None? && r.Received? && |r.data| == space
      ensures again ==> rawEof.None? && Steady()
      ensures r.EndOfStream? ==> finalizing
      ensures !r.EndOfStream? ==> NoInput()
      ensures |sock.received| == |old(sock.received)| && sock.polls == old(sock.polls) && sock.ended == old(sock.ended)
    {
      hide Valid, Hurt, Draws, Leads, Onward, JustLeft, Fresh, Flushed, Wakes, Awake, Rests, HeldNow;
      OnwardFrom(Now());
      RestsFrom(HeldNow());
      err := None;
      if r.ReadFailed? {
        ValidIsHurt();
        err := Some(r.exn);
      } else if r.EndOfStream? {
        ProcessEof();
        FinalRests();
      } else if r.Received? {
        var decrypted: seq<byte> := *;
        err := RecordsArrived(decrypted);
      }
      again := err.None? && r.Received? && |r.data| == space;
    }

    /** _read_ready: one cycle reads less than the budget plus the room of the incoming BIO. */
    method ReadReady()
      requires Boundary()
      modifies this, eng, eng.inbox, eng.outgoing, eng.outgoing.buf, sock, marks
      ensures Boundary() && Onward(old(Now()), Now()) && Offstage() && Resting()
      ensures !old(readPaused) && !old(finalizing) ==> sock.polls > old(sock.polls) || finalizing
      ensures sock.ended ==> old(sock.ended) || finalizing
      ensures |sock.received| < |old(sock.received)| + MAX_READ_BYTES_PER_CYCLE_HINT + incomingSize
      // the engine is asked for input exactly when something has been received
      ensures !finalizing && old(state) == WRAPPED ==>
                (|old(sock.received)| < |sock.received| <==> |old(eng.inbox.readings)| < |eng.inbox.readings|)
    {
      hide Valid, Hurt, Draws, Leads, Onward, JustLeft, Fresh, Flushed, Wakes, Awake, Rests, Steady;
      OnwardFrom(Now());
      RestsFrom(HeldNow());
      if finalizing {
        return;
      }
      BeginsSteady();
      ValidIsHurt();
      var err := ReadCycle();
      Conclude(err);
      if err.Some? {
        FinalRests();
      }
      ValidIsHurt();
    }

    /** The loop of _read_ready. */
    method ReadCycle() returns (err: Option<Exn>)
      requires Valid() && Flushed() && Wakes() && rawEof.None? && Steady() && Honest() && !finalizing
      modifies this, eng, eng.inbox, eng.outgoing, eng.outgoing.buf, sock, marks
      ensures After(err) && Onward(old(Now()), Now()) && Armed() && Offstage()
      ensures err.None? ==> Flushed() && Wakes() && Resting()
      ensures !old(readPaused) ==> sock.polls > old(sock.polls) || err.Some?
      ensures sock.ended ==> old(sock.ended) || finalizing
      ensures |sock.received| < |old(sock.received)| + MAX_READ_BYTES_PER_CYCLE_HINT + incomingSize
      ensures err.None? && !finalizing && old(state) == WRAPPED ==>
                (|old(sock.received)| < |sock.received| <==> |old(eng.inbox.readings)| < |eng.inbox.readings|)
    {
      hide Valid, Hurt, Draws, Leads, Onward, JustLeft, Fresh, Flushed, Wakes, Awake, Rests, Steady, HeldNow;
      OnwardFrom(Now());
      RestsFrom(HeldNow());
      var total := 0;
      err := None;
      var again := true;
      while again && total < MAX_READ_BYTES_PER_CYCLE_HINT
        invariant After(err) && Onward(old(Now()), Now()) && Armed() && Offstage()
        invariant err.None? ==> Flushed() && Wakes() && Resting() && Honest()
        invariant again ==> err.None? && rawEof.None? && Steady()
        invariant again && total == 0 ==> readPaused == old(readPaused) && state == old(state)
        invariant !old(readPaused) ==> sock.polls > old(sock.polls) || err.Some? || (again && total == 0)
        invariant sock.ended ==> old(sock.ended) || finalizing
        invariant |sock.received| == |old(sock.received)| + total
        invariant total < MAX_READ_BYTES_PER_CYCLE_HINT + incomingSize
        invariant err.None? && !finalizing && old(state) == WRAPPED ==>
                    (total > 0 <==> |old(eng.inbox.readings)| < |eng.inbox.readings|)
        decreases if again then 1 else 0, MAX_READ_BYTES_PER_CYCLE_HINT - total
      {
        OnwardFrom(Now());
        var got;
        again, got, err := ReadReadyRound();
        total := total + got;
      }
    }

    lemma BeginsSteady()
      requires Valid() && !finalizing
      ensures Steady() && rawEof.None? && state != UNWRAPPED
      ensures state == DO_HANDSHAKE ==> Wakes()
    {
      hide Wires, Plain, Inbound, Flow, Story, Early, Pieced;
    }

    /** _retry_ssl_read, scheduled when the handshake completes. */
    method RetrySslRead()
      requires Boundary()
      modifies this, eng, eng.inbox, eng.outgoing, eng.outgoing.buf, sock, marks
      ensures Boundary() && Onward(old(Now()), Now()) && Offstage() && Resting()
      ensures !old(finalizing) ==> finalizing || Advanced(old(Before()))
      ensures old(state) == WRAPPED && !old(readPaused) ==> Awake()
      ensures old(state) == WRAPPED && old(readPaused) ==> unchanged(this, eng, eng.inbox, sock)
      ensures !finalizing && old(state) == WRAPPED ==>
                (!old(readPaused) <==> |old(eng.inbox.readings)| < |eng.inbox.readings|)
    {
      hide Valid, Hurt, Draws, Leads, Onward, JustLeft, Fresh, Flushed, Wakes, Rests, HeldNow;
      OnwardFrom(Now());
      RestsFrom(HeldNow());
      if finalizing {
        return;
      }
      BeginsSteady();
      var err := IncomingBioUpdated();
      Conclude(err);
      if err.Some? {
        FinalRests();
      }
      ValidIsHurt();
    }

    /** The body of _write_ready, with _write_had_eagain already cleared. */
    method ServeWriter() returns (err: Option<Exn>)
      requires Valid() && !finalizing && !hadEagain
      modifies this, eng, eng.inbox, eng.outgoing, eng.outgoing.buf, sock, marks
      ensures After(err) && Onward(old(Now()), Now()) && Armed() && NoInput() && Offstage()
      ensures err.None? ==> Flushed() && Wakes()
      ensures err.None? ==> Served(old(Before())) && Heeded()
      ensures old(Rehearsed() && sock.roomy && state == DO_HANDSHAKE && !connected) ==> err.None? && Played()
    {
      hide Valid, Hurt, Draws, Leads, Onward, JustLeft, Fresh, Flushed, Served, Awake, Rests;
      OnwardFrom(Now());
      var ok;
      ok, err := FlushNow();
      ghost var flushed := HeldNow();
      if err.None? {
        OnwardFrom(Now());
        err := ServeState();
        if err.None? && old(state) == DO_HANDSHAKE {
          RestsInHandshake(old(HeldNow()), flushed, HeldNow(), HeldNow());
        }
      }
    }

    /** The dispatch in _write_ready. */
    method ServeState() returns (err: Option<Exn>)
      requires Valid() && Flushed() && !finalizing
      modifies this, eng, eng.inbox, eng.outgoing, eng.outgoing.buf, sock, marks
      ensures After(err) && Onward(old(Now()), Now()) && Armed() && NoInput() && Offstage()
      ensures err.None? ==> Flushed() && Wakes()
      ensures err.None? ==> Served(old(Before())) && Heeded()
      ensures old(Cued() && state == DO_HANDSHAKE) ==> err.None? && Played()
    {
      hide Valid, Hurt, Draws, Leads, Onward, JustLeft, Fresh, Flushed, Shook, ReadOut, Parted, Rests;
      BeginsSteady();
      if state == DO_HANDSHAKE {
        err := DoHandshake();
      } else if state == WRAPPED && backlogSize != 0 {
        OnwardFrom(Now());
        LeadsFrom(Now());
        err := FlushWriteBacklog();
        EarlyIsFixed(old(Now()), Now());
      } else {
        err := Continue();
      }
    }

    /** _write_ready. While the handshake lasts it serves only the handshake: plaintext queued so early is left where
        it is, although the writer is dropped when the socket has taken all ciphertext. */
    method WriteReady()
      requires Boundary()
      modifies this, eng, eng.inbox, eng.outgoing, eng.outgoing.buf, sock, marks
      ensures Boundary() && Onward(old(Now()), Now()) && Offstage()
      ensures !old(finalizing) ==> finalizing || Served(old(Before()))
      ensures old(registered) ==> Resting()
      ensures Rank(old(state)) >= 1 ==> Awake()
      ensures old(Rehearsed() && !eng.heard && state == DO_HANDSHAKE && !connected) && !old(finalizing) ==>
                && !finalizing && state == DO_HANDSHAKE && !connected && !registered && !hadEagain && sock.roomy
                && !eng.heard && eng.outgoing.IsEmpty() && unchanged(this`backlog, this`accepted, eng`plain, eng`lastWrite)
    {
      hide Boundary, Onward, Served, Rests;
      OnwardFrom(Now());
      if finalizing {
        FinalIsAwake();
        FinalRests();
      } else {
        ServeAsWriter();
      }
    }

    method ServeAsWriter()
      requires Boundary() && !finalizing
      modifies this, eng, eng.inbox, eng.outgoing, eng.outgoing.buf, sock, marks
      ensures Boundary() && Onward(old(Now()), Now()) && Offstage()
      ensures finalizing || Served(old(Before()))
      ensures old(registered) ==> Resting()
      ensures Rank(old(state)) >= 1 ==> Awake()
      ensures old(Rehearsed() && !eng.heard && state == DO_HANDSHAKE && !connected) ==>
                && !finalizing && state == DO_HANDSHAKE && !connected && !registered && !hadEagain && sock.roomy
                && !eng.heard && eng.outgoing.IsEmpty() && unchanged(this`backlog, this`accepted, eng`plain, eng`lastWrite)
    {
      hide Valid, Hurt, Draws, Leads, Onward, Flushed, Wakes, Served, Rests, Awake, HeldNow;
      OnwardFrom(Now());
      ValidIsHurt();
      Unblock();
      ghost var unblocked := HeldNow();
      ServeUnblocked(old(Before()));
      WriterRests(unblocked);
    }

    twostate lemma WriterRests(unblocked: Held)
      requires old(Boundary() && !finalizing) && unblocked == old(HeldNow()).(awake := unblocked.awake)
      requires !finalizing ==>
                 if old(state) == DO_HANDSHAKE then Rests(unblocked, HeldNow())
                 else Awake() && Rank(old(state)) <= Rank(state) && |old(eng.inbox.readings)| <= |eng.inbox.readings|
      ensures old(registered) ==> Resting()
      ensures Rank(old(state)) >= 1 ==> Awake()
    {
      hide Valid, Flushed, Wakes, Rests;
      if finalizing {
        FinalIsAwake();
        FinalRests();
      } else if old(state) == DO_HANDSHAKE {
        RestsInHandshake(old(HeldNow()), unblocked, HeldNow(), HeldNow());
      } else if old(registered) {
        RestsAwake(old(HeldNow()), HeldNow());
      }
    }

    method ServeUnblocked(ghost b: Progress)
      requires Valid() && !finalizing && !hadEagain && b == Before()
      modifies this, eng, eng.inbox, eng.outgoing, eng.outgoing.buf, sock, marks
      ensures Boundary() && Onward(old(Now()), Now()) && Offstage()
      ensures finalizing || (Served(b) && Heeded())
      ensures old(Rehearsed() && sock.roomy && !eng.heard && state == DO_HANDSHAKE && !connected) ==>
                && !finalizing && state == DO_HANDSHAKE && !connected && !registered && !hadEagain && sock.roomy
                && !eng.heard && eng.outgoing.IsEmpty()
                && unchanged(this`backlog, this`accepted, eng`plain, eng`lastWrite)
    {
      hide Valid, Hurt, Draws, Leads, Onward, Flushed, Wakes, Served, Rests, Awake;
      OnwardFrom(Now());
      var err := ServeWriter();
      OnwardFrom(Now());
      FinishWriter(err, b);
    }

    /** The beginning of _write_ready: the socket has room again. */
    method Unblock()
      requires Valid() && !finalizing
      modifies sock`full, sock`roomy, this`hadEagain
      ensures Valid() && sock.roomy && !hadEagain && HeldNow() == old(HeldNow()).(awake := Awake())
    {
      hide Guarded, Plain, Ordered, Staged, Inbound, Flow, Story, Early, Bio.Valid, WriteWatermarks.Valid, Pieced;
      sock.ReportRoom();
      hadEagain := false;
    }

    /** The end of _write_ready: without a short write there is nothing left to wait for. */
    method FinishWriter(err: Option<Exn>, ghost b: Progress)
      requires After(err) && (err.None? ==> Flushed() && Wakes() && Served(b))
      modifies this`state, this`handshakeTimer, this`shutdownTimer, this`backlog, this`backlogSize, this`registered,
               this`readerAdded, this`finalizing
      ensures Boundary() && Onward(old(Now()), Now())
      ensures Offstage()
      ensures err.None? ==> unchanged(this`state, this`backlog, this`backlogSize, this`finalizing) && Served(b)
      ensures err.Some? ==> finalizing
      ensures err.None? && !finalizing && !hadEagain ==> !registered
    {
      hide Valid, Hurt, Draws, Leads, Onward, Flushed, Wakes, Awake, Served;
      OnwardFrom(Now());
      LeadsFrom(Now());
      if err.None? {
        ValidIsHurt();
        if !hadEagain {
          NoWriter(b);
        }
      } else {
        HandleError(err.value);
        FinalIsAwake();
      }
    }

    method NoWriter(ghost b: Progress)
      requires Valid() && !hadEagain && Served(b)
      modifies this`registered
      ensures Valid() && (!finalizing ==> !registered) && Served(b)
    {
      hide Plain, Ordered, Staged, Inbound, Flow, Story, Early, Joined, Bio.Valid, WriteWatermarks.Valid, ReadOut,
           Shook, Parted, Pieced;
      DropWriter();
    }

    /** _check_handshake_timeout: a handshake that is still going on when its timer fires is given up. */
    method CheckHandshakeTimeout()
      requires Boundary()
      modifies this`state, this`handshakeTimer, this`shutdownTimer, this`backlog, this`backlogSize, this`registered,
               this`readerAdded, this`finalizing
      ensures Boundary() && Onward(old(Now()), Now()) && Offstage() && Resting()
      ensures old(state) == DO_HANDSHAKE ==> finalizing && state == UNWRAPPED
      ensures old(state) != DO_HANDSHAKE ==> unchanged(this)
    {
      OnwardFrom(Now());
      if state == DO_HANDSHAKE {
        ValidIsHurt();
        HandleError(ConnectionAborted);
      }
    }

    /** _check_shutdown_timeout: a shutdown that is still going on when its timer fires is cut short. */
    method CheckShutdownTimeout()
      requires Boundary()
      modifies this`state, this`backlog, this`backlogSize, this`registered, this`readerAdded, this`finalizing
      ensures Boundary() && Onward(old(Now()), Now()) && Offstage() && Resting()
      ensures old(state) in {FLUSHING, SHUTDOWN} ==> finalizing && state == UNWRAPPED
      ensures old(state) !in {FLUSHING, SHUTDOWN} ==> unchanged(this)
    {
      OnwardFrom(Now());
      if state == FLUSHING || state == SHUTDOWN {
        ValidIsHurt();
        Abort(Some(TimeoutErr));
      }
    }

    /** _force_close as called from a TLS layer stacked on top. */
    method ForceCloseFromAbove(exn: Option<Exn>)
      requires Boundary()
      modifies this`backlog, this`backlogSize, this`registered, this`readerAdded, this`finalizing
      ensures Boundary() && Onward(old(Now()), Now()) && Offstage() && Resting() && finalizing
    {
      OnwardFrom(Now());
      ValidIsHurt();
      ForceClose(exn);
    }

    /** _call_protocol_connection_lost: only if the protocol was connected. */
    method CallProtocolConnectionLost()
      requires Valid() && finalizing
      modifies this, eng, eng.inbox, eng.outgoing, eng.outgoing.buf, sock, marks
      ensures Valid() && Onward(old(Now()), Now()) && Armed() && Kept() && finalizing && !connected
      ensures old(connected) ==> old(calls) + [ConnectionLost] <= calls
      ensures !old(connected) ==> unchanged(this, eng, eng.inbox, eng.outgoing, sock)
    {
      hide Valid, Draws, Leads, Onward, Flushed, Wakes, Awake;
      OnwardFrom(Now());
      if connected {
        MarkLost();
        OnwardFrom(Now());
        LeadsFrom(Now());
        var _ := UserCode();
      }
    }

    method MarkLost()
      requires Valid() && connected && finalizing
      modifies this`connected, this`calls
      ensures Valid() && Onward(old(Now()), Now()) && Kept() && !connected && calls == old(calls) + [ConnectionLost]
    {
      hide Wires, Plain, Ordered, Staged, Inbox.Valid, Flow, Early, Onward, Reached, Delivered, WellTimed, Undisturbed,
           LastRoom, InPieces, Chunks;
      Met();
      Extend(calls, ConnectionLost);
      connected := false;
      calls := calls + [ConnectionLost];
      OnwardByEvent(old(Now()), Now());
    }

    /** _finalize_close: connection_lost if the protocol was connected, and then the socket is gone. */
    method FinalizeClose()
      requires Boundary() && finalizing && !detached
      modifies this, eng, eng.inbox, eng.outgoing, eng.outgoing.buf, sock, marks
      ensures Boundary() && Onward(old(Now()), Now()) && Offstage() && Resting()
      ensures detached && !connected
      ensures old(connected) ==> old(calls) + [ConnectionLost] <= calls
      ensures !old(connected) ==> calls == old(calls)
    {
      hide Valid, Draws, Leads, Onward, Flushed, Wakes, Awake;
      OnwardFrom(Now());
      CallProtocolConnectionLost();
      OnwardFrom(Now());
      MarkGone();
      EarlyIsFixed(old(Now()), Now());
    }

    method MarkGone()
      requires Valid() && finalizing && !connected
      modifies this`detached
      ensures Valid() && Onward(old(Now()), Now()) && Kept()
      ensures detached
    {
      hide Wires, Plain, Ordered, Staged, Inbound, Flow, Early, Onward, Reached, WellTimed;
      detached := true;
      OnwardByEvent(old(Now()), Now());
    }

    // ---------------------------------------------------------------- whole runs

    /** What Boundary() means to somebody who uses the transport. */
    lemma Promises()
      requires Boundary()
      // Both pipelines conserve their bytes; a forced close only cuts off the end.
      ensures sock.wire + eng.outgoing.Window() == eng.outgoing.put
      ensures !finalizing ==> eng.plain + Flatten(backlog) == accepted && backlogSize == |Flatten(backlog)|
      ensures eng.plain <= accepted
      // Whatever waits has somebody to wake it.
      ensures !finalizing && eng.outgoing.Window() != [] ==> registered
      // ...unless the application wrote before the handshake was over.
      ensures !finalizing && backlog != [] && early == 0 ==> registered || WantedRead()
      ensures early <= |accepted| && (state == DO_HANDSHAKE ==> early == |accepted|)
      ensures !finalizing && backlog != [] && state == DO_HANDSHAKE ==> earlyWrite
      ensures !finalizing ==> (registered <==> hadEagain)
      // The writer waits for nothing but a short write that the kernel has yet to follow up.
      ensures hadEagain <==> sock.full
      // The protocol gets what the peer has sent, and nothing before the handshake is complete.
      ensures eng.inbox.taken + eng.inbox.inbound == eng.inbox.arrived
      ensures !finalizing && Rank(state) < 2 ==> Delivered(calls) == eng.inbox.taken
      // Once it is closing it may miss something, but what it gets is still a piece of that, in order and none twice.
      ensures InPieces(Chunks(calls), places, eng.inbox.taken)
      // The protocol sees a grammatical sequence of calls that starts with connection_made.
      ensures Reached(calls).Phase? && WellTimed(calls) && (calls != [] ==> calls[0] == ConnectionMade)
      ensures detached ==> (ConnectionMade in calls <==> ConnectionLost in calls)
      ensures !finalizing && (connected || state in {WRAPPED, FLUSHING, SHUTDOWN}) ==>
                Answer(NONE) in eng.inbox.handshakes
      // Flow control, unless somebody on top buffers as well.
      ensures Alternates(marks.signals)
      ensures !finalizing && !layered && marks.paused ==> backlogSize > marks.lowWater
      ensures !finalizing && !layered && !marks.paused ==> backlogSize <= marks.highWater
      // Waiting states have their timers armed.
      ensures !finalizing ==> state != UNWRAPPED
      ensures !finalizing && state == DO_HANDSHAKE ==> handshakeTimer
      ensures !finalizing && state in {FLUSHING, SHUTDOWN} ==> shutdownTimer
      // close_notify follows all data, unless a forced close has thrown data away.
      ensures firstShutdown.Some? ==> firstShutdown.value.wire == firstShutdown.value.cipher
      ensures firstShutdown.Some? && !firstShutdown.value.forced ==>
                firstShutdown.value.plain == firstShutdown.value.accepted
      ensures rawEof.Some? ==> eng.shutdowns == rawEof.value
    {
      if !finalizing && backlog != [] {
        NothingFlat(backlog);
      }
      assert eng.inbox.taken[..|eng.inbox.taken|] == eng.inbox.taken;
      GrammarMeans(calls);
    }

    lemma TimersOf()
      requires Hurt()
      ensures shutdownTimer ==> Rank(state) >= 2
      ensures !finalizing ==> (shutdownTimer <==> state in {FLUSHING, SHUTDOWN})
    {
      hide Bare;
    }

    /** The end of the constructor: _start_handshake, and what an exception leaves behind. The path of the exception has
        already forgotten the socket when it calls _drop_writer, which then does nothing; but nothing is registered. */
    method StartHandshake() returns (err: Option<Exn>)
      requires Valid() && Flushed() && Wakes() && state == DO_HANDSHAKE && !registered && !hadEagain && !finalizing
      modifies this, eng, eng.inbox, eng.outgoing, eng.outgoing.buf, sock, marks
      ensures err.None? ==> Boundary() && Offstage()
      ensures old(Cued()) ==> err.None? && Played()
      ensures err.Some? ==> detached && !registered && !readerAdded && !handshakeTimer
      // the other timer stays behind if the application has closed the transport in connection_made
      ensures err.Some? ==>
                if finalizing then shutdownTimer ==> IsClosing() else shutdownTimer <==> state in {FLUSHING, SHUTDOWN}
    {
      hide Valid, Hurt, Draws, Leads, Onward, JustLeft, Fresh, Flushed, Wakes;
      OnwardFrom(Now());
      BeginsSteady();
      err := IncomingBioUpdated();
      if err.Some? {
        TimersOf();
        detached := true;
        readerAdded := false;
        DropWriter();
        handshakeTimer := false;
      } else {
        ValidIsHurt();
      }
    }

    /** Anything that can happen next: a call from the application or a callback from the loop. */
    method NextEvent()
      requires Boundary()
      modifies this, eng, eng.inbox, eng.outgoing, eng.outgoing.buf, sock, marks
      ensures Boundary() && Onward(old(Now()), Now()) && StaysAwake()
    {
      hide Boundary, Onward, Rests, Awake;
      if * {
        LoopEvent();
      } else {
        CallFromOutside();
        AwakeRests();
      }
    }

    /** Past the handshake a queue that has a wake-up keeps one. */
    twostate predicate StaysAwake()
      reads this`state, this`backlogSize, this`finalizing, this`hadEagain, eng`lastWrite
    {
      Rank(old(state)) >= 1 && old(Awake()) ==> Awake()
    }

    twostate lemma AwakeRests()
      requires Resting()
      ensures StaysAwake()
    {
    }

    /** A callback from the loop. */
    method LoopEvent()
      requires Boundary()
      modifies this, eng, eng.inbox, eng.outgoing, eng.outgoing.buf, sock, marks
      ensures Boundary() && Onward(old(Now()), Now()) && Offstage() && StaysAwake()
    {
      hide Boundary, Onward, Rests, Awake;
      if * {
        WriteReady();
      } else {
        QuietEvent();
        AwakeRests();
      }
    }

    /** Any callback from the loop other than _write_ready. */
    method QuietEvent()
      requires Boundary()
      modifies this, eng, eng.inbox, eng.outgoing, eng.outgoing.buf, sock, marks
      ensures Boundary() && Onward(old(Now()), Now()) && Offstage() && Resting()
    {
      hide Boundary, Draws, Leads, Onward, Rests, Awake, HeldNow;
      OnwardFrom(Now());
      RestsFrom(HeldNow());
      if {
        case true => ReadReady();
        case true => RetrySslRead();
        case true => CheckHandshakeTimeout();
        case true => CheckShutdownTimeout();
        case true => ForceCloseFromAbove(None);
        case finalizing && !detached => FinalizeClose();
      }
    }

    /** A call that does not come from one of the protocol's own callbacks. */
    method CallFromOutside()
      requires Boundary()
      modifies this, eng, eng.inbox, eng.outgoing, eng.outgoing.buf, sock, marks
      ensures Boundary() && Onward(old(Now()), Now()) && Resting()
    {
      hide Valid, Draws, Leads, Onward, Flushed, Wakes, Awake, Calm, Rests;
      OnwardFrom(Now());
      LeadsFrom(Now());
      UserCall();
      ValidIsHurt();
    }

    /** Every run: any number of events in any order, with any behaviour of socket, OpenSSL and application. */
    method Run(steps: nat)
      requires Boundary()
      modifies this, eng, eng.inbox, eng.outgoing, eng.outgoing.buf, sock, marks
      ensures Boundary() && Onward(old(Now()), Now())
      ensures old(IsClosing()) ==> IsClosing() && accepted == old(accepted)
      ensures state == WRAPPED ==> old(state) in {DO_HANDSHAKE, WRAPPED}
      // unless something was written before the handshake was over, what waits has a wake-up
      ensures old(state) != DO_HANDSHAKE ==> early == old(early)
      ensures early == 0 && !finalizing && backlog != [] ==> registered || WantedRead()
      // and after the handshake a queue that has one keeps one
      ensures StaysAwake()
    {
      hide Boundary, Draws, Leads, Awake;
      OnwardFrom(Now());
      var left := steps;
      while left > 0
        invariant Boundary() && Onward(old(Now()), Now()) && StaysAwake()
      {
        OnwardFrom(Now());
        NextEvent();
        left := left - 1;
      }
      Promises();
    }

    /** close() while the handshake is going on, which is all that happens to a transport before it is handed out. */
    method GiveUp()
      requires Boundary() && state == DO_HANDSHAKE
      modifies this, eng, eng.inbox, eng.outgoing, eng.outgoing.buf, sock, marks
      ensures Boundary() && Onward(old(Now()), Now()) && early == old(early)
    {
      hide Valid, Draws, Leads, Onward, Flushed, Wakes, Awake, Calm;
      OnwardFrom(Now());
      LeadsFrom(Now());
      Close();
      ValidIsHurt();
    }

    /** Every run in which the application gets hold of the transport no earlier than in connection_made, as the public
        interface has it: what waits always has somebody to wake it. */
    method PublicRun(steps: nat)
      requires Boundary() && early == 0
      modifies this, eng, eng.inbox, eng.outgoing, eng.outgoing.buf, sock, marks
      ensures Boundary() && Onward(old(Now()), Now()) && early == 0
      ensures !finalizing && backlog != [] ==> registered || WantedRead()
      ensures state == DO_HANDSHAKE ==> accepted == []
    {
      hide Boundary, Draws, Leads, Onward;
      OnwardFrom(Now());
      var left := steps;
      while left > 0
        invariant Boundary() && Onward(old(Now()), Now()) && early == 0
      {
        OnwardFrom(Now());
        ghost var before := Now();
        if * {
          LoopEvent();
        } else if Rank(state) >= 1 {
          CallFromOutside();
          EarlyIsFixed(before, Now());
        } else {
          GiveUp();
        }
        left := left - 1;
      }
      Promises();
    }

    /** Plaintext waits, and neither room in the socket nor input from the peer is waited for. */
    ghost predicate Asleep()
      reads this`backlog, this`registered, eng`lastWrite
    {
      backlog != [] && !registered && !WantedRead()
    }

    /** Anything that can happen next, where _write_ready is called only if the writer is registered. */
    method GuardedEvent()
      requires Boundary()
      modifies this, eng, eng.inbox, eng.outgoing, eng.outgoing.buf, sock, marks
      ensures Boundary() && Onward(old(Now()), Now()) && Resting()
    {
      hide Boundary, Onward, Rests, Awake;
      if {
        case true => QuietEvent();
        case registered => WriteReady();
        case true => CallFromOutside();
      }
    }

    method GuardedRun(steps: nat)
      requires Boundary()
      modifies this, eng, eng.inbox, eng.outgoing, eng.outgoing.buf, sock, marks
      ensures Boundary() && Onward(old(Now()), Now()) && Resting()
    {
      hide Boundary, Onward, Rests, Awake;
      OnwardFrom(Now());
      RestsFrom(HeldNow());
      var left := steps;
      while left > 0
        invariant Boundary() && Onward(old(Now()), Now()) && Resting()
      {
        OnwardFrom(Now());
        GuardedEvent();
        left := left - 1;
      }
    }

    /** The wake-up that gets lost, from the first byte that waits, through the handshake and past it, over any number of
        events and calls. Either the queue has only grown, and then it sleeps exactly when the engine did not stop for
        want of input and the writer is not registered; or it has a wake-up again, which happens past the handshake
        only. */
    method StrandEarlyWrite(steps: nat)
      requires Boundary() && !finalizing && Rank(state) <= 1 && backlog != []
      modifies this, eng, eng.inbox, eng.outgoing, eng.outgoing.buf, sock, marks
      ensures Boundary() && Onward(old(Now()), Now())
      ensures !finalizing ==>
                || (&& Rank(state) <= 1 && eng.plain == old(eng.plain) && old(backlog) <= backlog
                    && accepted == old(eng.plain) + Flatten(backlog)
                    && |eng.inbox.readings| == |old(eng.inbox.readings)|
                    && (Asleep() <==> !old(WantedRead()) && !registered))
                || (Rank(state) >= 1 && !Asleep())
    {
      hide Valid, Onward, Flatten;
      GuardedRun(steps);
      Promises();
      if !finalizing {
        NoPlainQueued();
        ValidIsHurt();
      }
    }

    /** Past the handshake a sleeping queue sleeps on, with everything that is accepted meanwhile, exactly until the
        engine is asked for input. Writes, pause_reading() and resume_reading() do not do that; a reader that finds
        something does (ReadReady), and the retry after the handshake unless reading is paused (RetrySslRead). */
    method SleepOn(steps: nat)
      requires Boundary() && state == WRAPPED && !finalizing && Asleep()
      modifies this, eng, eng.inbox, eng.outgoing, eng.outgoing.buf, sock, marks
      ensures Boundary() && Onward(old(Now()), Now())
      ensures !finalizing ==> (Asleep() <==> |eng.inbox.readings| == |old(eng.inbox.readings)|)
      ensures !finalizing && Asleep() ==>
                && state == WRAPPED && eng.plain == old(eng.plain) && old(backlog) <= backlog
                && accepted == old(eng.plain) + Flatten(backlog)
    {
      hide Valid, Onward, Flatten;
      NoPlainQueued();
      ValidIsHurt();
      GuardedRun(steps);
      Promises();
      if !finalizing {
        NoPlainQueued();
        ValidIsHurt();
      }
    }

    /** One input: with such a queue the application pauses reading, as in connection_made, and writes again; the retry
        comes, and reading is resumed. All of it sleeps, the new bytes too, and nothing of it has met the engine. */
    method LaterBytesSleepToo(data: Buffer)
      requires Boundary() && state == WRAPPED && !finalizing && Asleep() && Foreign(data)
      modifies this, eng, eng.inbox, eng.outgoing, eng.outgoing.buf, sock, marks
      ensures Boundary() && state == WRAPPED && !finalizing && Asleep() && !readPaused
      ensures accepted == old(accepted) + old(data.Content()) == eng.plain + Flatten(backlog)
      ensures eng.plain == old(eng.plain) && sock.wire == old(sock.wire) && old(backlog) <= backlog
    {
      hide Boundary, Leads, Onward, Flatten;
      PauseOpen();
      WriteToSleeper(data);
      RetrySslRead();
      ResumeOpen();
      Promises();
    }

    method PauseOpen()
      requires Boundary() && !IsClosing()
      modifies this`readPaused, this`readerAdded
      ensures Boundary() && readPaused
    {
      hide Wires, Guarded, Plain, Ordered, Staged, Inbound, Flow, Story, Early, Joined, Flushed, Wakes, Pieced;
      PauseReading();
    }

    method ResumeOpen()
      requires Boundary() && !IsClosing()
      modifies this`readPaused, this`readerAdded
      ensures Boundary() && !readPaused
    {
      hide Wires, Guarded, Plain, Ordered, Staged, Inbound, Flow, Story, Early, Joined, Flushed, Wakes, Pieced;
      ResumeReading();
    }

    method WriteToSleeper(data: Buffer)
      requires Boundary() && !IsClosing() && backlog != [] && Foreign(data)
      modifies this, eng, eng.inbox, eng.outgoing, eng.outgoing.buf, sock, marks
      ensures Boundary() && accepted == old(accepted) + old(data.Content()) && old(backlog) <= backlog
      ensures unchanged(eng, sock, this`state, this`finalizing, this`registered, this`hadEagain, this`readPaused)
    {
      hide Valid, Leads, Flushed, Wakes, Awake, Rests, Calm;
      NoPlainQueued();
      Write(data);
      ValidIsHurt();
    }

    /** The input that loses it: a write during the handshake of which something has to be queued, and then one
        _write_ready. After the write nothing is lost yet; after the other event the queue, still the same, sleeps
        exactly when the engine did not want input and the socket has taken everything. */
    method LoseWakeUp(data: Buffer) returns (queued: seq<seq<byte>>, ghost awake: bool, ghost wantedRead: bool)
      requires Boundary() && !finalizing && state == DO_HANDSHAKE && backlog == [] && Foreign(data)
      modifies this, eng, eng.inbox, eng.outgoing, eng.outgoing.buf, sock, marks
      ensures Boundary() && Onward(old(Now()), Now())
      ensures queued != [] ==> awake && early > 0
      ensures queued != [] && !finalizing && state == DO_HANDSHAKE ==>
                backlog == queued && (Asleep() <==> !wantedRead && !sock.full)
    {
      hide Boundary, Leads, Onward;
      OnwardFrom(Now());
      LeadsFrom(Now());
      WriteEarly(data);
      OnwardFrom(Now());
      queued, awake, wantedRead := if finalizing then [] else backlog, !Asleep(), WantedRead();
      if queued != [] {
        WriteReady();
        BoundaryMeans();
      }
    }

    lemma BoundaryMeans()
      requires Boundary()
      ensures !finalizing ==> (registered <==> sock.full)
    {
    }

    /** A write during the handshake, with nothing queued. */
    method WriteEarly(data: Buffer)
      requires Boundary() && !finalizing && state == DO_HANDSHAKE && backlog == [] && Foreign(data)
      modifies this, eng, eng.inbox, eng.outgoing, eng.outgoing.buf, sock, marks
      ensures Boundary() && Onward(old(Now()), Now())
      ensures old(Refusing()) && old(data.Content()) != [] ==>
                && !finalizing && Refused() && backlog == [old(data.Content())] && state == old(state)
                && connected == old(connected) && accepted == old(accepted) + old(data.Content())
      ensures !finalizing && backlog != [] ==> !Asleep() && early > 0 && state == DO_HANDSHAKE
    {
      hide Valid, Draws, Leads, Onward, Flushed, Calm;
      OnwardFrom(Now());
      LeadsFrom(Now());
      NoPlainQueued();
      Write(data);
      ValidIsHurt();
      if !finalizing {
        NoPlainQueued();
      }
    }

    lemma NoPlainQueued()
      requires Valid() && !finalizing
      ensures backlogSize == 0 <==> backlog == []
      ensures state == DO_HANDSHAKE && backlog != [] ==> early > 0
    {
      NothingQueued();
    }

    /** _read_ready from the moment on when something has been received. */
    method Receive(decrypted: seq<byte>)
      requires Boundary() && !finalizing
      modifies this, eng, eng.inbox, eng.outgoing, eng.outgoing.buf, sock, marks
      ensures Boundary() && Onward(old(Now()), Now())
      ensures old(Cued() && state == DO_HANDSHAKE) ==>
                && !finalizing && state == WRAPPED && readPaused
                && unchanged(this`backlog, this`registered, this`accepted, eng`plain, eng`lastWrite)
    {
      hide Valid, Hurt, Draws, Leads, Onward, JustLeft, Fresh, Flushed, Wakes, Awake, Rests;
      OnwardFrom(Now());
      BeginsSteady();
      var err := RecordsArrived(decrypted);
      Conclude(err);
      ValidIsHurt();
    }

    /** A run that does lose the wake-up, with rehearsed parts for kernel, OpenSSL and application. First act: a write
        during the handshake finds no room in either of them, and then the socket takes everything. */
    method FirstAct(data: seq<byte>)
      requires Boundary() && !finalizing && state == DO_HANDSHAKE && backlog == [] && data != []
      requires Cued() && Refusing() && accepted == []
      modifies this, eng, eng.inbox, eng.outgoing, eng.outgoing.buf, sock, marks
      ensures Boundary() && !finalizing && state == DO_HANDSHAKE && Cued() && Asleep()
      ensures backlog == [data] && accepted == data && eng.plain == []
    {
      hide Flatten, Boundary, Onward, Rests, Served, Awake, Armed, Offstage, Resting;
      WriteEarly(Buffer.Bytes(data));
      WriteReady();
      Promises();
      OneItem(data);
    }

    static lemma OneItem(data: seq<byte>)
      ensures Flatten([data]) == data
    {
    }

    /** Second act: the handshake completes, and the application pauses reading in connection_made; it writes again, and
        the retry comes. */
    method SecondAct(later: seq<byte>)
      requires Boundary() && !finalizing && state == DO_HANDSHAKE && Cued() && Asleep()
      modifies this, eng, eng.inbox, eng.outgoing, eng.outgoing.buf, sock, marks
      ensures Boundary() && state == WRAPPED && !finalizing && Asleep() && !sock.full
      ensures accepted == old(accepted) + later == eng.plain + Flatten(backlog) && eng.plain == old(eng.plain)
    {
      hide Boundary, Onward, Rests, Awake, Armed, Offstage, Resting, Advanced, Flatten;
      Receive([]);
      WriteToSleeper(Buffer.Bytes(later));
      RetrySslRead();
      Promises();
      BoundaryMeans();
    }
  }

  /** The stage for it, and the whole play. Not one byte has met the engine, and nobody will try again. */
  method Rehearsal(data: seq<byte>, later: seq<byte>, size: nat) returns (t: SslTransport)
    requires data != []
    ensures t.Boundary() && t.state == WRAPPED && !t.finalizing && t.Asleep() && !t.sock.full
    ensures t.accepted == data + later == Flatten(t.backlog) && t.eng.plain == []
  {
    hide SslTransport.Boundary, Flatten;
    t := Stage(size);
    t.FirstAct(data);
    t.SecondAct(later);
  }

  method Stage(size: nat) returns (t: SslTransport)
    ensures fresh(t) && fresh(t.eng) && fresh(t.eng.inbox) && fresh(t.eng.outgoing) && fresh(t.eng.outgoing.buf)
    ensures fresh(t.sock) && fresh(t.marks)
    ensures t.Boundary() && !t.finalizing && t.state == DO_HANDSHAKE && t.backlog == []
    ensures t.Cued() && t.Refusing() && t.accepted == [] && t.eng.plain == []
  {
    hide SslTransport.Valid, SslTransport.Boundary, SslTransport.Wakes, SslTransport.Offstage, WriteWatermarks.Valid,
      Bio.Valid;
    var storage := new byte[1];
    var bio := new Bio(storage);
    var eng := new SslEngine(bio, 1, true);
    var sock := new Descriptor<byte>(false, 0, true);
    var marks := new WriteWatermarks();
    t := new SslTransport(eng, sock, marks, false, false, size, true);
    var _ := t.StartHandshake();
  }
}
