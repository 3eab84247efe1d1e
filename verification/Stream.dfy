/** StreamTransport and SelectorSocketTransport: ordered writes, file transfers, closing, and the read loop. */
module Stream {
  import opened Prelude
  import opened Buffers
  import opened Requests
  import opened Lifecycle
  import opened Kernel
  import opened Watermarks

  const AIOFN_MAX_IOVEC: nat := 256
  const MAX_READ_BYTES_PER_CYCLE_HINT: nat := DATA_RECEIVED_MAX_SIZE

  /** The future that sendfile() returns when a transfer has to wait. */
  datatype Future = Pending | Result | Cancelled | Failed(exn: Exn) | CancelledByUser

  /** What _try_writelines iterates over: bytes, or a file transfer at which it stops. */
  datatype Item = Line(data: seq<Octet>) | Barrier

  /** The bytes that one vectored attempt may send. */
  ghost function Sendable(items: seq<Item>): (s: seq<Octet>)
  {
    if items == [] || items[0].Barrier? then [] else items[0].data + Sendable(items[1..])
  }

  /** A write backlog as _try_writelines sees it. */
  function Items(q: seq<Request>): (items: seq<Item>)
    requires ValidQueue(q)
    ensures |items| == |q|
  {
    if q == [] then []
    else [if q[0].SendFileRequest? then Barrier else Line(q[0].Denotes())] + Items(q[1..])
  }

  lemma {:induction false} SendableIsPrefix(q: seq<Request>)
    requires ValidQueue(q)
    ensures Sendable(Items(q)) <= Queued(q)
    ensures q != [] && q[0].WriteRequest? ==> |Sendable(Items(q))| >= q[0].Size()
  {
    hide Request.Denotes, Request.Valid;
    if q != [] {
      SendableIsPrefix(q[1..]);
      assert Items(q)[1..] == Items(q[1..]);
    }
  }

  lemma HeadIsMemory(q: seq<Request>)
    requires ValidQueue(q) && Sendable(Items(q)) != []
    ensures q != [] && q[0].WriteRequest?
    ensures Sendable(Items(q)) == q[0].Denotes() + Sendable(Items(q[1..]))
  {
    assert Items(q)[1..] == Items(q[1..]);
  }

  lemma PopHead(q: seq<Request>, left: nat)
    requires ValidQueue(q) && 0 < left <= |Sendable(Items(q))| && q[0].Size() <= left
    ensures left <= |Queued(q)| && left - q[0].Size() <= |Sendable(Items(q[1..]))| <= |Queued(q[1..])|
    ensures Queued(q)[left..] == Queued(q[1..])[left - q[0].Size()..]
    ensures |Sendable(Items(q))| == q[0].Size() + |Sendable(Items(q[1..]))|
  {
    hide Sendable, Items, Request.Denotes;
    HeadIsMemory(q);
    SendableIsPrefix(q);
    SendableIsPrefix(q[1..]);
  }

  /** `request.ptr += n; request.size -= n` */
  function Trimmed(r: Request, n: nat): (t: Request)
    requires r.WriteRequest? && r.Valid() && n < r.size
    ensures t.WriteRequest? && t.Valid() && t.Size() == r.Size() - n
  {
    r.(ptr := r.ptr + n, size := r.size - n)
  }

  lemma TrimmedDenotes(r: Request, n: nat)
    requires r.WriteRequest? && r.Valid() && n < r.size
    ensures Trimmed(r, n).Denotes() == r.Denotes()[n..]
  {
    hide Buffer.Fixed;
    var data := r.data.Fixed();
    assert data[r.ptr + n..r.ptr + r.size] == data[r.ptr..r.ptr + r.size][n..];
  }

  lemma ConsRequest(r: Request, rest: seq<Request>)
    requires r.WriteRequest? && r.Valid() && r.Size() > 0 && ValidQueue(rest)
    ensures ValidQueue([r] + rest)
    ensures Queued([r] + rest) == r.Denotes() + Queued(rest)
    ensures Sendable(Items([r] + rest)) == r.Denotes() + Sendable(Items(rest))
  {
    hide Request.Denotes, Request.Valid;
    var q := [r] + rest;
    assert q[1..] == rest && forall i :: 0 < i < |q| ==> q[i] == rest[i - 1];
    assert Items(q)[1..] == Items(rest);
  }

  lemma TrimHead(q: seq<Request>, left: nat)
    requires ValidQueue(q) && 0 < left <= |Sendable(Items(q))|
    requires q != [] && q[0].WriteRequest? && left < q[0].Size()
    ensures var q' := [Trimmed(q[0], left)] + q[1..];
            && ValidQueue(q') && left <= |Queued(q)| && Queued(q') == Queued(q)[left..]
            && |Sendable(Items(q'))| == |Sendable(Items(q))| - left > 0
  {
    hide Request.Denotes, Request.Valid, Queued, Sendable, Items, Trimmed;
    assert q == [q[0]] + q[1..];
    ConsRequest(q[0], q[1..]);
    ConsRequest(Trimmed(q[0], left), q[1..]);
    TrimmedDenotes(q[0], left);
  }

  function LineItems(data: seq<seq<byte>>): (items: seq<Item>)
    ensures |items| == |data|
  {
    seq(|data|, i requires 0 <= i < |data| => Line(InMemory(data[i])))
  }

  lemma InMemoryConcat(a: seq<byte>, b: seq<byte>)
    ensures InMemory(a + b) == InMemory(a) + InMemory(b)
  {
  }

  lemma {:induction false} SendableLines(data: seq<seq<byte>>)
    ensures Sendable(LineItems(data)) == InMemory(Flatten(data))
  {
    if data != [] {
      SendableLines(data[1..]);
      assert LineItems(data)[1..] == LineItems(data[1..]);
      InMemoryConcat(data[0], Flatten(data[1..]));
    }
  }

  /** The receiving side of a descriptor. */
  datatype Input = Input(received: seq<Octet>, polls: nat, ended: bool)

  ghost predicate InputGrows(a: Input, b: Input) {
    a.received <= b.received && a.polls <= b.polls && (a.ended ==> b.ended)
  }

  ghost predicate FuturesSettle(a: seq<Future>, b: seq<Future>) {
    && |a| <= |b|
    && forall id :: 0 <= id < |a| && a[id] != Pending ==> b[id] == a[id]
  }

  /** The file transfers that have had to wait: their futures, where in the accepted stream each range ends, and how
      much of that stream has left the queue. */
  datatype Transfers = Transfers(futures: seq<Future>, ends: seq<nat>, left: nat)

  ghost predicate TransfersGo(a: Transfers, b: Transfers) {
    FuturesSettle(a.futures, b.futures) && a.ends <= b.ends && a.left <= b.left
  }

  /** What an observer may remember of a transport. */
  datatype View = View(
    accepted: seq<Octet>,
    wire: seq<Octet>,
    input: Input,
    calls: seq<Callback<Octet>>,
    closing: bool,
    finalizing: bool,
    writeEof: bool,
    gone: bool,
    shutAt: Option<seq<Octet>>,
    transfers: Transfers,
    eofReceived: bool,
    eager: bool
  )

  /** `b` can be seen after `a`: histories grow, decisions are final, and a finished transport is silent. */
  ghost predicate Onward(a: View, b: View) {
    && a.accepted <= b.accepted
    && a.wire <= b.wire
    && InputGrows(a.input, b.input)
    && a.calls <= b.calls
    && (a.closing ==> b.closing)
    && (a.finalizing ==> b.finalizing && b.accepted == a.accepted && b.wire == a.wire)
    && (a.writeEof ==> b.writeEof && b.accepted == a.accepted)
    && (a.gone ==> b.gone)
    && (a.shutAt.Some? ==> b.shutAt == a.shutAt && b.wire == a.wire)
    && TransfersGo(a.transfers, b.transfers) && (a.eager ==> b.eager)
    && (a.eofReceived ==> b.eofReceived)
  }

  /** The same for the calls that an application makes: no callback and no input in between. */
  ghost predicate Leads(a: View, b: View) {
    Onward(a, b) && b.calls == a.calls && b.input == a.input && b.gone == a.gone && b.eofReceived == a.eofReceived
  }

  lemma LeadsFrom(a: View)
    ensures Leads(a, a) && Onward(a, a)
    ensures forall b, c :: Leads(a, b) && Leads(b, c) ==> Leads(a, c)
    ensures forall b, c :: Onward(a, b) && Onward(b, c) ==> Onward(a, c)
    ensures forall b, c :: Onward(a, b) && Leads(b, c) ==> Onward(a, c)
    ensures forall b :: Leads(a, b) ==> b.calls == a.calls && b.input == a.input && b.gone == a.gone && Onward(a, b)
                                        && b.eofReceived == a.eofReceived
    ensures forall b :: Onward(a, b) ==>
              && a.input.polls <= b.input.polls && (a.eofReceived ==> b.eofReceived)
              && (a.finalizing ==> b.finalizing) && (a.closing ==> b.closing)
  {
  }

  lemma LeadsByWriting(a: View, b: View)
    requires b == a.(accepted := b.accepted, wire := b.wire, transfers := b.transfers)
    requires a.accepted <= b.accepted && a.wire <= b.wire && TransfersGo(a.transfers, b.transfers)
    requires (a.finalizing || a.writeEof ==> b.accepted == a.accepted)
    requires (a.finalizing || a.shutAt.Some? ==> b.wire == a.wire)
    ensures Leads(a, b)
  {
  }

  lemma LeadsByClosing(a: View, b: View)
    requires b == a.(closing := b.closing, finalizing := b.finalizing, transfers := b.transfers)
    requires (a.closing ==> b.closing) && (a.finalizing ==> b.finalizing) && TransfersGo(a.transfers, b.transfers)
    ensures Leads(a, b)
  {
  }

  lemma LeadsByChoice(a: View, b: View)
    requires b == a.(closing := b.closing, finalizing := b.finalizing, writeEof := b.writeEof, shutAt := b.shutAt)
    requires (a.closing ==> b.closing) && (a.finalizing ==> b.finalizing) && (a.writeEof ==> b.writeEof)
    requires a.shutAt.Some? ==> b.shutAt == a.shutAt
    ensures Leads(a, b)
  {
  }

  lemma LeadsByEagerness(a: View, b: View)
    requires b == a.(eager := b.eager) && (a.eager ==> b.eager)
    ensures Leads(a, b)
  {
  }

  lemma OnwardByCallback(a: View, b: View)
    requires b == a.(calls := b.calls, input := b.input, gone := b.gone, eofReceived := b.eofReceived)
    requires a.calls <= b.calls && InputGrows(a.input, b.input) && (a.eofReceived ==> b.eofReceived)
              && (a.gone ==> b.gone)
    ensures Onward(a, b)
  {
  }

  class StreamTransport {
    const fd: Descriptor<Octet>
    const marks: WriteWatermarks
    // _write_buffers: the argument block of one vectored system call.
    const iovecs: array<seq<Octet>>
    const isSocket: bool
    const sendfileCompatible: bool

    var backlog: seq<Request>
    var backlogSize: int
    var registered: bool
    var readerAdded: bool
    var readPaused: bool
    var closing: bool
    var finalizing: bool
    var writeEof: bool
    var protocolBuffered: bool
    var connected: bool
    var eofReceived: bool
    // _finalize_close has run.
    var gone: bool
    var closedWrites: nat
    // The futures made for waiting transfers, in the order of their creation.
    var futures: seq<Future>

    ghost var accepted: seq<Octet>
    ghost var consumed: seq<Fate>
    ghost var calls: seq<Callback<Octet>>
    // Reading was resumed before the protocol had been called at all.
    ghost var eager: bool
    // How often _finalize_close has been handed to the loop.
    ghost var scheduled: nat
    // All futures before this one have left the queue.
    ghost var resolved: nat
    // For every future, where in the accepted stream its file range ends.
    ghost var ends: seq<nat>

    // ---------------------------------------------------------------- invariants

    ghost predicate OnTheWire()
      reads this`consumed, fd`wire
    {
      fd.wire == Transmitted(consumed)
    }

    /** Stream conservation and size accounting. */
    ghost predicate Queue()
      reads this`finalizing, this`backlog, this`backlogSize, this`accepted, this`consumed
    {
      && ValidQueue(backlog)
      && backlogSize == |Queued(backlog)|
      && (finalizing ==> backlog == [])
      && (if finalizing then Octets(consumed) <= accepted else Octets(consumed) + Queued(backlog) == accepted)
    }

    /** Data waits only because the kernel's last answer was short. */
    ghost predicate Blocked()
      reads this`finalizing, this`backlog, fd`full
    {
      !finalizing && backlog != [] ==> fd.full
    }

    /** Closing and the registrations. */
    ghost predicate Flags()
      reads this`closing, this`finalizing, this`readPaused, this`registered, this`backlog, this`scheduled, this`gone
    {
      && Final()
      && (closing && !finalizing ==> backlog != [])
      && (registered <==> backlog != [])
    }

    ghost predicate Final()
      reads this`closing, this`finalizing, this`readPaused, this`scheduled, this`gone
    {
      && (finalizing ==> closing)
      && (closing ==> readPaused)
      && scheduled == (if finalizing then 1 else 0)
      && (gone ==> finalizing)
    }

    /** Futures leave the queue in order, and a result means that the range has left it too. */
    ghost predicate Waiting()
      reads this`backlog, this`futures, this`resolved, this`ends, this`consumed
    {
      Lined() && EndsAt(backlog, |consumed| + |Queued(backlog)|, ends)
    }

    ghost predicate Lined()
      reads this`backlog, this`futures, this`resolved, this`ends, this`consumed
    {
      && ValidQueue(backlog)
      && Resolved()
      && Waiters(backlog) == Range(resolved, |futures|)
      && (forall id :: resolved <= id < |futures| ==> futures[id] in {Pending, CancelledByUser})
    }

    ghost predicate Resolved()
      reads this`futures, this`resolved, this`ends, this`consumed
    {
      && |ends| == |futures|
      && resolved <= |futures|
      && (forall id :: 0 <= id < resolved ==> futures[id] != Pending)
      && (forall id :: 0 <= id < resolved && futures[id] == Result ==> ends[id] <= |consumed|)
    }

    /** Only a forced close cancels or fails a transfer. */
    ghost predicate Forced()
      reads this`futures, this`finalizing
    {
      forall id :: 0 <= id < |futures| && (futures[id] == Cancelled || futures[id].Failed?) ==> finalizing
    }

    /** The sending side is shut down only after everything, and then nothing follows. */
    ghost predicate Shut()
      reads this`writeEof, this`accepted, this`consumed, fd`wire, fd`shutAt
    {
      fd.shutAt.Some? ==> writeEof && fd.shutAt.value == fd.wire && Octets(consumed) == accepted
    }

    /** The protocol has been called in the right order and has got exactly what was read. */
    ghost predicate Life()
      reads this`calls, this`connected, this`eofReceived, this`gone, fd`received
    {
      Called() && Delivered(calls) == fd.received
    }

    ghost predicate Called()
      reads this`calls, this`connected, this`eofReceived, this`gone
    {
      && Reached(calls).Phase?
      && (connected <==> Reached(calls).made && !Reached(calls).lost)
      && (eofReceived <==> Reached(calls).eof)
      && (gone ==> !connected)
      && WellTimed(calls) && Undisturbed(calls)
    }

    /** Nothing is read before connection_made, unless the application has resumed reading before it. */
    ghost predicate Begun()
      reads this`calls, this`eager, this`readerAdded, this`finalizing
    {
      && (calls != [] && !eager ==> calls[0] == ConnectionMade)
      && (readerAdded && !finalizing && !eager ==> calls != [])
    }

    /** connection_lost ends a connection that is being finalized. */
    ghost predicate Lost()
      reads this`calls, this`finalizing
    {
      Reached(calls).Phase? && (Reached(calls).lost ==> finalizing)
    }

    /** Flow control. */
    ghost predicate Flow()
      reads this`finalizing, this`backlogSize, marks
    {
      marks.Valid() && (!finalizing ==> marks.Settled(backlogSize))
    }

    /** The sending half of the transport. */
    ghost predicate Sending()
      reads this`accepted, this`consumed, this`backlog, this`backlogSize, this`registered, this`closing, this`finalizing,
            this`readPaused, this`scheduled, this`gone, this`writeEof, this`futures, this`resolved, this`ends,
            fd`wire, fd`full, fd`shutAt, marks
    {
      && iovecs.Length == AIOFN_MAX_IOVEC
      && OnTheWire() && Queue() && Blocked() && Flags() && Waiting() && Forced() && Shut() && Flow()
    }

    ghost predicate Valid()
      reads this, fd, marks
    {
      Sending() && Lost() && Begun() && Life()
    }

    /** What still holds while an exception is on its way to _handle_error. */
    ghost predicate Hurt()
      reads this, fd, marks
    {
      && iovecs.Length == AIOFN_MAX_IOVEC
      && OnTheWire() && Final() && Lined() && Forced() && Shut() && Lost() && Begun() && Life() && marks.Valid()
      && Octets(consumed) <= accepted
      && (finalizing ==> backlog == [] && backlogSize == 0 && !registered)
    }

    /** All is well except that `extra` has been accepted and is neither sent nor queued yet. */
    ghost predicate Ahead(extra: seq<Octet>)
      reads this, fd, marks
    {
      && iovecs.Length == AIOFN_MAX_IOVEC
      && !finalizing && fd.shutAt.None? && (closing ==> backlog != [])
      && OnTheWire() && Final() && Waiting() && Forced() && Lost() && Begun() && Life() && Flow()
      && ValidQueue(backlog) && backlogSize == |Queued(backlog)| && (registered <==> backlog != []) && Blocked()
      && Octets(consumed) + Queued(backlog) + extra == accepted
    }

    ghost predicate After(err: Option<Exn>)
      reads this, fd, marks
    {
      if err.None? then Valid() else Hurt()
    }

    ghost function Now(): View
      reads this`accepted, this`calls, this`closing, this`finalizing, this`writeEof, this`gone, this`futures,
            this`ends, this`consumed, this`eofReceived, this`eager, fd`wire, fd`received, fd`shutAt, fd`polls, fd`ended
    {
      View(accepted, fd.wire, Input(fd.received, fd.polls, fd.ended), calls, closing, finalizing, writeEof, gone,
           fd.shutAt, Transfers(futures, ends, |consumed|), eofReceived, eager)
    }

    lemma ValidIsHurt()
      requires Valid()
      ensures Hurt()
      ensures backlogSize == 0 <==> backlog == []
      ensures backlogSize >= 0
      ensures !finalizing && backlog != [] ==> fd.full
    {
      hide Octets, Reached, Called, Delivered, WriteWatermarks.Valid, EndsAt;
    }

    lemma AheadIsHurt(extra: seq<Octet>)
      requires Ahead(extra)
      ensures Hurt() && (extra == [] ==> Valid())
    {
      hide Octets, Reached, Called, Delivered, WriteWatermarks.Valid, EndsAt, Queued;
      ghost var head := Octets(consumed);
      assert head + Queued(backlog) + extra == head + (Queued(backlog) + extra);
      assert extra == [] ==> head + Queued(backlog) + extra == head + Queued(backlog);
    }

    // ---------------------------------------------------------------- construction

    constructor (fd: Descriptor<Octet>, marks: WriteWatermarks, isSocket: bool, sendfileCompatible: bool, buffered: bool)
      requires fd.wire == fd.received == [] && fd.shutAt == None
      requires marks.Valid() && !marks.paused
      ensures Valid() && this.fd == fd && this.marks == marks && fresh(iovecs)
      ensures accepted == [] && calls == [] && !closing && !finalizing && !writeEof && futures == []
    {
      this.fd, this.marks := fd, marks;
      this.isSocket, this.sendfileCompatible := isSocket, sendfileCompatible;
      iovecs := new seq<Octet>[AIOFN_MAX_IOVEC](_ => []);
      backlog, backlogSize, registered := [], 0, false;
      readerAdded, readPaused, protocolBuffered := false, false, buffered;
      closing, finalizing, writeEof, connected, eofReceived, gone := false, false, false, false, false, false;
      closedWrites, futures := 0, [];
      accepted, consumed, calls, scheduled, resolved, ends, eager := [], [], [], 0, 0, [], false;
      new;
      assert Octets([]) + Queued([]) == [];
    }

    // ---------------------------------------------------------------- closing

    method ScheduleFinalizeClose()
      modifies this`finalizing, this`scheduled
      ensures finalizing && scheduled == old(scheduled) + 1
    {
      finalizing, scheduled := true, scheduled + 1;
    }

    /** _pause_reading. */
    method PauseReadingNow()
      modifies this`readPaused, this`readerAdded
      ensures readPaused && readerAdded == (old(readerAdded) && old(readPaused))
    {
      if !readPaused {
        readPaused := true;
        readerAdded := false;
      }
    }

    method StartBacklogWriting()
      modifies this`registered
      ensures registered == (old(registered) || !finalizing)
    {
      if !finalizing && !registered {
        registered := true;
      }
    }

    method StopBacklogWriting()
      modifies this`registered
      ensures !registered
    {
      if registered {
        registered := false;
      }
    }

    /** _clear_write_backlog: cancels or fails every transfer that waits. */
    method ClearWriteBacklog(exn: Option<Exn>)
      requires Lined()
      modifies this`backlog, this`backlogSize, this`futures, this`resolved
      ensures backlog == [] && backlogSize == 0 && resolved == |futures| == |old(futures)| && Waiting()
      ensures forall id :: 0 <= id < |futures| ==> futures[id] == if old(futures)[id] != Pending then old(futures)[id]
                                                                 else if exn.None? then Cancelled else Failed(exn.value)
    {
      hide Queued, EndsAt, Octets, Request.Valid, Request.Denotes;
      var i := 0;
      ghost var all := Waiters(backlog);
      assert all == Range(resolved, |futures|);
      assert backlog[..0] == [];
      while i < |backlog|
        invariant 0 <= i <= |backlog| && backlog == old(backlog) && resolved == old(resolved)
        invariant |futures| == |old(futures)|
        invariant |Waiters(backlog[..i])| <= |futures| - resolved
        invariant forall id :: 0 <= id < |futures| ==>
                    futures[id] == if old(futures)[id] != Pending || id >= resolved + |Waiters(backlog[..i])|
                                   then old(futures)[id] else if exn.None? then Cancelled else Failed(exn.value)
      {
        assert backlog[..i + 1] == backlog[..i] + [backlog[i]];
        WaitersSnoc(backlog[..i], backlog[i]);
        WaitersPrefix(backlog, i + 1);
        if backlog[i].SendFileRequest? {
          var waiter := backlog[i].waiter;
          assert Waiters(backlog[..i + 1])[|Waiters(backlog[..i])|] == waiter;
          if futures[waiter] == Pending {
            futures := futures[waiter := if exn.None? then Cancelled else Failed(exn.value)];
          }
        }
        i := i + 1;
      }
      assert backlog[..i] == backlog && |all| == |futures| - resolved;
      backlog, backlogSize, resolved := [], 0, |futures|;
      NothingQueued();
    }

    lemma {:induction false} WaitersPrefix(q: seq<Request>, n: nat)
      requires n <= |q|
      ensures Waiters(q[..n]) <= Waiters(q)
      decreases |q| - n
    {
      if n < |q| {
        assert q[..n + 1] == q[..n] + [q[n]];
        WaitersSnoc(q[..n], q[n]);
        WaitersPrefix(q, n + 1);
      } else {
        assert q[..n] == q;
      }
    }

    /** _force_close. */
    method ForceClose(exn: Option<Exn>)
      requires Hurt()
      modifies this`closing, this`readPaused, this`readerAdded, this`registered, this`backlog, this`backlogSize,
               this`futures, this`resolved, this`finalizing, this`scheduled
      ensures Valid() && finalizing && Leads(old(Now()), Now())
      ensures !old(finalizing) ==> resolved == |futures| == |old(futures)|
                                   && forall id :: 0 <= id < |futures| && old(futures)[id] == Pending ==>
                                        futures[id] == if exn.None? then Cancelled else Failed(exn.value)
    {
      hide Queued, EndsAt, Octets, Life, Reached, OnTheWire, Transmitted, WriteWatermarks.Valid, Leads, Onward;
      if !finalizing {
        Finish(exn);
      } else {
        FinalIsValid();
      }
      LeadsByClosing(old(Now()), Now());
    }

    /** _force_close on a transport that is not being finalized yet. */
    method Finish(exn: Option<Exn>)
      requires Hurt() && !finalizing
      modifies this`closing, this`readPaused, this`readerAdded, this`registered, this`backlog, this`backlogSize,
               this`futures, this`resolved, this`finalizing, this`scheduled
      ensures Valid() && finalizing && closing
      ensures resolved == |futures| == |old(futures)|
      ensures forall id :: 0 <= id < |futures| ==> futures[id] == if old(futures)[id] != Pending then old(futures)[id]
                                                                 else if exn.None? then Cancelled else Failed(exn.value)
    {
      hide Waiting, Lined, Octets, Life, Lost, Reached, OnTheWire, Shut, Forced, WriteWatermarks.Valid, Begun;
      LostIsPhase();
      MadeFirst();
      BeginClosing();
      StopBacklogWriting();
      ClearWriteBacklog(exn);
      ScheduleFinalizeClose();
      EmptyAndFinal();
    }

    method BeginClosing()
      requires closing ==> readPaused
      modifies this`closing, this`readPaused, this`readerAdded
      ensures closing && readPaused && (readerAdded ==> old(readerAdded))
    {
      if !closing {
        closing := true;
        PauseReadingNow();
      }
    }

    /** A transport that has thrown its queue away and is being finalized has nothing left to break. */
    lemma EmptyAndFinal()
      requires iovecs.Length == AIOFN_MAX_IOVEC && finalizing && closing && readPaused && scheduled == 1
      requires backlog == [] && backlogSize == 0 && !registered && Octets(consumed) <= accepted
      requires OnTheWire() && Waiting() && Shut() && Life() && Reached(calls).Phase? && marks.Valid()
      requires calls != [] && !eager ==> calls[0] == ConnectionMade
      ensures Valid()
    {
      hide Waiting, Life, Reached, OnTheWire, WriteWatermarks.Valid, Shut, Octets;
      NothingQueued();
    }

    lemma FinalIsValid()
      requires Hurt() && finalizing
      ensures Valid()
    {
    }

    lemma MadeFirst()
      requires Begun()
      ensures calls != [] && !eager ==> calls[0] == ConnectionMade
    {
    }

    lemma LostIsPhase()
      requires Lost()
      ensures Reached(calls).Phase?
    {
    }

    lemma NothingQueued()
      ensures Queued([]) == [] && Waiters([]) == Range(|futures|, |futures|)
      ensures forall total: nat :: EndsAt([], total, ends)
    {
    }

    /** _handle_error: report, and give up the connection. */
    method HandleError(exn: Exn)
      requires Hurt()
      modifies this`closing, this`readPaused, this`readerAdded, this`registered, this`backlog, this`backlogSize,
               this`futures, this`resolved, this`finalizing, this`scheduled
      ensures Valid() && finalizing && Leads(old(Now()), Now())
    {
      ForceClose(Some(exn));
    }

    // ---------------------------------------------------------------- writing

    ghost method Accept(data: seq<Octet>)
      requires Valid() && !finalizing && !writeEof
      modifies this`accepted
      ensures Ahead(data) && accepted == old(accepted) + data && fd.shutAt.None?
    {
      hide Queued, EndsAt, Octets, Life, Reached, OnTheWire, Transmitted, WriteWatermarks.Valid;
      accepted := accepted + data;
    }

    lemma WireIs()
      requires OnTheWire()
      ensures fd.wire == Transmitted(consumed)
    {
    }

    /** Bytes the kernel has just taken. */
    ghost method NoteSent(data: seq<Octet>)
      requires fd.wire == Transmitted(consumed) + data
      modifies this`consumed
      ensures OnTheWire() && Octets(consumed) == Octets(old(consumed)) + data
                && consumed == old(consumed) + AllOnWire(data)
    {
      TransmittedOnWire(consumed, data);
      consumed := consumed + AllOnWire(data);
    }

    /** __pre_write_check. */
    method PreWriteCheck() returns (ok: bool, err: Option<Exn>)
      modifies this`closedWrites
      ensures err.Some? <==> writeEof
      ensures ok <==> !writeEof && !finalizing
      ensures closedWrites == old(closedWrites) + if !writeEof && finalizing then 1 else 0
    {
      if writeEof {
        return false, Some(RuntimeErr);
      }
      if finalizing {
        closedWrites := closedWrites + 1;
        return false, None;
      }
      return true, None;
    }

    /** The same, for a transport in working order. */
    method CheckOpen() returns (ok: bool, err: Option<Exn>)
      requires Valid()
      modifies this`closedWrites
      ensures Valid() && Leads(old(Now()), Now())
      ensures err.Some? <==> writeEof
      ensures ok <==> !writeEof && !finalizing
      ensures backlogSize == 0 <==> backlog == []
    {
      hide Sending, Lost, Begun, Life, Leads, Onward;
      LeadsFrom(Now());
      ValidIsHurt();
      ok, err := PreWriteCheck();
    }

    /** _try_write: the request for what the kernel did not take, if anything. */
    method TryWrite(buffer: Option<Buffer>, content: seq<byte>) returns (request: Option<Request>, err: Option<Exn>)
      requires OnTheWire() && content != []
      requires buffer.Some? ==> buffer.value.Valid() && (buffer.value.Frozen() ==> buffer.value.Fixed() == content)
      modifies fd, this`consumed
      ensures OnTheWire() && unchanged(fd`received, fd`shutAt, fd`polls, fd`ended) && old(fd.wire) <= fd.wire
      ensures |old(consumed)| <= |consumed|
      ensures err.Some? ==> consumed == old(consumed)
      ensures request.Some? ==> request.value.WriteRequest? && request.value.Valid() && request.value.Size() > 0
      ensures fd.sends > old(fd.sends) && (request.Some? ==> fd.full)
      ensures err.None? ==>
                Octets(consumed) + (if request.Some? then request.value.Denotes() else [])
                == Octets(old(consumed)) + InMemory(content)
    {
      hide Transmitted, Octets, OnTheWire, Buffer.Content, Buffer.Fixed, Buffer.Frozen, Request.Denotes, InMemory,
           AllOnWire;
      WireIs();
      var r := fd.Write(InMemory(content));
      if r.IoFailed? {
        return None, Some(r.exn);
      }
      var sent: nat := if r.Sent? then r.n else 0;
      NoteSent(InMemory(content)[..sent]);
      SentAndRest(Octets(old(consumed)), content, sent);
      if sent == |content| {
        return None, None;
      }
      TailIsRest(buffer, content, sent);
      var tail := MaybeCopyBufferTail(buffer, content[sent..]);
      WholeRequest(tail);
      return Some(WriteRequest(tail, 0, |content| - sent)), None;
    }

    static lemma SentAndRest(head: seq<Octet>, content: seq<byte>, sent: nat)
      requires sent <= |content|
      ensures (head + InMemory(content)[..sent]) + InMemory(content[sent..]) == head + InMemory(content)
      ensures sent == |content| ==> (head + InMemory(content)[..sent]) + [] == head + InMemory(content)
    {
    }

    static lemma WholeRequest(data: Buffer)
      requires data.Valid() && data.Frozen()
      ensures var r := WriteRequest(data, 0, |data.Fixed()|);
              r.Valid() && r.Denotes() == InMemory(data.Fixed())
    {
      assert data.Fixed()[0..|data.Fixed()|] == data.Fixed();
    }

    /** __append_request. */
    method AppendRequest(request: Request)
      requires request.WriteRequest? && request.Valid() && request.Size() > 0
      requires Waiting() && backlogSize == |Queued(backlog)|
      modifies this`backlog, this`backlogSize
      ensures Waiting() && backlogSize == |Queued(backlog)|
      ensures backlog == old(backlog) + [request]
      ensures Queued(backlog) == Queued(old(backlog)) + request.Denotes()
      ensures backlogSize == old(backlogSize) + request.Size()
    {
      hide Queued, EndsAt, Resolved, Octets, Request.Denotes, Request.Valid;
      QueuedSnoc(backlog, request);
      WaitersSnoc(backlog, request);
      EndsAtSnoc(backlog, request, |consumed| + |Queued(backlog)|, ends, ends);
      backlog := backlog + [request];
      backlogSize := backlogSize + request.Size();
    }

    /** Queueing one request: __append_request, _start_backlog_writing, _maybe_pause_protocol. */
    method Enqueue(request: Request)
      requires request.WriteRequest? && request.Valid() && request.Size() > 0 && Ahead(request.Denotes()) && fd.full
      modifies this`backlog, this`backlogSize, this`registered, marks
      ensures Valid() && backlog == old(backlog) + [request]
    {
      hide Waiting, ValidQueue, Queued, Octets, Life, Lost, Begun, Reached, OnTheWire, Alternates, Request.Denotes,
           Request.Valid;
      WaitingIsValid();
      AppendRequest(request);
      WaitingIsValid();
      ghost var head := Octets(consumed);
      assert head + (Queued(old(backlog)) + request.Denotes()) == head + Queued(old(backlog)) + request.Denotes();
      StartBacklogWriting();
      marks.MaybePauseProtocol(backlogSize);
    }

    static lemma FrontSent(consumed: seq<Fate>, q: seq<Request>, accepted: seq<Octet>, sent: nat)
      requires ValidQueue(q) && sent <= |Sendable(Items(q))| && Octets(consumed) + Queued(q) == accepted
      ensures var consumed' := consumed + AllOnWire(Sendable(Items(q))[..sent]);
              && sent <= |Queued(q)| && |consumed'| == |consumed| + sent
              && Octets(consumed') + Queued(q)[sent..] == accepted
              && Octets(consumed') <= accepted
    {
      hide Queued, Sendable, Items, Octets, AllOnWire;
      SendableIsPrefix(q);
      var front := Sendable(Items(q))[..sent];
      TransmittedOnWire(consumed, front);
      assert Queued(q) == front + Queued(q)[sent..];
    }

    lemma ShutMeansEmpty()
      requires Queue() && Shut() && !finalizing && fd.shutAt.Some?
      ensures backlog == []
    {
    }

    lemma WaitingIsValid()
      requires Waiting()
      ensures ValidQueue(backlog)
    {
    }

    /** The attempt to send at once what finds the queue empty. */
    method SendContent(buffer: Option<Buffer>, content: seq<byte>) returns (request: Option<Request>, err: Option<Exn>)
      requires Ahead(InMemory(content)) && backlog == [] && content != []
      requires buffer.Some? ==> buffer.value.Valid() && (buffer.value.Frozen() ==> buffer.value.Fixed() == content)
      modifies fd, this`consumed
      ensures request.Some? ==> request.value.WriteRequest? && request.value.Valid() && request.value.Size() > 0 && fd.full
      ensures Ahead(if err.Some? then InMemory(content) else if request.Some? then request.value.Denotes() else [])
      ensures unchanged(fd`received, fd`shutAt, fd`polls, fd`ended) && old(fd.wire) <= fd.wire && fd.sends > old(fd.sends)
      ensures |old(consumed)| <= |consumed|
    {
      hide Life, Lost, Begun, Forced, Flow, Queued, EndsAt, Octets, OnTheWire, InMemory, Waiters, Range,
           Request.Denotes;
      NothingQueued();
      request, err := TryWrite(buffer, content);
      ghost var rest := if request.Some? then request.value.Denotes() else [];
      assert Octets(old(consumed)) + Queued([]) == Octets(old(consumed));
      assert Octets(consumed) + Queued([]) + rest == Octets(consumed) + rest;
    }

    /** A write that finds the queue empty. */
    method WriteThrough(buffer: Option<Buffer>, content: seq<byte>) returns (err: Option<Exn>)
      requires Valid() && !finalizing && !writeEof && backlogSize == 0 && content != []
      requires buffer.Some? ==> buffer.value.Valid() && (buffer.value.Frozen() ==> buffer.value.Fixed() == content)
      modifies fd, marks, this`accepted, this`consumed, this`backlog, this`backlogSize, this`registered
      ensures After(err) && accepted == old(accepted) + InMemory(content)
      ensures Leads(old(Now()), Now()) && fd.sends > old(fd.sends)
    {
      hide Valid, Hurt, Ahead, Leads, Onward, InMemory, Request.Denotes;
      ValidIsHurt();
      Accept(InMemory(content));
      var request;
      request, err := SendContent(buffer, content);
      if err.None? && request.Some? {
        Enqueue(request.value);
      } else {
        AheadIsHurt(if err.Some? then InMemory(content) else []);
      }
      LeadsByWriting(old(Now()), Now());
    }

    /** A write that finds the queue occupied. */
    method WriteBehind(request: Request)
      requires Valid() && !finalizing && !writeEof && backlog != []
      requires request.WriteRequest? && request.Valid() && request.Size() > 0
      modifies marks, this`accepted, this`backlog, this`backlogSize, this`registered
      ensures Valid() && accepted == old(accepted) + request.Denotes() && backlog == old(backlog) + [request]
      ensures Leads(old(Now()), Now())
    {
      hide OnTheWire, Queue, Flags, Waiting, Forced, Shut, Lost, Begun, Life, Flow, Leads, Onward;
      assert fd.full;
      Accept(request.Denotes());
      Enqueue(request);
      LeadsByWriting(old(Now()), Now());
    }

    /** write_nocheck. After write_eof() it raises; on a finished transport it does nothing. */
    method Write(data: Buffer) returns (err: Option<Exn>)
      requires Valid() && data.Valid()
      modifies this, fd, marks
      ensures Valid() && Leads(old(Now()), Now())
      ensures err.Some? <==> old(writeEof)
      ensures accepted == old(accepted) + if old(writeEof) || old(finalizing) then [] else InMemory(old(data.Content()))
      ensures old(backlog) != [] ==> fd.wire == old(fd.wire)
      ensures old(backlog) == [] && !old(writeEof) && !old(finalizing) && old(data.Content()) != [] ==>
                fd.sends > old(fd.sends)
    {
      hide Valid, Leads, Onward, InMemory;
      LeadsFrom(Now());
      var ok, e := CheckOpen();
      err := e;
      if ok {
        if backlogSize == 0 {
          WriteContent(Some(data), data.Content());
        } else {
          var copy := MaybeCopyBuffer(data);
          var request := WriteRequest(copy, 0, |copy.Fixed()|);
          assert copy.Fixed()[0..|copy.Fixed()|] == copy.Fixed();
          if request.size != 0 {
            WriteBehind(request);
          }
        }
      }
    }

    /** The part of write_nocheck and write_c inside `try`, with nothing queued. */
    method WriteContent(buffer: Option<Buffer>, content: seq<byte>)
      requires Valid() && !finalizing && !writeEof && backlogSize == 0
      requires buffer.Some? ==> buffer.value.Valid() && (buffer.value.Frozen() ==> buffer.value.Fixed() == content)
      modifies this, fd, marks
      ensures Valid() && Leads(old(Now()), Now())
      ensures accepted == old(accepted) + InMemory(content) && (content != [] ==> fd.sends > old(fd.sends))
    {
      hide OnTheWire, Queue, Blocked, Flags, Waiting, Forced, Shut, Lost, Begun, Life, Flow, Leads, Onward;
      LeadsFrom(Now());
      if |content| != 0 {
        var err := WriteThrough(buffer, content);
        if err.Some? {
          HandleError(err.value);
        }
      }
    }

    /** write_c: the bytes are only known by a pointer into memory that the caller may reuse. */
    method WriteC(memory: array<byte>, at: nat, size: nat) returns (err: Option<Exn>)
      requires Valid() && at + size <= memory.Length
      modifies this, fd, marks
      ensures Valid() && Leads(old(Now()), Now())
      ensures err.Some? <==> old(writeEof)
      ensures accepted == old(accepted) + if old(writeEof) || old(finalizing) then []
                                          else InMemory(old(memory[at..at + size]))
      ensures old(backlog) != [] ==> fd.wire == old(fd.wire)
      ensures old(backlog) == [] && !old(writeEof) && !old(finalizing) && size > 0 ==> fd.sends > old(fd.sends)
    {
      hide Valid, Leads, Onward, InMemory;
      LeadsFrom(Now());
      var content := memory[at..at + size];
      var ok, e := CheckOpen();
      err := e;
      if ok && size > 0 {
        if backlogSize == 0 {
          WriteContent(None, content);
        } else {
          assert content[0..size] == content;
          WriteBehind(WriteRequest(Buffer.Bytes(content), 0, size));
        }
      }
    }

    // ---------------------------------------------------------------- vectored writes

    /** _flush_iovecs. */
    method FlushIovecs(count: nat) returns (sent: int, err: Option<Exn>)
      requires OnTheWire() && count <= iovecs.Length
      modifies fd, this`consumed
      ensures OnTheWire() && unchanged(fd`received, fd`shutAt, fd`polls, fd`ended) && old(fd.wire) <= fd.wire
      ensures err.Some? ==> consumed == old(consumed)
      ensures fd.sends > old(fd.sends) && (err.None? && sent < |Flatten(iovecs[..count])| ==> fd.full)
      ensures err.None? ==> -1 <= sent <= |Flatten(iovecs[..count])|
                            && consumed == old(consumed) + AllOnWire(Flatten(iovecs[..count])[..Max(sent, 0)])
                            && Octets(consumed) == Octets(old(consumed)) + Flatten(iovecs[..count])[..Max(sent, 0)]
    {
      var r := fd.Writev(iovecs[..count]);
      if r.IoFailed? {
        return -1, Some(r.exn);
      }
      sent := if r.Sent? then r.n else -1;
      NoteSent(Flatten(iovecs[..count])[..Max(sent, 0)]);
      return sent, None;
    }

    /** One vectored call inside _try_writelines, seen from the whole list: `before` is sent, the block comes next. */
    method FlushBlock(count: nat, ghost base: seq<Fate>, ghost before: seq<Octet>, ghost stream: seq<Octet>,
                      ghost after: seq<Octet>)
      returns (sent: int, err: Option<Exn>)
      requires OnTheWire() && count <= iovecs.Length && consumed == base + AllOnWire(before)
      requires InBlocks(stream, before, iovecs[..count], after)
      modifies fd, this`consumed
      ensures OnTheWire() && unchanged(fd`received, fd`shutAt, fd`polls, fd`ended) && old(fd.wire) <= fd.wire
      ensures err.None? ==> -1 <= sent <= |Flatten(iovecs[..count])|
      ensures fd.sends > old(fd.sends) && (err.None? && sent < |Flatten(iovecs[..count])| ==> fd.full)
      ensures var total := |before| + (if err.None? then Max(sent, 0) else 0);
              total <= |stream| && consumed == base + AllOnWire(stream[..total])
      ensures err.None? && sent == |Flatten(iovecs[..count])| ==>
                InBlocks(stream, stream[..|before| + sent], [], after)
    {
      hide Flatten, OnTheWire;
      sent, err := FlushIovecs(count);
      if err.None? {
        assert stream[..|before| + Max(sent, 0)] == before + Flatten(iovecs[..count])[..Max(sent, 0)];
        assert AllOnWire(stream[..|before| + Max(sent, 0)])
            == AllOnWire(before) + AllOnWire(Flatten(iovecs[..count])[..Max(sent, 0)]);
        NothingFlattens();
      } else {
        assert stream[..|before|] == before;
      }
    }

    lemma NothingFlattens()
      ensures Flatten<Octet>([]) == []
    {
    }

    /** A list of bytes, part of it sent, part of it in the argument block, part of it still to come. */
    static ghost predicate InBlocks(stream: seq<Octet>, before: seq<Octet>, block: seq<seq<Octet>>, after: seq<Octet>) {
      stream == before + Flatten(block) + after
    }

    static lemma PutInBlock(stream: seq<Octet>, before: seq<Octet>, block: seq<seq<Octet>>, data: seq<Octet>,
                            after: seq<Octet>)
      requires InBlocks(stream, before, block, data + after)
      ensures InBlocks(stream, before, block + [data], after)
      ensures |Flatten(block + [data])| == |Flatten(block)| + |data|
    {
      FlattenSnoc(block, data);
      assert before + Flatten(block) + (data + after) == before + (Flatten(block) + data) + after;
    }

    /** _try_writelines: sends as much of the list as the kernel takes, in blocks of at most AIOFN_MAX_IOVEC buffers. */
    method TryWriteLines(items: seq<Item>) returns (all: bool, total: nat, err: Option<Exn>)
      requires OnTheWire() && iovecs.Length == AIOFN_MAX_IOVEC
      modifies fd, iovecs, this`consumed
      ensures OnTheWire() && unchanged(fd`received, fd`shutAt, fd`polls, fd`ended) && old(fd.wire) <= fd.wire
      ensures total <= |Sendable(items)|
      ensures consumed == old(consumed) + AllOnWire(Sendable(items)[..total])
      ensures err.None? ==> (all <==> total == |Sendable(items)|)
      ensures err.None? && !all ==> fd.full
      ensures Sendable(items) != [] ==> fd.sends > old(fd.sends)
    {
      hide OnTheWire, Flatten, InBlocks, Octets, AllOnWire, Sendable;
      ghost var stream := Sendable(items);
      var index, toSend, i := 0, 0, 0;
      total := 0;
      BlocksBegin(stream, consumed);
      assert items[0..] == items && iovecs[..0] == [] && stream[..0] == [];
      while i < |items|
        invariant 0 <= i <= |items| && 0 <= index < AIOFN_MAX_IOVEC && total <= |stream|
        invariant OnTheWire() && unchanged(fd`received, fd`shutAt, fd`polls, fd`ended) && old(fd.wire) <= fd.wire
        invariant consumed == old(consumed) + AllOnWire(stream[..total])
        invariant InBlocks(stream, stream[..total], iovecs[..index], Sendable(items[i..]))
        invariant fd.sends >= old(fd.sends) && (total > 0 ==> fd.sends > old(fd.sends))
        invariant toSend == |Flatten(iovecs[..index])| && (toSend == 0 <==> index == 0)
      {
        SendableFrom(items, i);
        if items[i].Barrier? {
          break;
        }
        var data := items[i].data;
        i := i + 1;
        if |data| == 0 {
          continue;
        }
        var more;
        index, toSend, total, more, err := AddLine(data, index, toSend, total, old(consumed), stream, Sendable(items[i..]));
        if !more {
          return false, total, err;
        }
      }
      if i == |items| {
        SendableFrom(items, i);
      }
      all, total, err := FlushRest(index, toSend, total, old(consumed), stream);
    }

    /** One buffer goes into the argument block, and a full block to the kernel. */
    method AddLine(data: seq<Octet>, index: nat, toSend: nat, sentBefore: nat, ghost base: seq<Fate>,
                   ghost stream: seq<Octet>, ghost after: seq<Octet>)
      returns (next: nat, pending: nat, total: nat, more: bool, err: Option<Exn>)
      requires OnTheWire() && index < iovecs.Length == AIOFN_MAX_IOVEC && sentBefore <= |stream| && data != []
      requires consumed == base + AllOnWire(stream[..sentBefore]) && toSend == |Flatten(iovecs[..index])|
      requires InBlocks(stream, stream[..sentBefore], iovecs[..index], data + after)
      modifies fd, iovecs, this`consumed
      ensures OnTheWire() && unchanged(fd`received, fd`shutAt, fd`polls, fd`ended) && old(fd.wire) <= fd.wire
      ensures sentBefore <= total <= |stream| && consumed == base + AllOnWire(stream[..total])
      ensures fd.sends >= old(fd.sends) && (total > sentBefore ==> fd.sends > old(fd.sends))
      ensures more ==>
                && err.None? && next < AIOFN_MAX_IOVEC && InBlocks(stream, stream[..total], iovecs[..next], after)
                && pending == |Flatten(iovecs[..next])| && (pending == 0 <==> next == 0)
      ensures !more ==> fd.sends > old(fd.sends)
      ensures !more && err.None? ==> total < |stream| && fd.full
    {
      hide OnTheWire, Flatten, InBlocks, Octets, AllOnWire;
      PutInBlock(stream, stream[..sentBefore], iovecs[..index], data, after);
      ghost var block := iovecs[..index] + [data];
      iovecs[index] := data;
      assert iovecs[..index + 1] == block;
      pending := toSend + |data|;
      if index < AIOFN_MAX_IOVEC - 1 {
        return index + 1, pending, sentBefore, true, None;
      }
      var sent, e := FlushBlock(index + 1, base, stream[..sentBefore], stream, after);
      BlocksLength(stream, stream[..sentBefore], block, after);
      total := sentBefore + if e.None? then Max(sent, 0) else 0;
      if e.Some? || sent != pending {
        return 0, 0, total, false, e;
      }
      assert iovecs[..0] == [];
      NothingFlattens();
      return 0, 0, total, true, None;
    }

    /** The buffers that remain in the argument block when the list is at its end. */
    method FlushRest(index: nat, toSend: nat, sentBefore: nat, ghost base: seq<Fate>, ghost stream: seq<Octet>)
      returns (all: bool, total: nat, err: Option<Exn>)
      requires OnTheWire() && index <= iovecs.Length && sentBefore <= |stream|
      requires consumed == base + AllOnWire(stream[..sentBefore])
      requires InBlocks(stream, stream[..sentBefore], iovecs[..index], [])
      requires toSend == |Flatten(iovecs[..index])| && (toSend == 0 <==> index == 0)
      modifies fd, this`consumed
      ensures OnTheWire() && unchanged(fd`received, fd`shutAt, fd`polls, fd`ended) && old(fd.wire) <= fd.wire
      ensures total <= |stream| && consumed == base + AllOnWire(stream[..total])
      ensures err.None? ==> (all <==> total == |stream|)
      ensures err.None? && !all ==> fd.full
      ensures fd.sends >= old(fd.sends) && (sentBefore < |stream| ==> fd.sends > old(fd.sends))
    {
      hide OnTheWire, Flatten, InBlocks, Octets, AllOnWire;
      BlocksLength(stream, stream[..sentBefore], iovecs[..index], []);
      if index == 0 {
        return true, sentBefore, None;
      }
      var sent, e := FlushBlock(index, base, stream[..sentBefore], stream, []);
      if e.Some? {
        return false, sentBefore, e;
      }
      return sent == toSend, sentBefore + Max(sent, 0), None;
    }

    static lemma SendableFrom(items: seq<Item>, i: nat)
      requires i <= |items|
      ensures i == |items| || items[i].Barrier? ==> Sendable(items[i..]) == []
      ensures i < |items| && items[i].Line? ==>
                Sendable(items[i..]) == items[i].data + Sendable(items[i + 1..])
                && (items[i].data == [] ==> Sendable(items[i..]) == Sendable(items[i + 1..]))
    {
      if i < |items| {
        assert items[i..][1..] == items[i + 1..];
      }
    }

    static lemma BlocksBegin(stream: seq<Octet>, base: seq<Fate>)
      ensures InBlocks(stream, [], [], stream) && |Flatten<Octet>([])| == 0
      ensures base + AllOnWire([]) == base
    {
    }

    static lemma BlocksLength(stream: seq<Octet>, before: seq<Octet>, block: seq<seq<Octet>>, after: seq<Octet>)
      requires InBlocks(stream, before, block, after)
      ensures |stream| == |before| + |Flatten(block)| + |after|
    {
    }

    /** One line of __append_lines_tail, of which the first `sent` bytes are gone. */
    method AppendLine(line: Buffer, data: seq<byte>, sent: nat)
      requires line.Valid() && line.Content() == data && sent < |data|
      requires Waiting() && backlogSize == |Queued(backlog)|
      modifies this`backlog, this`backlogSize
      ensures Waiting() && backlogSize == |Queued(backlog)|
      ensures Queued(backlog) == Queued(old(backlog)) + InMemory(data[sent..])
    {
      hide Waiting, Queued;
      var copy;
      if sent > 0 {
        TailIsRest(Some(line), data, sent);
        copy := MaybeCopyBufferTail(Some(line), data[sent..]);
      } else {
        copy := MaybeCopyBuffer(line);
      }
      assert copy.Fixed()[0..|data| - sent] == data[sent..];
      AppendRequest(WriteRequest(copy, 0, |data| - sent));
    }

    /** __append_lines_tail: queues what is left of the lines after `bytesSent` bytes. */
    method AppendLinesTail(lines: seq<Buffer>, data: seq<seq<byte>>, bytesSent: nat)
      requires |lines| == |data| && bytesSent <= |Flatten(data)|
      requires forall i :: 0 <= i < |lines| ==> lines[i].Valid() && lines[i].Content() == data[i]
      requires Waiting() && backlogSize == |Queued(backlog)|
      modifies this`backlog, this`backlogSize
      ensures Waiting() && backlogSize == |Queued(backlog)|
      ensures Queued(backlog) == Queued(old(backlog)) + InMemory(Flatten(data)[bytesSent..])
    {
      hide Waiting, Queued;
      WaitingIsValid();
      var i, left := 0, bytesSent;
      assert data[0..] == data;
      while i < |lines|
        invariant 0 <= i <= |lines| && 0 <= left <= |Flatten(data[i..])|
        invariant Waiting() && ValidQueue(backlog) && backlogSize == |Queued(backlog)|
        invariant Queued(backlog) + InMemory(Flatten(data[i..])[left..])
               == Queued(old(backlog)) + InMemory(Flatten(data)[bytesSent..])
      {
        LineLeft(data, i, left, Queued(backlog));
        if |data[i]| <= left {
          left := left - |data[i]|;
        } else {
          AppendLine(lines[i], data[i], left);
          WaitingIsValid();
          left := 0;
        }
        i := i + 1;
      }
    }

    static lemma LineLeft(data: seq<seq<byte>>, i: nat, left: nat, queued: seq<Octet>)
      requires i < |data| && left <= |Flatten(data[i..])|
      ensures |data[i]| <= left ==>
                && left - |data[i]| <= |Flatten(data[i + 1..])|
                && Flatten(data[i..])[left..] == Flatten(data[i + 1..])[left - |data[i]|..]
      ensures left < |data[i]| ==>
                queued + InMemory(Flatten(data[i..])[left..])
                == queued + InMemory(data[i][left..]) + InMemory(Flatten(data[i + 1..])[0..])
    {
      assert data[i..][1..] == data[i + 1..];
      if left < |data[i]| {
        assert Flatten(data[i..])[left..] == data[i][left..] + Flatten(data[i + 1..])[0..];
        InMemoryConcat(data[i][left..], Flatten(data[i + 1..])[0..]);
      }
    }

    /** The part of writelines_nocheck inside `try`. */
    method WriteLinesNow(lines: seq<Buffer>, data: seq<seq<byte>>) returns (err: Option<Exn>)
      requires Valid() && !finalizing && !writeEof && |lines| == |data|
      requires forall i :: 0 <= i < |lines| ==> lines[i].Valid() && lines[i].Content() == data[i]
      modifies fd, marks, iovecs, this`accepted, this`consumed, this`backlog, this`backlogSize, this`registered
      ensures After(err) && accepted == old(accepted) + InMemory(Flatten(data))
      ensures Leads(old(Now()), Now())
      ensures old(backlog) != [] ==> fd.wire == old(fd.wire)
      ensures old(backlog) == [] && Flatten(data) != [] ==> fd.sends > old(fd.sends)
    {
      hide Leads, Onward, Flatten, InMemory, Valid, Hurt, Ahead;
      ValidIsHurt();
      if backlogSize == 0 {
        err := WriteLinesThrough(lines, data);
      } else {
        err := None;
        Accept(InMemory(Flatten(data)));
        QueueLines(lines, data, 0);
        LeadsByWriting(old(Now()), Now());
      }
    }

    /** A vectored write that finds the queue empty. */
    method WriteLinesThrough(lines: seq<Buffer>, data: seq<seq<byte>>) returns (err: Option<Exn>)
      requires Valid() && !finalizing && !writeEof && |lines| == |data| && backlog == []
      requires forall i :: 0 <= i < |lines| ==> lines[i].Valid() && lines[i].Content() == data[i]
      modifies fd, marks, iovecs, this`accepted, this`consumed, this`backlog, this`backlogSize, this`registered
      ensures After(err) && accepted == old(accepted) + InMemory(Flatten(data))
      ensures Leads(old(Now()), Now()) && (Flatten(data) != [] ==> fd.sends > old(fd.sends))
    {
      hide Valid, Hurt, Ahead, Leads, Onward, Flatten, InMemory;
      Accept(InMemory(Flatten(data)));
      var all, total, e := SendLines(data);
      if e.None? && !all {
        QueueLines(lines, data, total);
      } else {
        AheadIsHurt(InMemory(Flatten(data)[total..]));
      }
      LeadsByWriting(old(Now()), Now());
      return e;
    }

    /** The vectored attempt of writelines_nocheck on an empty queue. */
    method SendLines(data: seq<seq<byte>>) returns (all: bool, total: nat, err: Option<Exn>)
      requires Ahead(InMemory(Flatten(data))) && backlog == []
      modifies fd, iovecs, this`consumed
      ensures total <= |Flatten(data)| && unchanged(fd`received, fd`shutAt, fd`polls, fd`ended)
                && old(fd.wire) <= fd.wire
      ensures Ahead(InMemory(Flatten(data)[total..]))
      ensures err.None? ==> (all <==> total == |Flatten(data)|)
      ensures err.None? && !all ==> fd.full
      ensures Flatten(data) != [] ==> fd.sends > old(fd.sends)
      ensures |old(consumed)| <= |consumed|
    {
      hide Life, Reached, Lost, Flow, Queued, EndsAt, Octets, OnTheWire, Transmitted, Flatten, Sendable, AllOnWire;
      NothingQueued();
      SendableLines(data);
      all, total, err := TryWriteLines(LineItems(data));
      ghost var sent := InMemory(Flatten(data))[..total];
      TransmittedOnWire(old(consumed), sent);
      ghost var rest := InMemory(Flatten(data)[total..]);
      assert InMemory(Flatten(data)) == sent + rest;
      ghost var head := Octets(old(consumed));
      assert head + Queued([]) + (sent + rest) == head + sent + Queued([]) + rest;
    }

    /** The rest of the lines goes to the queue, and somebody watches it. */
    method QueueLines(lines: seq<Buffer>, data: seq<seq<byte>>, total: nat)
      requires |lines| == |data| && total <= |Flatten(data)| && Ahead(InMemory(Flatten(data)[total..]))
      requires forall i :: 0 <= i < |lines| ==> lines[i].Valid() && lines[i].Content() == data[i]
      requires (backlog == [] ==> total < |Flatten(data)|) && fd.full
      modifies marks, this`backlog, this`backlogSize, this`registered
      ensures Valid()
    {
      hide Waiting, Queued, Octets, Life, Lost, Begun, Reached, OnTheWire, Alternates, Flatten, InMemory,
           Buffer.Content, Buffer.Valid;
      WaitingIsValid();
      NothingQueued();
      ghost var head := Octets(consumed);
      ghost var rest := InMemory(Flatten(data)[total..]);
      AppendLinesTail(lines, data, total);
      WaitingIsValid();
      assert head + (Queued(old(backlog)) + rest) == head + Queued(old(backlog)) + rest;
      StartBacklogWriting();
      marks.MaybePauseProtocol(backlogSize);
    }

    lemma Foreign(lines: seq<Buffer>)
      ensures forall i :: 0 <= i < |lines| ==> lines[i].Memory() !! {this, fd, marks, iovecs}
    {
    }

    twostate lemma SameContent(buffer: Buffer)
      requires buffer.Valid() && unchanged(buffer.Memory())
      ensures buffer.Content() == old(buffer.Content())
    {
    }

    /** writelines_nocheck. */
    method WriteLines(lines: seq<Buffer>) returns (err: Option<Exn>)
      requires Valid() && forall i :: 0 <= i < |lines| ==> lines[i].Valid()
      modifies this, fd, marks, iovecs
      ensures Valid() && Leads(old(Now()), Now())
      ensures err.Some? <==> old(writeEof)
      ensures accepted == old(accepted) + if old(writeEof) || old(finalizing) then []
                                          else InMemory(Flatten(old(Contents(lines))))
      ensures old(backlog) != [] ==> fd.wire == old(fd.wire)
      ensures old(backlog) == [] && !old(writeEof) && !old(finalizing) && Flatten(old(Contents(lines))) != [] ==>
                fd.sends > old(fd.sends)
    {
      hide Valid, Leads, Onward, Flatten, InMemory;
      LeadsFrom(Now());
      var ok;
      ok, err := CheckOpen();
      if ok {
        Foreign(lines);
        SameContents(lines);
        WriteLinesOpen(lines, Contents(lines));
      }
    }

    twostate lemma SameContents(lines: seq<Buffer>)
      requires forall i :: 0 <= i < |lines| ==> lines[i].Valid() && unchanged(lines[i].Memory())
      ensures Contents(lines) == old(Contents(lines))
    {
      forall i | 0 <= i < |lines|
        ensures lines[i].Content() == old(lines[i].Content())
      {
        SameContent(lines[i]);
      }
    }

    /** The rest of writelines_nocheck. */
    method WriteLinesOpen(lines: seq<Buffer>, data: seq<seq<byte>>)
      requires Valid() && !finalizing && !writeEof && |lines| == |data|
      requires forall i :: 0 <= i < |lines| ==> lines[i].Valid() && lines[i].Content() == data[i]
      modifies this, fd, marks, iovecs
      ensures Valid() && Leads(old(Now()), Now()) && accepted == old(accepted) + InMemory(Flatten(data))
      ensures old(backlog) != [] ==> fd.wire == old(fd.wire)
      ensures old(backlog) == [] && Flatten(data) != [] ==> fd.sends > old(fd.sends)
    {
      hide Valid, Hurt, Leads, Onward, Flatten, InMemory;
      LeadsFrom(Now());
      var err := WriteLinesNow(lines, data);
      if err.Some? {
        HandleError(err.value);
      }
    }

    // ---------------------------------------------------------------- file transfers

    /** Bytes that will never be sent because their file ends before them. */
    ghost method NotePastEof(data: seq<Octet>)
      requires OnTheWire()
      modifies this`consumed
      ensures OnTheWire() && Octets(consumed) == Octets(old(consumed)) + data && |consumed| == |old(consumed)| + |data|
    {
      TransmittedPastEof(consumed, data);
      consumed := consumed + AllPastEof(data);
    }

    /** _try_sendfile: sends file bytes until the range is done, the file ends, or the socket is full. */
    method TrySendfile(request: Request) returns (done: bool, rest: Request, err: Option<Exn>)
      requires request.SendFileRequest? && OnTheWire()
      modifies fd`wire, fd`full, fd`sends, this`consumed
      ensures OnTheWire() && old(fd.wire) <= fd.wire
      ensures rest.SendFileRequest? && rest.waiter == request.waiter && rest.count <= request.count
      ensures Octets(consumed) + rest.Denotes() == Octets(old(consumed)) + request.Denotes()
      ensures |consumed| + rest.count == |old(consumed)| + request.count
      ensures (done <==> err.None? && rest.count == 0) && (err.None? && !done ==> fd.full)
      ensures fd.sends >= old(fd.sends) && (request.count > 0 ==> fd.sends > old(fd.sends))
    {
      hide OnTheWire, Octets;
      rest := request;
      while rest.count > 0
        invariant rest.SendFileRequest? && rest.waiter == request.waiter && rest.count <= request.count
        invariant OnTheWire() && old(fd.wire) <= fd.wire
        invariant Octets(consumed) + rest.Denotes() == Octets(old(consumed)) + request.Denotes()
        invariant |consumed| + rest.count == |old(consumed)| + request.count
        invariant fd.sends >= old(fd.sends) && (rest.count < request.count ==> fd.sends > old(fd.sends))
        decreases rest.count
      {
        done, rest, err := SendfileRound(rest);
        if err.Some? || !done {
          return false, rest, err;
        }
      }
      return true, rest, None;
    }

    static lemma RangeCut(request: Request, n: nat)
      requires request.SendFileRequest? && n <= request.count
      ensures var rest := request.(offset := request.offset + n, count := request.count - n);
              request.Denotes() == request.Denotes()[..n] + rest.Denotes()
    {
    }

    /** One os.sendfile call. */
    method SendfileRound(request: Request) returns (again: bool, rest: Request, err: Option<Exn>)
      requires request.SendFileRequest? && OnTheWire() && request.count > 0
      modifies fd`wire, fd`full, fd`sends, this`consumed
      ensures OnTheWire() && old(fd.wire) <= fd.wire
      ensures rest.SendFileRequest? && rest.waiter == request.waiter && rest.count <= request.count
      ensures Octets(consumed) + rest.Denotes() == Octets(old(consumed)) + request.Denotes()
      ensures |consumed| + rest.count == |old(consumed)| + request.count
      ensures again ==> err.None? && rest.count < request.count
      ensures !again ==> rest == request && (err.None? ==> fd.full)
      ensures fd.sends > old(fd.sends)
    {
      hide Request.Denotes, Transmitted, OnTheWire, Octets;
      var range := request.Denotes();
      assert OnTheWire() && fd.wire == Transmitted(consumed) by { WireIs(); }
      var r := fd.SendFile(range);
      match r
      case WouldBlock => return false, request, None;
      case IoFailed(exn) => return false, request, Some(exn);
      case Sent(n) =>
        if n == 0 {
          rest := request.(count := 0);
          NotePastEof(range);
        } else {
          rest := request.(offset := request.offset + n, count := request.count - n);
          NoteSent(range[..n]);
          RangeCut(request, n);
        }
        return true, rest, None;
    }

    /** Queueing a transfer: like any request, and a future is made for its caller. */
    method EnqueueTransfer(request: Request) returns (waiter: nat)
      requires request.SendFileRequest? && request.Size() > 0 && request.waiter == |futures|
                && Ahead(request.Denotes()) && fd.full
      modifies this`backlog, this`backlogSize, this`registered, this`futures, this`ends, marks
      ensures Valid() && backlog == old(backlog) + [request]
      ensures waiter == |old(futures)| && futures == old(futures) + [Pending]
      ensures ends == old(ends) + [|accepted|]
    {
      hide Waiting, ValidQueue, Queued, Octets, Life, Lost, Begun, Reached, OnTheWire, Alternates, Request.Denotes;
      WaitingIsValid();
      AppendTransfer(request);
      WaitingIsValid();
      ghost var head := Octets(consumed);
      assert head + (Queued(old(backlog)) + request.Denotes()) == head + Queued(old(backlog)) + request.Denotes();
      StartBacklogWriting();
      marks.MaybePauseProtocol(backlogSize);
      return |futures| - 1;
    }

    method AppendTransfer(request: Request)
      requires request.SendFileRequest? && request.Size() > 0 && request.waiter == |futures|
      requires Waiting() && backlogSize == |Queued(backlog)|
      modifies this`backlog, this`backlogSize, this`futures, this`ends
      ensures Waiting() && backlogSize == |Queued(backlog)|
      ensures backlog == old(backlog) + [request]
      ensures Queued(backlog) == Queued(old(backlog)) + request.Denotes()
      ensures futures == old(futures) + [Pending]
      ensures ends == old(ends) + [|consumed| + |Queued(backlog)|]
    {
      hide Queued, EndsAt, Octets, Request.Denotes;
      QueuedSnoc(backlog, request);
      WaitersSnoc(backlog, request);
      ghost var total := |consumed| + |Queued(backlog)|;
      ghost var ends' := ends + [total + request.Size()];
      EndsAtSnoc(backlog, request, total, ends, ends');
      assert Range(resolved, |futures| + 1) == Range(resolved, |futures|) + [|futures|];
      backlog := backlog + [request];
      backlogSize := backlogSize + request.Size();
      futures := futures + [Pending];
      ends := ends';
    }

    static lemma RangeIs(request: Request)
      requires request.SendFileRequest?
      ensures request.Denotes() == InFile(request.file, request.offset, request.count)
      ensures request.count == 0 ==> request.Denotes() == []
    {
    }

    /** The attempt to transfer at once what finds the queue empty. */
    method SendRange(request: Request) returns (done: bool, rest: Request, err: Option<Exn>)
      requires request.SendFileRequest? && Ahead(request.Denotes()) && backlog == []
      modifies fd, this`consumed
      ensures rest.SendFileRequest? && rest.waiter == request.waiter && Ahead(rest.Denotes())
      ensures (done <==> err.None? && rest.count == 0) && (err.None? && !done ==> fd.full)
      ensures done ==> Octets(consumed) == accepted && rest.Denotes() == []
      ensures unchanged(fd`received, fd`shutAt, fd`polls, fd`ended) && old(fd.wire) <= fd.wire
      ensures |old(consumed)| <= |consumed|
    {
      hide Life, Lost, Begun, Forced, Flow, Queued, EndsAt, Octets, OnTheWire, InFile, Waiters, Range, Request.Denotes;
      NothingQueued();
      done, rest, err := TrySendfile(request);
      assert Octets(old(consumed)) + Queued([]) == Octets(old(consumed));
      assert Octets(consumed) + Queued([]) + rest.Denotes() == Octets(consumed) + rest.Denotes();
      if done {
        RangeIs(rest);
        assert Octets(consumed) + rest.Denotes() == Octets(consumed);
      }
    }

    /** What is left of a transfer after the first attempt. */
    method SendfileNow(file: nat, offset: nat, count: nat) returns (waiter: Option<nat>, err: Option<Exn>)
      requires Valid() && !finalizing && !writeEof && count > 0
      modifies fd, marks, this`accepted, this`consumed, this`backlog, this`backlogSize, this`registered,
               this`futures, this`ends
      ensures After(err) && accepted == old(accepted) + InFile(file, offset, count)
      ensures Leads(old(Now()), Now())
      ensures waiter.Some? ==> err.None? && waiter.value == |old(futures)| && futures == old(futures) + [Pending]
      ensures waiter.None? ==> futures == old(futures)
      ensures old(backlog) != [] && err.None? ==> waiter.Some?
      ensures err.None? && waiter.None? ==> backlog == [] && Octets(consumed) == accepted
      ensures ends == old(ends) + (if waiter.Some? then [|accepted|] else [])
    {
      hide Valid, Hurt, Ahead, Leads, Onward, InFile, Request.Denotes, Octets;
      ValidIsHurt();
      var request := SendFileRequest(file, offset, count, |futures|);
      RangeIs(request);
      Accept(request.Denotes());
      waiter, err := None, None;
      var done, rest := false, request;
      if backlogSize == 0 {
        done, rest, err := SendRange(request);
      }
      if err.None? && !done {
        var w := EnqueueTransfer(rest);
        waiter := Some(w);
      } else {
        AheadIsHurt(rest.Denotes());
      }
      LeadsByWriting(old(Now()), Now());
    }

    /** sendfile. The file size is what fstat reports at this moment, or below zero for anything but a regular file. */
    method Sendfile(file: nat, fileSize: int, offset: int, count: Option<int>)
      returns (waiter: Option<nat>, err: Option<Exn>)
      requires Valid()
      modifies this, fd, marks
      ensures Valid() && Leads(old(Now()), Now())
      ensures var range := AvailableRange(fileSize, offset, count);
              var refused := !sendfileCompatible || old(writeEof) || old(closing) || range.None?;
              && (refused ==> err.Some? && accepted == old(accepted) && fd.wire == old(fd.wire))
              && (!refused ==> accepted == old(accepted) + InFile(file, offset, range.value))
      ensures waiter.Some? ==>
                && err.None? && waiter.value == |old(futures)| && |futures| == |old(futures)| + 1
                && futures[waiter.value] == Pending
      ensures waiter.Some? ==> ends == old(ends) + [|accepted|]
      ensures err.None? && waiter.None? && AvailableRange(fileSize, offset, count) != Some(0) ==>
                |consumed| == |accepted|
    {
      hide OnTheWire, Queue, Blocked, Flags, Waiting, Forced, Shut, Lost, Begun, Life, Flow, Leads, Onward;
      LeadsFrom(Now());
      ValidIsFinal();
      waiter, err := None, Some(RuntimeErr);
      if !sendfileCompatible || writeEof || closing || finalizing {
        return;
      }
      var range := AvailableRange(fileSize, offset, count);
      if range.None? {
        err := Some(ValueErr);
        return;
      }
      if range.value == 0 {
        assert InFile(file, offset, 0) == [];
        err := None;
        return;
      }
      waiter, err := SendfileNow(file, offset, range.value);
      if err.Some? {
        HandleError(err.value);
      }
    }

    lemma ValidIsFinal()
      requires Valid()
      ensures Final()
    {
    }

    // ---------------------------------------------------------------- draining the queue

    /** _consume_write_backlog: drops sent bytes from the front of the queue, request by request. */
    method ConsumeWriteBacklog(bytesSent: nat, ghost total: nat)
      requires ValidQueue(backlog) && bytesSent <= |Sendable(Items(backlog))|
      requires backlogSize == |Queued(backlog)| && EndsAt(backlog, total, ends)
      modifies this`backlog, this`backlogSize
      ensures ValidQueue(backlog) && backlogSize == |Queued(backlog)| && EndsAt(backlog, total, ends)
      ensures bytesSent <= |Queued(old(backlog))| && Queued(backlog) == Queued(old(backlog))[bytesSent..]
      ensures Waiters(backlog) == Waiters(old(backlog))
      ensures |backlog| <= |old(backlog)|
      ensures bytesSent == |Sendable(Items(old(backlog)))| > 0 ==> |backlog| < |old(backlog)|
    {
      hide Queued, EndsAt, Waiters, Sendable, Items, Request.Denotes, Request.Valid;
      SendableIsPrefix(backlog);
      backlogSize := backlogSize - bytesSent;
      var left := bytesSent;
      while left > 0
        invariant 0 <= left <= bytesSent && ValidQueue(backlog) && left <= |Sendable(Items(backlog))|
        invariant EndsAt(backlog, total, ends) && Waiters(backlog) == Waiters(old(backlog))
        invariant bytesSent <= |Queued(old(backlog))| && left <= |Queued(backlog)|
        invariant Queued(backlog)[left..] == Queued(old(backlog))[bytesSent..]
        invariant |backlog| <= |old(backlog)|
        invariant bytesSent - left == |Sendable(Items(old(backlog)))| - |Sendable(Items(backlog))|
        invariant |backlog| == |old(backlog)| && bytesSent > 0 ==> Sendable(Items(backlog)) != []
        invariant backlogSize == |Queued(old(backlog))| - bytesSent
        decreases left
      {
        left := ConsumeHead(left, total);
      }
    }

    /** One round of the loop in _consume_write_backlog. */
    method ConsumeHead(left: nat, ghost total: nat) returns (rest: nat)
      requires ValidQueue(backlog) && 0 < left <= |Sendable(Items(backlog))| && EndsAt(backlog, total, ends)
      modifies this`backlog
      ensures ValidQueue(backlog) && rest < left && rest <= |Sendable(Items(backlog))| && EndsAt(backlog, total, ends)
      ensures Waiters(backlog) == Waiters(old(backlog))
      ensures left <= |Queued(old(backlog))| && rest <= |Queued(backlog)|
      ensures Queued(backlog)[rest..] == Queued(old(backlog))[left..]
      ensures |backlog| <= |old(backlog)|
      ensures left - rest == |Sendable(Items(old(backlog)))| - |Sendable(Items(backlog))|
      ensures |backlog| == |old(backlog)| ==> Sendable(Items(backlog)) != []
    {
      hide Queued, Sendable, Items, Request.Denotes;
      HeadIsMemory(backlog);
      var request := backlog[0];
      if request.size <= left {
        PopHead(backlog, left);
        rest := left - request.size;
        backlog := backlog[1..];
      } else {
        TrimHead(backlog, left);
        rest := 0;
        backlog := [Trimmed(request, left)] + backlog[1..];
        assert backlog[1..] == old(backlog)[1..];
      }
    }

    /** In the middle of _write_ready: everything holds but the flow control and the registration. */
    ghost predicate Draining()
      reads this, fd, marks
    {
      && iovecs.Length == AIOFN_MAX_IOVEC && !finalizing
      && OnTheWire() && Queue() && Final() && Waiting() && Forced() && Shut() && Lost() && Begun() && Life()
      && marks.Valid() && (!marks.paused ==> backlogSize <= marks.highWater)
      && (backlog != [] ==> registered)
    }

    /** The memory requests at the front of the queue, in one vectored attempt. */
    method DrainMemory() returns (all: bool, err: Option<Exn>)
      requires Draining() && backlog != [] && backlog[0].WriteRequest?
      modifies fd, iovecs, this`consumed, this`backlog, this`backlogSize
      ensures if err.None? then Draining() else Hurt()
      ensures unchanged(fd`received, fd`shutAt, fd`polls, fd`ended) && old(fd.wire) <= fd.wire
                && (fd.shutAt.Some? ==> fd.wire == old(fd.wire))
      ensures all ==> err.None? && |backlog| < |old(backlog)|
      ensures fd.sends > old(fd.sends) && (!all && err.None? ==> fd.full)
      ensures |old(consumed)| <= |consumed|
    {
      hide Life, Lost, Begun, Reached, Transmitted, Octets, EndsAt, Queued, Sendable, Items, Waiters, AllOnWire;
      SendableIsPrefix(backlog);
      ghost var total := |consumed| + |Queued(backlog)|;
      var sent;
      all, sent, err := TryWriteLines(Items(backlog));
      FrontSent(old(consumed), backlog, accepted, sent);
      if fd.shutAt.Some? {
        ShutMeansEmpty();
      }
      if err.None? {
        ConsumeWriteBacklog(sent, total);
      } else {
        all := false;
      }
    }

    static lemma TransferHead(q: seq<Request>, r: Request, total: nat, ends: seq<nat>)
      requires ValidQueue(q) && q != [] && q[0].SendFileRequest? && EndsAt(q, total, ends)
      requires r.SendFileRequest? && r.waiter == q[0].waiter && 0 < r.count
      ensures var q' := [r] + q[1..];
              && ValidQueue(q') && Queued(q') == r.Denotes() + Queued(q[1..])
              && Waiters(q') == Waiters(q) && EndsAt(q', total, ends)
    {
      hide Request.Denotes;
      var q' := [r] + q[1..];
      assert q'[1..] == q[1..];
    }

    static lemma QueueHead(q: seq<Request>, accepted: seq<Octet>, head: seq<Octet>)
      requires ValidQueue(q) && q != [] && head + Queued(q) == accepted
      ensures (head + q[0].Denotes()) + Queued(q[1..]) == accepted
      ensures |Queued(q)| == q[0].Size() + |Queued(q[1..])|
    {
      hide Request.Denotes, Request.Valid;
      assert head + (q[0].Denotes() + Queued(q[1..])) == (head + q[0].Denotes()) + Queued(q[1..]);
    }

    static lemma TransferCut(head: seq<Octet>, rest: Request, tail: seq<Octet>, accepted: seq<Octet>)
      requires rest.Valid() && (head + rest.Denotes()) + tail == accepted
      ensures head + (rest.Denotes() + tail) == accepted && head <= accepted
      ensures rest.Size() == 0 ==> head + tail == accepted
    {
      assert head + (rest.Denotes() + tail) == (head + rest.Denotes()) + tail;
      assert rest.Size() == 0 ==> head + rest.Denotes() == head;
    }

    /** The transfer at the front of the queue has come to its end. */
    method CompleteTop()
      requires ValidQueue(backlog) && backlog != [] && backlog[0].SendFileRequest? && Resolved()
      requires Waiters(backlog) == Range(resolved, |futures|)
      requires EndsAt(backlog, |consumed| + |Queued(backlog[1..])|, ends)
      requires forall id :: resolved <= id < |futures| ==> futures[id] in {Pending, CancelledByUser}
      modifies this`backlog, this`futures, this`resolved
      ensures backlog == old(backlog)[1..] && Waiting()
      ensures resolved == old(resolved) + 1 == old(backlog)[0].waiter + 1
      ensures futures == if old(futures)[old(resolved)] == Pending then old(futures)[old(resolved) := Result]
                         else old(futures)
    {
      hide Queued, Request.Denotes, Octets;
      ghost var all := Range(resolved, |futures|);
      assert Waiters(backlog)[0] == backlog[0].waiter && all[0] == resolved;
      assert Range(resolved + 1, |futures|) == all[1..];
      var waiter := backlog[0].waiter;
      backlog := backlog[1..];
      if futures[waiter] == Pending {
        futures := futures[waiter := Result];
      }
      resolved := resolved + 1;
    }

    /** _try_sendfile_from_backlog_top. */
    method SendfileTop() returns (all: bool, err: Option<Exn>)
      requires Draining() && backlog != [] && backlog[0].SendFileRequest?
      modifies fd`wire, fd`full, fd`sends, this`consumed, this`backlog, this`backlogSize, this`futures, this`resolved
      ensures if err.None? then Draining() else Hurt()
      ensures old(fd.wire) <= fd.wire && (fd.shutAt.Some? ==> fd.wire == old(fd.wire))
      ensures all ==> err.None? && |backlog| < |old(backlog)|
      ensures fd.sends > old(fd.sends) && (!all && err.None? ==> fd.full)
      ensures FuturesSettle(old(futures), futures)
      ensures |old(consumed)| <= |consumed|
    {
      hide Life, Lost, Begun, Reached, Transmitted, Octets, EndsAt, Queued, Waiters, Request.Denotes, InFile, InMemory,
           Alternates, Range;
      if fd.shutAt.Some? {
        ShutMeansEmpty();
      }
      QueueHead(backlog, accepted, Octets(consumed));
      var top := backlog[0];
      var rest;
      all, rest, err := TrySendfile(top);
      TransferCut(Octets(consumed), rest, Queued(backlog[1..]), accepted);
      if err.Some? {
        all := false;
      } else {
        SettleTop(top, rest);
      }
    }

    /** What a transfer at the front of the queue has achieved: it is done, or it stays with the rest of its range. */
    method SettleTop(top: Request, rest: Request)
      requires ValidQueue(backlog) && backlog != [] && backlog[0] == top && top.SendFileRequest?
      requires rest.SendFileRequest? && rest.waiter == top.waiter && rest.count <= top.count
      requires Lined() && EndsAt(backlog, |consumed| + rest.count + |Queued(backlog[1..])|, ends)
      requires backlogSize == top.count + |Queued(backlog[1..])|
      modifies this`backlog, this`backlogSize, this`futures, this`resolved
      ensures Waiting() && backlogSize == |Queued(backlog)|
      ensures Queued(backlog) == rest.Denotes() + Queued(old(backlog)[1..])
      ensures |backlog| == |old(backlog)| - if rest.count == 0 then 1 else 0
      ensures FuturesSettle(old(futures), futures) && |futures| == |old(futures)|
      ensures forall id :: 0 <= id < |futures| ==> futures[id] == old(futures)[id] || futures[id] == Result
    {
      hide Octets, EndsAt, Queued, Waiters, Request.Denotes, Range;
      ghost var total := |consumed| + rest.count + |Queued(backlog[1..])|;
      TransferTail(backlog, total, ends);
      if rest.count == 0 {
        CompleteTop();
        assert rest.Denotes() + Queued(backlog) == Queued(backlog);
      } else {
        TransferHead(backlog, rest, total, ends);
        backlog := [rest] + backlog[1..];
      }
      backlogSize := backlogSize - (top.count - rest.count);
    }

    static lemma TransferTail(q: seq<Request>, total: nat, ends: seq<nat>)
      requires ValidQueue(q) && q != [] && EndsAt(q, total, ends)
      ensures EndsAt(q[1..], total, ends)
    {
    }

    lemma DrainingMeans()
      requires Draining()
      ensures ValidQueue(backlog) && !finalizing
    {
    }

    /** One round of the loop in _write_ready. */
    method DrainRound() returns (all: bool, err: Option<Exn>)
      requires Draining() && backlog != []
      modifies fd, iovecs, this`consumed, this`backlog, this`backlogSize, this`futures, this`resolved
      ensures if err.None? then Draining() else Hurt()
      ensures Leads(old(Now()), Now())
      ensures all ==> err.None? && |backlog| < |old(backlog)|
      ensures fd.sends > old(fd.sends) && (!all && err.None? ==> fd.full)
    {
      hide Draining, Hurt, Leads, Onward;
      DrainingMeans();
      if backlog[0].SendFileRequest? {
        all, err := SendfileTop();
      } else {
        all, err := DrainMemory();
      }
      LeadsByWriting(old(Now()), Now());
    }

    /** The loop of _write_ready. Every round that sends all it tried removes at least one request. */
    method DrainLoop() returns (err: Option<Exn>)
      requires Draining()
      modifies fd, iovecs, this`consumed, this`backlog, this`backlogSize, this`futures, this`resolved
      ensures if err.None? then Draining() && Blocked() else Hurt()
      ensures Leads(old(Now()), Now())
      ensures old(backlog) != [] ==> fd.sends > old(fd.sends)
    {
      hide OnTheWire, Queue, Waiting, Lined, Forced, Shut, Lost, Begun, Life, Leads, Onward;
      LeadsFrom(Now());
      var all := true;
      err := None;
      while backlogSize > 0 && all
        invariant if err.None? then Draining() else Hurt()
        invariant err.Some? ==> !all
        invariant err.None? && !all ==> fd.full
        invariant fd.sends >= old(fd.sends)
        invariant fd.sends == old(fd.sends) ==> all && backlog == old(backlog) && backlogSize == old(backlogSize)
        invariant Leads(old(Now()), Now())
        decreases if all then 1 else 0, |backlog|
      {
        SizeIsQueue();
        all, err := DrainRound();
      }
      if err.None? {
        SizeIsQueue();
      }
    }

    /** The kernel has room again. */
    method StartDraining()
      requires Valid() && !finalizing
      modifies fd`full, fd`roomy
      ensures Draining() && !fd.full
    {
      fd.ReportRoom();
    }

    lemma SizeIsQueue()
      requires Queue()
      ensures backlogSize >= 0 && (backlogSize == 0 <==> backlog == [])
    {
    }

    /** The `else` branch of _write_ready. An exception from shutdown(2) escapes to the loop. */
    method AfterDrain() returns (err: Option<Exn>)
      requires Draining() && Blocked()
      modifies marks, fd`shutAt, this`registered, this`closing, this`readPaused, this`readerAdded, this`finalizing,
               this`scheduled
      ensures Valid() && Leads(old(Now()), Now())
      ensures backlog == [] && writeEof ==> Halved(err)
    {
      hide OnTheWire, Queue, Blocked, Waiting, Forced, Shut, Lost, Begun, Life, Leads, Onward, Alternates;
      LeadsFrom(Now());
      SizeIsQueue();
      marks.MaybeResumeProtocol(backlogSize);
      err := None;
      if backlogSize == 0 {
        StopBacklogWriting();
        if closing {
          FinishClose();
        } else if writeEof {
          err := WriteEofNow();
        }
      }
    }

    /** Everything has been written, and close() has only been waiting for that. */
    method FinishClose()
      requires OnTheWire() && Queue() && Blocked() && Final() && Waiting() && Forced() && Shut()
      requires Lost() && Begun() && Life() && Flow()
      requires iovecs.Length == AIOFN_MAX_IOVEC && closing && !finalizing && backlog == [] && !registered
      modifies this`finalizing, this`scheduled
      ensures Valid() && finalizing && Leads(old(Now()), Now())
    {
      hide OnTheWire, Queue, Blocked, Waiting, Forced, Shut, Lost, Begun, Life, Flow, Leads, Onward;
      ScheduleFinalizeClose();
      Halted();
      LeadsByChoice(old(Now()), Now());
    }

    /** The sending side has been shut down, unless that raised; what cannot be shut down is being closed. */
    ghost predicate Halved(err: Option<Exn>)
      reads this`closing, fd`shutAt
    {
      err.Some? || closing || (isSocket && fd.shutAt.Some?)
    }

    /** _write_eof_now: SHUT_WR on a socket; anything else can only be closed. */
    method WriteEofNow() returns (err: Option<Exn>)
      requires Valid() && writeEof && !closing && backlog == []
      modifies fd`shutAt, this`closing, this`readPaused, this`readerAdded, this`finalizing, this`scheduled
      ensures Valid() && Leads(old(Now()), Now())
      ensures isSocket ==> unchanged(this)
      ensures isSocket && err.None? && old(fd.shutAt).None? ==> fd.shutAt == Some(fd.wire)
      ensures !isSocket ==> closing && fd.shutAt == old(fd.shutAt)
      ensures Halved(err)
    {
      hide OnTheWire, Waiting, Forced, Lost, Begun, Life, Flow, Leads, Onward;
      ValidIsHurt();
      if isSocket {
        assert Octets(consumed) == accepted by {
          assert Octets(consumed) + Queued([]) == Octets(consumed);
        }
        err := fd.ShutdownWrite();
        LeadsByChoice(old(Now()), Now());
      } else {
        err := None;
        Close();
      }
    }

    /** Neither closing nor finalizing an empty queue breaks anything. */
    twostate lemma Halted()
      requires old(Queue() && Blocked() && Forced() && Lost() && Begun() && Flow())
      requires unchanged(fd) && unchanged(marks)
      requires unchanged(this`backlog, this`backlogSize, this`accepted, this`consumed, this`futures)
      requires unchanged(this`calls, this`eager)
      requires (old(finalizing) ==> finalizing) && (finalizing ==> backlog == []) && (readerAdded ==> old(readerAdded))
      ensures Queue() && Blocked() && Forced() && Lost() && Begun() && Flow()
    {
      hide Octets, Queued, Reached, ValidQueue, WriteWatermarks.Valid, WriteWatermarks.Settled;
      if finalizing {
        NothingQueued();
      }
    }

    /** close(): the queue may still be written out, nothing more is read. */
    method Close()
      requires Valid()
      modifies this`closing, this`readPaused, this`readerAdded, this`finalizing, this`scheduled
      ensures Valid() && closing && Leads(old(Now()), Now())
      ensures old(closing) ==> unchanged(this)
      ensures !old(closing) ==> (finalizing <==> backlog == [])
    {
      hide OnTheWire, Queue, Blocked, Waiting, Forced, Shut, Lost, Begun, Life, Flow, Leads, Onward;
      LeadsFrom(Now());
      if !closing {
        CloseNow();
      }
    }

    method CloseNow()
      requires Valid() && !closing
      modifies this`closing, this`readPaused, this`readerAdded, this`finalizing, this`scheduled
      ensures Valid() && closing && Leads(old(Now()), Now()) && (finalizing <==> backlog == [])
    {
      hide OnTheWire, Queue, Blocked, Waiting, Forced, Shut, Lost, Begun, Life, Flow, Leads, Onward;
      SizeIsQueue();
      closing := true;
      PauseReadingNow();
      if backlogSize == 0 {
        ScheduleFinalizeClose();
      }
      Halted();
      LeadsByChoice(old(Now()), Now());
    }

    /** _write_ready. */
    method WriteReady() returns (err: Option<Exn>)
      requires Valid()
      modifies this, fd, marks, iovecs
      ensures Valid() && Leads(old(Now()), Now())
      ensures !old(finalizing) && old(backlog) != [] ==> fd.sends > old(fd.sends)
      ensures !old(finalizing) && backlog == [] && writeEof ==> Halved(err)
    {
      hide OnTheWire, Queue, Blocked, Flags, Waiting, Forced, Shut, Lost, Begun, Life, Flow, Leads, Onward;
      LeadsFrom(Now());
      err := None;
      if !finalizing {
        StartDraining();
        var e := DrainLoop();
        if e.Some? {
          HandleError(e.value);
          ValidIsFinal();
        } else {
          err := AfterDrain();
        }
      }
    }

    // ---------------------------------------------------------------- what the application may call

    /** write_eof(). An exception from shutdown(2) reaches the caller. */
    method WriteEof() returns (err: Option<Exn>)
      requires Valid()
      modifies fd`shutAt, this`writeEof, this`closing, this`readPaused, this`readerAdded, this`finalizing,
               this`scheduled
      ensures Valid() && Leads(old(Now()), Now())
      ensures writeEof <==> old(writeEof) || !old(closing)
      ensures old(closing) || old(writeEof) || backlog != [] ==> fd.shutAt == old(fd.shutAt)
      ensures !old(closing) && !old(writeEof) && backlog == [] ==> Halved(err)
    {
      hide OnTheWire, Queue, Blocked, Flags, Waiting, Forced, Lost, Begun, Life, Flow, Leads, Onward;
      LeadsFrom(Now());
      ValidIsHurt();
      err := None;
      if !closing && !writeEof {
        writeEof := true;
        LeadsByChoice(old(Now()), Now());
        if backlogSize == 0 {
          err := WriteEofNow();
        }
      }
    }

    /** abort(). */
    method Abort()
      requires Valid()
      modifies this`closing, this`readPaused, this`readerAdded, this`registered, this`backlog, this`backlogSize,
               this`futures, this`resolved, this`finalizing, this`scheduled
      ensures Valid() && finalizing && Leads(old(Now()), Now())
    {
      ValidIsHurt();
      ForceClose(None);
    }

    /** pause_reading(). */
    method PauseReading()
      requires Valid()
      modifies this`readPaused, this`readerAdded
      ensures Valid() && Leads(old(Now()), Now()) && readPaused
    {
      hide OnTheWire, Queue, Waiting, Forced, Shut, Lost, Life, Flow, Leads, Onward;
      LeadsFrom(Now());
      if !closing && !readPaused {
        PauseReadingNow();
      }
    }

    /** resume_reading(). */
    method ResumeReading()
      requires Valid()
      modifies this`readPaused, this`readerAdded, this`eager
      ensures Valid() && Leads(old(Now()), Now())
      ensures readPaused <==> old(readPaused) && closing
      ensures eager <==> old(eager) || (old(readPaused) && !closing && calls == [])
    {
      hide OnTheWire, Queue, Blocked, Waiting, Forced, Shut, Lost, Life, Flow, Leads, Onward;
      LeadsFrom(Now());
      if !closing && readPaused {
        readPaused := false;
        readerAdded := true;
        eager := eager || calls == [];
        LeadsByEagerness(old(Now()), Now());
      }
    }

    /** set_write_buffer_limits(). */
    method SetWriteBufferLimits(high: Option<int>, low: Option<int>) returns (err: Option<Exn>)
      requires Valid()
      modifies marks
      ensures Valid() && Leads(old(Now()), Now())
      ensures err.Some? ==> unchanged(marks)
      ensures err.None? <==> InOrder(high, low)
      ensures err.None? ==> marks.highWater == EffectiveHigh(high, low) && marks.lowWater == EffectiveLow(high, low)
    {
      hide OnTheWire, Queue, Waiting, Forced, Shut, Lost, Life, Leads, Onward;
      LeadsFrom(Now());
      err := marks.SetWriteBufferLimits(backlogSize, high, low);
    }

    /** A caller cancels the future of a transfer; the transfer itself stays where it is. */
    method CancelFuture(id: nat)
      requires Valid() && id < |futures|
      modifies this`futures
      ensures Valid() && Leads(old(Now()), Now())
      ensures futures == if old(futures)[id] == Pending then old(futures)[id := CancelledByUser] else old(futures)
    {
      hide OnTheWire, Queue, EndsAt, Waiters, Shut, Lost, Begun, Life, Flow, Leads, Onward;
      if futures[id] == Pending {
        futures := futures[id := CancelledByUser];
      }
      LeadsByWriting(old(Now()), Now());
    }

    /** Any one call that application code may make on its transport. */
    method UserCall()
      requires Valid()
      modifies this, fd, marks, iovecs
      ensures Valid() && Leads(old(Now()), Now())
    {
      hide OnTheWire, Queue, Blocked, Flags, Waiting, Forced, Shut, Lost, Begun, Life, Flow, Leads, Onward;
      LeadsFrom(Now());
      if {
        case true =>
          var data: Buffer := *;
          if data.Valid() {
            var _ := Write(data);
          }
        case true =>
          var lines: seq<Buffer> := *;
          if forall i | 0 <= i < |lines| :: lines[i].Valid() {
            var _ := WriteLines(lines);
          }
        case true =>
          var file: nat, fileSize: int, offset: int, count: Option<int> := *, *, *, *;
          var _, _ := Sendfile(file, fileSize, offset, count);
        case true => var _ := WriteEof();
        case true => Close();
        case true => Abort();
        case true => PauseReading();
        case true => ResumeReading();
        case true => SwitchOrCancel();
      }
    }

    /** The remaining calls. */
    method SwitchOrCancel()
      requires Valid()
      modifies this, fd, marks, iovecs
      ensures Valid() && Leads(old(Now()), Now())
    {
      hide OnTheWire, Queue, Blocked, Flags, Waiting, Forced, Shut, Lost, Begun, Life, Flow, Leads, Onward;
      LeadsFrom(Now());
      if {
        case true =>
          var length: nat :| true;
          var memory := new byte[length];
          var at: nat, size: nat :| at + size <= length;
          var _ := WriteC(memory, at, size);
        case true =>
          var high: Option<int>, low: Option<int> := *, *;
          var _ := SetWriteBufferLimits(high, low);
        case |futures| > 0 =>
          var id: nat :| id < |futures|;
          CancelFuture(id);
        case true => protocolBuffered := *;
      }
    }

    /** Application code running inside a callback: any number of transport calls, then a return or an exception. */
    method UserCode() returns (raised: bool)
      requires Valid()
      modifies this, fd, marks, iovecs
      ensures Valid() && Leads(old(Now()), Now())
    {
      hide OnTheWire, Queue, Blocked, Flags, Waiting, Forced, Shut, Lost, Begun, Life, Flow, Leads, Onward;
      LeadsFrom(Now());
      var calls: nat := *;
      while calls > 0
        invariant Valid() && Leads(old(Now()), Now())
      {
        calls := calls - 1;
        UserCall();
      }
      raised := *;
    }

    // ---------------------------------------------------------------- reading

    function NowGate(): Gate
      reads this`readPaused, this`closing
    {
      Gate(readPaused, closing)
    }

    /** A callback is made, or returns. */
    ghost method Note(c: Callback<Octet>)
      requires Called() && Begun() && Lost() && !Reached(calls).lost && Delivered(calls) + Chunk(c) == fd.received
      requires !Single(c) && Timed(calls, |calls|, c) && (calls != [] || eager)
      requires c.GetBuffer? || c.DataReceived? ==> c.gate == Gate(false, false)
      modifies this`calls
      ensures Life() && Begun() && Lost() && calls == old(calls) + [c] && !Reached(calls).lost
      ensures LastRoom(calls) == if c.Supplied? || c.DataReceived? then Room(c) else LastRoom(old(calls))
    {
      hide Reached, Delivered, WellTimed, Undisturbed, Timed, LastRoom;
      Extend(calls, c);
      calls := calls + [c];
    }

    /** A chunk is about to be handed over. */
    ghost method NoteChunk(data: seq<Octet>, buffered: bool)
      requires Called() && Begun() && Lost() && !Reached(calls).lost && Delivered(calls) + data == fd.received
      requires calls != [] || eager
      requires if buffered then calls != [] && calls[|calls| - 1].Supplied? && calls[|calls| - 1].gate == NowGate()
                                && |data| <= calls[|calls| - 1].size
               else NowGate() == Gate(false, false)
      modifies this`calls
      ensures Life() && Begun() && Lost() && !Reached(calls).lost
      ensures calls == old(calls) + [if buffered then BufferUpdated(data, NowGate()) else DataReceived(data, NowGate())]
      ensures LastRoom(calls) == if buffered then LastRoom(old(calls)) else DATA_RECEIVED_MAX_SIZE
    {
      hide Called, Begun, Lost, Life, Reached, Delivered, WellTimed, Undisturbed, LastRoom;
      Note(if buffered then BufferUpdated(data, NowGate()) else DataReceived(data, NowGate()));
    }

    /** A chunk has been dealt with. */
    ghost method NoteReturn()
      requires Valid() && !Reached(calls).lost
      requires calls != [] && (calls[|calls| - 1].DataReceived? || calls[|calls| - 1].BufferUpdated?)
      modifies this`calls
      ensures Valid() && Onward(old(Now()), Now()) && calls == old(calls) + [Returned(NowGate())] && !Reached(calls).lost
      ensures LastRoom(calls) == LastRoom(old(calls))
    {
      hide OnTheWire, Queue, Blocked, Flags, Waiting, Forced, Shut, Lost, Begun, Life, Called, Flow, Onward, Reached,
           Delivered, WellTimed, Undisturbed, LastRoom;
      StillConnected();
      Note(Returned(NowGate()));
      OnwardByCallback(old(Now()), Now());
    }

    /** get_buffer() is about to be called. */
    ghost method NoteGetBuffer()
      requires Valid() && !Reached(calls).lost && !readPaused && (calls != [] || eager)
      modifies this`calls
      ensures Valid() && Onward(old(Now()), Now()) && calls == old(calls) + [GetBuffer(Gate(false, false))]
      ensures !Reached(calls).lost
    {
      hide OnTheWire, Queue, Blocked, Flags, Waiting, Forced, Shut, Lost, Begun, Life, Called, Flow, Onward, Reached,
           Delivered, WellTimed, Undisturbed, LastRoom;
      StillConnected();
      Note(GetBuffer(NowGate()));
      OnwardByCallback(old(Now()), Now());
    }

    /** get_buffer() has supplied a buffer. */
    ghost method NoteSupplied(size: nat)
      requires Valid() && !Reached(calls).lost && calls != [] && calls[|calls| - 1].GetBuffer?
      modifies this`calls
      ensures Valid() && Onward(old(Now()), Now()) && calls == old(calls) + [Supplied(size, NowGate())]
      ensures !Reached(calls).lost && LastRoom(calls) == size
    {
      hide OnTheWire, Queue, Blocked, Flags, Waiting, Forced, Shut, Lost, Begun, Life, Called, Flow, Onward, Reached,
           Delivered, WellTimed, Undisturbed, LastRoom;
      StillConnected();
      Note(Supplied(size, NowGate()));
      OnwardByCallback(old(Now()), Now());
    }

    lemma StillConnected()
      requires Valid()
      ensures Called() && Lost() && Begun() && Delivered(calls) == fd.received && Reached(calls).Phase?
      ensures !finalizing ==> !Reached(calls).lost
      ensures closing ==> readPaused
    {
    }

    /** The end of the stream does not go unnoticed: the protocol has been told, or the transport is closing. */
    twostate predicate Heard()
      reads this`eofReceived, this`closing, fd`ended
    {
      fd.ended ==> old(fd.ended) || eofReceived || closing
    }

    /** A read, and the entry in the history of callbacks for what it has brought. */
    method ReadChunk(size: nat, buffered: bool) returns (r: ReadResult<Octet>)
      requires Valid() && !Reached(calls).lost && (calls != [] || eager)
      requires if buffered then calls != [] && calls[|calls| - 1] == Supplied(size, NowGate())
               else NowGate() == Gate(false, false) && size == DATA_RECEIVED_MAX_SIZE
      modifies this`calls, fd`received, fd`interrupts, fd`polls, fd`ended
      ensures Valid() && Onward(old(Now()), Now()) && fd.polls > old(fd.polls) && !Reached(calls).lost
      ensures fd.ended <==> old(fd.ended) || r.EndOfStream?
      ensures r.Received? ==>
                && 0 < |r.data| <= size && fd.received == old(fd.received) + r.data && LastRoom(calls) == size
                && calls == old(calls) + [if buffered then BufferUpdated(r.data, NowGate())
                                          else DataReceived(r.data, NowGate())]
      ensures !r.Received? ==> fd.received == old(fd.received) && calls == old(calls)
    {
      hide Sending, Leads, Onward, Lost, Begun, Life, Called, Reached, Delivered, LastRoom, WellTimed, Undisturbed,
           Timed;
      StillConnected();
      r := TakeFromSocket(size, buffered);
      OnwardByCallback(old(Now()), Now());
    }

    method TakeFromSocket(size: nat, buffered: bool) returns (r: ReadResult<Octet>)
      requires Life() && Called() && Begun() && Lost() && !Reached(calls).lost && (calls != [] || eager)
      requires if buffered then calls != [] && calls[|calls| - 1] == Supplied(size, NowGate())
               else NowGate() == Gate(false, false) && size == DATA_RECEIVED_MAX_SIZE
      modifies this`calls, fd`received, fd`interrupts, fd`polls, fd`ended
      ensures Begun() && Lost() && Life() && fd.polls > old(fd.polls) && !Reached(calls).lost
      ensures fd.ended <==> old(fd.ended) || r.EndOfStream?
      ensures r.Received? ==>
                && 0 < |r.data| <= size && fd.received == old(fd.received) + r.data && LastRoom(calls) == size
                && calls == old(calls) + [if buffered then BufferUpdated(r.data, NowGate())
                                          else DataReceived(r.data, NowGate())]
      ensures !r.Received? ==> fd.received == old(fd.received) && calls == old(calls)
    {
      hide Called, Begun, Lost, Reached, Delivered, WellTimed, Undisturbed, LastRoom;
      if buffered {
        LastIsRoom();
      }
      r := fd.Read(size);
      if r.Received? {
        NoteChunk(r.data, buffered);
      }
    }

    lemma LastIsRoom()
      requires calls != [] && calls[|calls| - 1].Supplied?
      ensures LastRoom(calls) == calls[|calls| - 1].size
    {
    }

    /** The application deals with a chunk. */
    method HandleChunk() returns (raised: bool)
      requires Valid() && !Reached(calls).lost
      requires calls != [] && (calls[|calls| - 1].DataReceived? || calls[|calls| - 1].BufferUpdated?)
      modifies this, fd, marks, iovecs
      ensures Valid() && Onward(old(Now()), Now()) && !Reached(calls).lost
      ensures calls == old(calls) + [Returned(NowGate())] && LastRoom(calls) == LastRoom(old(calls))
      ensures fd.received == old(fd.received) && fd.polls == old(fd.polls) && fd.ended == old(fd.ended)
    {
      hide OnTheWire, Queue, Blocked, Flags, Waiting, Forced, Shut, Lost, Begun, Life, Flow, Leads, Onward, Called,
           Delivered, WellTimed, Reached, LastRoom;
      LeadsFrom(Now());
      raised := UserCode();
      NoteReturn();
    }

    /** One round of _read_ready__data_received. */
    method ReadCopiedRound() returns (again: bool, got: nat, err: Option<Exn>)
      requires Valid() && (finalizing || calls != [] || eager)
      modifies this, fd, marks, iovecs
      ensures Valid() && Onward(old(Now()), Now())
      ensures |fd.received| == |old(fd.received)| + got && (got > 0 ==> got <= LastRoom(calls) == DATA_RECEIVED_MAX_SIZE)
      ensures !old(readPaused) && !old(finalizing) ==> fd.polls > old(fd.polls)
      ensures Heard()
      ensures !again && err.None? && got == DATA_RECEIVED_MAX_SIZE ==> protocolBuffered
      ensures again ==> err.None? && got > 0
      ensures old(readPaused) || old(finalizing) ==> got == 0 && calls == old(calls)
      ensures got == 0 ==> LastRoom(calls) == LastRoom(old(calls))
      ensures Speaks(old(calls), calls, false)
    {
      hide OnTheWire, Queue, Blocked, Flags, Waiting, Forced, Shut, Lost, Begun, Life, Flow, Leads, Onward, Called,
           Delivered, Reached, LastRoom, Speaks;
      LeadsFrom(Now());
      again, got, err := false, 0, None;
      SpeaksNothing(calls, false);
      StillConnected();
      if finalizing || readPaused {
        return;
      }
      var r := ReadChunk(DATA_RECEIVED_MAX_SIZE, false);
      LeadsFrom(Now());
      if r.ReadFailed? {
        err := Some(r.exn);
      } else if r.EndOfStream? {
        err := OnEof();
      } else if r.Received? {
        got := |r.data|;
        var raised := HandleChunk();
        ghost var said := [DataReceived(r.data, Gate(false, false)), Returned(NowGate())];
        assert calls == old(calls) + said;
        SpeaksMore(old(calls), said, false);
        err := if raised then Some(UserError) else None;
        again := !raised && got == DATA_RECEIVED_MAX_SIZE && !protocolBuffered;
      }
    }

    /** The protocol supplies a buffer of some size. It may use the transport before it answers. */
    method CallGetBuffer() returns (size: nat, err: Option<Exn>)
      requires Valid() && !readPaused && !Reached(calls).lost && (calls != [] || eager)
      modifies this, fd, marks, iovecs
      ensures Valid() && Onward(old(Now()), Now()) && !Reached(calls).lost && fd.received == old(fd.received)
      ensures calls == old(calls) + [GetBuffer(Gate(false, false))]
                       + (if err.None? then [Supplied(size, NowGate())] else [])
      ensures if err.None? then size > 0 else err.value == UserError || size == 0
      ensures fd.polls == old(fd.polls) && fd.ended == old(fd.ended)
      ensures Speaks(old(calls), calls, true)
    {
      hide OnTheWire, Queue, Blocked, Flags, Waiting, Forced, Shut, Lost, Begun, Life, Flow, Leads, Onward, Called,
           Delivered, WellTimed, Reached, LastRoom;
      LeadsFrom(Now());
      NoteGetBuffer();
      LeadsFrom(Now());
      var raised := UserCode();
      size :| true;
      err := if raised then Some(UserError) else if size == 0 then Some(RuntimeErr) else None;
      if err.None? {
        NoteSupplied(size);
      }
    }

    /** One round of _read_ready__get_buffer. The transport is looked at before get_buffer() is called, not after. */
    method ReadBufferedRound() returns (again: bool, got: nat, size: nat, err: Option<Exn>)
      requires Valid() && (finalizing || calls != [] || eager)
      modifies this, fd, marks, iovecs
      ensures Valid() && Onward(old(Now()), Now())
      ensures |fd.received| == |old(fd.received)| + got && got <= size && (got > 0 ==> LastRoom(calls) == size)
      ensures !old(readPaused) && !old(finalizing) && err != Some(UserError) && size > 0 ==> fd.polls > old(fd.polls)
      ensures size == 0 && err.None? ==> old(readPaused) || old(finalizing)
      ensures Heard()
      ensures !again && err.None? && size > 0 && got == size ==> !protocolBuffered
      ensures again ==> err.None? && got > 0
      ensures old(readPaused) || old(finalizing) ==> got == 0 && calls == old(calls)
      ensures Speaks(old(calls), calls, true)
    {
      hide OnTheWire, Queue, Blocked, Flags, Waiting, Forced, Shut, Lost, Begun, Life, Flow, Leads, Onward, Called,
           Delivered, Reached, LastRoom, Speaks;
      LeadsFrom(Now());
      again, got, size, err := false, 0, 0, None;
      SpeaksNothing(calls, true);
      StillConnected();
      if finalizing || readPaused {
        return;
      }
      size, err := CallGetBuffer();
      if err.Some? {
        return;
      }
      LeadsFrom(Now());
      ghost var supplied := calls;
      again, got, err := ReadIntoBuffer(size);
      SpeaksOn(old(calls), supplied, calls, true);
    }

    /** The read into the supplied buffer, and what becomes of its result. */
    method ReadIntoBuffer(size: nat) returns (again: bool, got: nat, err: Option<Exn>)
      requires Valid() && calls != [] && calls[|calls| - 1] == Supplied(size, NowGate()) && !Reached(calls).lost
      modifies this, fd, marks, iovecs
      ensures Valid() && Onward(old(Now()), Now())
      ensures |fd.received| == |old(fd.received)| + got && got <= size && (got > 0 ==> LastRoom(calls) == size)
      ensures fd.polls > old(fd.polls) && Heard()
      ensures !again && err.None? && got == size ==> !protocolBuffered || got == 0
      ensures again ==> err.None? && got > 0
      ensures Speaks(old(calls), calls, true)
      // whatever was read is delivered, even to a transport that get_buffer() has just paused, closed or aborted
      ensures got > 0 ==>
                calls == old(calls) + [BufferUpdated(fd.received[|old(fd.received)|..], old(NowGate())),
                                       Returned(NowGate())]
    {
      hide OnTheWire, Queue, Blocked, Flags, Waiting, Forced, Shut, Lost, Begun, Life, Flow, Leads, Onward, Called,
           Reached, Delivered, WellTimed, LastRoom, Speaks;
      LeadsFrom(Now());
      again, got, err := false, 0, None;
      SpeaksNothing(calls, true);
      var r := ReadChunk(size, true);
      LeadsFrom(Now());
      if r.ReadFailed? {
        err := Some(r.exn);
      } else if r.EndOfStream? {
        err := OnEof();
      } else if r.Received? {
        got := |r.data|;
        var raised := HandleChunk();
        ghost var said := [BufferUpdated(r.data, old(NowGate())), Returned(NowGate())];
        assert calls == old(calls) + said;
        SpeaksMore(old(calls), said, true);
        err := if raised then Some(UserError) else None;
        again := !raised && got == size && protocolBuffered;
      }
    }

    /** _read_ready__on_eof. */
    method OnEof() returns (err: Option<Exn>)
      requires Valid() && !Reached(calls).lost
      modifies this, fd, marks, iovecs
      ensures Valid() && Onward(old(Now()), Now()) && fd.received == old(fd.received)
      ensures eofReceived || closing
      ensures err.None? ==> closing || !readerAdded
      ensures LastRoom(calls) == LastRoom(old(calls))
      ensures Speaks(old(calls), calls, true) && Speaks(old(calls), calls, false)
    {
      hide OnTheWire, Queue, Blocked, Flags, Waiting, Forced, Shut, Lost, Life, Flow, Leads, Onward, Reached,
           Delivered, LastRoom, Speaks;
      LeadsFrom(Now());
      EofIsSpoken(calls);
      var keepOpen, e := CallProtocolEofReceived();
      LeadsFrom(Now());
      err := e;
      if err.None? {
        if keepOpen {
          readerAdded := false;
        } else {
          Close();
        }
      }
    }

    static lemma EofIsSpoken(calls: seq<Callback<Octet>>)
      ensures forall buffered :: Speaks(calls, calls, buffered) && Speaks(calls, calls + [EofReceived], buffered)
    {
    }

    /** _call_protocol_eof_received. */
    method CallProtocolEofReceived() returns (keepOpen: bool, err: Option<Exn>)
      requires Valid() && !Reached(calls).lost
      modifies this, fd, marks, iovecs
      ensures Valid() && Onward(old(Now()), Now()) && fd.received == old(fd.received)
      ensures calls == if old(connected) && !old(eofReceived) then old(calls) + [EofReceived] else old(calls)
      ensures eofReceived <==> old(connected) || old(eofReceived)
      ensures !old(connected) || old(eofReceived) ==> !keepOpen && err.None?
      ensures LastRoom(calls) == LastRoom(old(calls))
    {
      hide OnTheWire, Queue, Blocked, Flags, Waiting, Forced, Shut, Lost, Begun, Flow, Leads, Onward, WellTimed,
           Undisturbed, Delivered, LastRoom;
      LeadsFrom(Now());
      keepOpen, err := false, None;
      if connected && !eofReceived {
        MarkEof();
        LeadsFrom(Now());
        var raised := UserCode();
        keepOpen := *;
        err := if raised then Some(UserError) else None;
      }
    }

    lemma MadeBefore()
      requires Called() && connected
      ensures calls != []
    {
      hide WellTimed, Undisturbed;
    }

    method MarkEof()
      requires Valid() && connected && !eofReceived
      modifies this`eofReceived, this`calls
      ensures Valid() && Onward(old(Now()), Now()) && eofReceived && calls == old(calls) + [EofReceived]
      ensures LastRoom(calls) == LastRoom(old(calls))
    {
      hide OnTheWire, Queue, Blocked, Flags, Waiting, Forced, Shut, Flow, Onward, Reached, Delivered, WellTimed,
           Undisturbed, LastRoom;
      MadeBefore();
      Extend(calls, EofReceived);
      eofReceived := true;
      calls := calls + [EofReceived];
      OnwardByCallback(old(Now()), Now());
    }

    method MarkMade()
      requires Valid() && !connected && !finalizing
      modifies this`connected, this`calls
      ensures Valid() && Onward(old(Now()), Now()) && connected && calls == old(calls) + [ConnectionMade]
    {
      hide OnTheWire, Queue, Blocked, Waiting, Forced, Shut, Flow, Onward, Reached, Delivered, WellTimed, Undisturbed,
           LastRoom;
      Extend(calls, ConnectionMade);
      connected := true;
      calls := calls + [ConnectionMade];
      OnwardByCallback(old(Now()), Now());
    }

    method MarkLost()
      requires Valid() && connected && finalizing
      modifies this`connected, this`calls
      ensures Valid() && Onward(old(Now()), Now()) && !connected && calls == old(calls) + [ConnectionLost]
    {
      hide OnTheWire, Queue, Blocked, Flags, Waiting, Forced, Shut, Flow, Onward, Reached, Delivered, WellTimed,
           Undisturbed, LastRoom;
      MadeBefore();
      Extend(calls, ConnectionLost);
      connected := false;
      calls := calls + [ConnectionLost];
      OnwardByCallback(old(Now()), Now());
    }

    /** _read_ready: one cycle reads less than the budget plus the last buffer. */
    method ReadReady()
      requires Valid() && readerAdded
      modifies this, fd, marks, iovecs
      ensures Valid() && Onward(old(Now()), Now())
      ensures |fd.received| > |old(fd.received)| ==>
                && |fd.received| < |old(fd.received)| + MAX_READ_BYTES_PER_CYCLE_HINT + LastRoom(calls)
                && (!old(protocolBuffered) ==> LastRoom(calls) == DATA_RECEIVED_MAX_SIZE)
      ensures !old(readPaused) && !old(finalizing) ==> fd.polls > old(fd.polls) || finalizing
      ensures Heard()
      ensures old(readPaused) || old(finalizing) ==> fd.received == old(fd.received) && calls == old(calls)
      // the kind of protocol is looked up once for the whole cycle
      ensures Speaks(old(calls), calls, old(protocolBuffered))
    {
      hide OnTheWire, Queue, Blocked, Flags, Waiting, Forced, Shut, Lost, Begun, Life, Flow, Leads, Onward, LastRoom,
           Speaks;
      LeadsFrom(Now());
      MayRead();
      var buffered := protocolBuffered;
      var idle := readPaused || finalizing;
      var total, again, err := 0, true, None;
      SpeaksNothing(calls, buffered);
      while again && total < MAX_READ_BYTES_PER_CYCLE_HINT
        invariant Valid() && Onward(old(Now()), Now()) && (finalizing || calls != [] || eager)
        invariant |fd.received| == |old(fd.received)| + total
        invariant total > 0 ==> total < MAX_READ_BYTES_PER_CYCLE_HINT + LastRoom(calls)
        invariant total > 0 && !buffered ==> LastRoom(calls) == DATA_RECEIVED_MAX_SIZE
        invariant again ==> err.None?
        invariant Heard() && Speaks(old(calls), calls, buffered)
        invariant !idle ==> fd.polls > old(fd.polls) || err.Some? || (total == 0 && again && !readPaused && !finalizing)
        invariant idle ==> total == 0 && calls == old(calls) && (again ==> readPaused || finalizing)
        decreases if again then 1 else 0, MAX_READ_BYTES_PER_CYCLE_HINT - total
      {
        OnwardFrom(Now());
        var got;
        ghost var before := calls;
        again, got, err := ReadRound(buffered);
        SpeaksOn(old(calls), before, calls, buffered);
        total := total + got;
      }
      OnwardReceived(old(Now()), Now());
      if err.Some? {
        LeadsFrom(Now());
        ValidIsHurt();
        HandleError(err.value);
      }
    }

    lemma MayRead()
      requires Valid() && readerAdded
      ensures finalizing || calls != [] || eager
    {
    }

    /** One round of either loop. */
    method ReadRound(buffered: bool) returns (again: bool, got: nat, err: Option<Exn>)
      requires Valid() && (finalizing || calls != [] || eager)
      modifies this, fd, marks, iovecs
      ensures Valid() && Onward(old(Now()), Now()) && (finalizing || calls != [] || eager)
      ensures |fd.received| == |old(fd.received)| + got && (got > 0 ==> got <= LastRoom(calls))
      ensures got > 0 && !buffered ==> LastRoom(calls) == DATA_RECEIVED_MAX_SIZE
      ensures got == 0 && !buffered ==> LastRoom(calls) == LastRoom(old(calls))
      ensures !old(readPaused) && !old(finalizing) ==> fd.polls > old(fd.polls) || err.Some?
      ensures Heard()
      ensures again ==> err.None? && got > 0
      ensures old(readPaused) || old(finalizing) ==> got == 0 && calls == old(calls)
      ensures Speaks(old(calls), calls, buffered)
    {
      hide OnTheWire, Queue, Blocked, Flags, Waiting, Forced, Shut, Lost, Begun, Life, Flow, Leads, Onward, Called,
           Delivered, Reached, LastRoom, Speaks;
      OnwardFrom(Now());
      if buffered {
        var size;
        again, got, size, err := ReadBufferedRound();
      } else {
        again, got, err := ReadCopiedRound();
      }
    }

    static lemma OnwardFrom(a: View)
      ensures forall b :: Onward(a, b) ==>
                && InputGrows(a.input, b.input) && (a.calls != [] ==> b.calls != []) && (a.eager ==> b.eager)
                && (a.finalizing ==> b.finalizing)
                                           && (a.eofReceived ==> b.eofReceived) && (a.closing ==> b.closing)
    {
    }

    static lemma OnwardReceived(a: View, b: View)
      requires Onward(a, b)
      ensures |a.input.received| == |b.input.received| ==> a.input.received == b.input.received
    {
    }

    // ---------------------------------------------------------------- the life of a connection

    /** _call_protocol_connection_made, scheduled by the constructor. */
    method CallProtocolConnectionMade()
      requires Valid()
      modifies this, fd, marks, iovecs
      ensures Valid() && Onward(old(Now()), Now())
      ensures calls == if old(connected) || old(finalizing) then old(calls) else old(calls) + [ConnectionMade]
    {
      hide OnTheWire, Queue, Blocked, Flags, Waiting, Forced, Shut, Lost, Begun, Life, Flow, Leads, Onward;
      LeadsFrom(Now());
      if !connected && !finalizing {
        MarkMade();
        LeadsFrom(Now());
        var _ := UserCode();
      }
    }

    /** The reader is added right after the scheduled connection_made, whatever that has done to the transport. */
    method AddReader()
      requires Valid() && (connected || finalizing)
      modifies this`readerAdded
      ensures Valid() && Onward(old(Now()), Now())
    {
      hide OnTheWire, Queue, Blocked, Flags, Waiting, Forced, Shut, Lost, Flow, Leads, Onward, Delivered;
      LeadsFrom(Now());
      readerAdded := true;
    }

    /** _finalize_close: connection_lost if connection_made was called, and then the descriptor is closed. */
    method FinalizeClose()
      requires Valid() && finalizing && !gone
      modifies this, fd, marks, iovecs
      ensures Valid() && Onward(old(Now()), Now()) && gone
      ensures calls == if old(connected) then old(calls) + [ConnectionLost] else old(calls)
      ensures ConnectionMade in calls <==> ConnectionLost in calls
    {
      hide OnTheWire, Queue, Blocked, Flags, Waiting, Forced, Shut, Lost, Begun, Life, Flow, Leads, Onward;
      LeadsFrom(Now());
      if connected {
        MarkLost();
        LeadsFrom(Now());
        var _ := UserCode();
        Disconnected();
      }
      MarkGone();
    }

    lemma Disconnected()
      requires Valid() && calls != [] && calls[|calls| - 1] == ConnectionLost
      ensures !connected
    {
      GrammarMeans(calls);
    }

    method MarkGone()
      requires Valid() && finalizing && !connected
      modifies this`gone
      ensures Valid() && Onward(old(Now()), Now()) && gone
      ensures ConnectionMade in calls <==> ConnectionLost in calls
    {
      hide OnTheWire, Queue, Blocked, Waiting, Forced, Shut, Flow, Onward, Reached, Delivered, WellTimed, Undisturbed;
      gone := true;
      OnwardByCallback(old(Now()), Now());
      GrammarMeans(calls);
    }

    // ---------------------------------------------------------------- whole runs

    /** What Valid() means to somebody who uses the transport. */
    lemma Promises()
      requires Valid()
      // The stream: what has left the queue and what is in it is what was accepted, in order.
      ensures !finalizing ==> Octets(consumed) + Queued(backlog) == accepted && backlogSize == |Queued(backlog)|
      ensures fd.wire == Transmitted(consumed) && Octets(consumed) <= accepted
      ensures (forall i :: 0 <= i < |consumed| ==> consumed[i].OnWire?) ==>
                fd.wire <= accepted && (!finalizing ==> fd.wire + Queued(backlog) == accepted)
      // The writer is registered exactly while something waits; a finished transport holds nothing.
      ensures !finalizing ==> (registered <==> backlog != [])
      ensures finalizing ==> backlog == [] && !registered
      // What waits, waits for the kernel.
      ensures backlog != [] ==> fd.full
      ensures scheduled <= 1 && (finalizing ==> closing) && (closing ==> readPaused)
      // Flow control.
      ensures !finalizing && marks.paused ==> backlogSize > marks.lowWater
      ensures !finalizing && !marks.paused ==> backlogSize <= marks.highWater
      ensures Alternates(marks.signals)
      // Transfers: none is forgotten, results come in order and not before the range has left the queue.
      ensures forall id :: 0 <= id < |futures| && futures[id] == Pending ==> id in Waiters(backlog)
      ensures forall id, id' | 0 <= id < id' < |futures| :: futures[id'] == Result ==> futures[id] != Pending
      ensures forall id | 0 <= id < |futures| :: futures[id] == Result ==> ends[id] <= |consumed|
      ensures forall id | 0 <= id < |futures| :: futures[id] == Cancelled || futures[id].Failed? ==> finalizing
      // SHUT_WR comes after everything, and nothing comes after it.
      ensures fd.shutAt.Some? ==> backlog == [] && fd.shutAt.value == fd.wire && Octets(consumed) == accepted
      // The protocol sees a grammatical sequence of calls and every byte that was read.
      ensures Reached(calls).Phase? && Delivered(calls) == fd.received && WellTimed(calls)
      // A paused or closing protocol gets a chunk only in answer to the get_buffer() that has paused or closed.
      ensures Undisturbed(calls)
      // Unless the application has resumed reading before that, connection_made comes first.
      ensures calls != [] && !eager ==> calls[0] == ConnectionMade
      ensures gone ==> (ConnectionMade in calls <==> ConnectionLost in calls)
    {
      hide Octets, Queued, Transmitted, EndsAt, Waiters, Range, Reached, Delivered, WellTimed, Undisturbed, Alternates,
           ValidQueue;
      GrammarMeans(calls);
      if forall i :: 0 <= i < |consumed| ==> consumed[i].OnWire? {
        TransmittedIsAll(consumed);
      }
      NoneForgotten();
      NothingQueued();
      if fd.shutAt.Some? && !finalizing {
        ShutMeansEmpty();
      }
    }

    lemma NoneForgotten()
      requires Lined()
      ensures forall id :: 0 <= id < |futures| && futures[id] == Pending ==> id in Waiters(backlog)
      ensures forall id, id' | 0 <= id < id' < |futures| :: futures[id'] == Result ==> futures[id] != Pending
    {
      forall id | resolved <= id < |futures|
        ensures id in Waiters(backlog)
      {
        assert Range(resolved, |futures|)[id - resolved] == id;
      }
    }

    /** Anything that can happen next: a call from the application or a callback from the loop. */
    method NextEvent()
      requires Valid()
      modifies this, fd, marks, iovecs
      ensures Valid() && Onward(old(Now()), Now())
    {
      hide OnTheWire, Queue, Blocked, Flags, Waiting, Forced, Shut, Lost, Begun, Life, Flow, Leads, Onward;
      LeadsFrom(Now());
      if {
        case true => UserCall();
        case readerAdded => ReadReady();
        case true => var _ := WriteReady();
        case true => CallProtocolConnectionMade();
        case connected || finalizing => AddReader();
        case finalizing && !gone => FinalizeClose();
      }
    }

    /** Every run: any number of events in any order, with any behaviour of descriptor, files and application. */
    method Run(steps: nat)
      requires Valid()
      modifies this, fd, marks, iovecs
      ensures Valid() && Onward(old(Now()), Now())
    {
      hide OnTheWire, Queue, Blocked, Flags, Waiting, Forced, Shut, Lost, Begun, Life, Flow, Leads, Onward;
      LeadsFrom(Now());
      var left := steps;
      while left > 0
        invariant Valid() && Onward(old(Now()), Now())
      {
        NextEvent();
        left := left - 1;
      }
    }

    /** What a client may conclude from a transfer: sendfile(), then any run whatever, and then a look at its future.
        `promised` is everything that had been accepted up to and with that call. */
    method AwaitTransfer(file: nat, fileSize: int, offset: int, count: Option<int>, steps: nat)
      returns (waiter: Option<nat>, err: Option<Exn>, ghost promised: seq<Octet>)
      requires Valid()
      modifies this, fd, marks, iovecs
      ensures Valid() && Onward(old(Now()), Now())
      ensures var range := AvailableRange(fileSize, offset, count);
              var refused := !sendfileCompatible || old(writeEof) || old(closing) || range.None?;
              && (refused ==> err.Some?)
              && promised == old(accepted) + (if refused then [] else InFile(file, offset, range.value))
              && (err.None? && waiter.None? && range != Some(0) ==> promised <= Octets(consumed))
      ensures promised <= accepted
      ensures waiter.Some? ==> err.None? && waiter.value < |futures|
                               && (futures[waiter.value] == Result ==> promised <= Octets(consumed))
    {
      hide Valid, Leads, Onward, Octets, AvailableRange, InFile;
      LeadsFrom(Now());
      LeftTheQueue([], None);
      waiter, err := Sendfile(file, fileSize, offset, count);
      promised := accepted;
      ghost var before := Now();
      LeadsFrom(before);
      Run(steps);
      TransfersStay(before, Now());
      LeftTheQueue(promised, waiter);
    }

    static lemma TransfersStay(a: View, b: View)
      requires Onward(a, b)
      ensures a.accepted <= b.accepted && |a.transfers.futures| <= |b.transfers.futures|
      ensures a.transfers.ends <= b.transfers.ends && a.transfers.left <= b.transfers.left
    {
    }

    lemma LeftTheQueue(promised: seq<Octet>, waiter: Option<nat>)
      requires Valid() && promised <= accepted
      ensures |ends| == |futures|
      ensures |promised| <= |consumed| ==> promised <= Octets(consumed)
      ensures waiter.Some? && waiter.value < |futures| && ends[waiter.value] == |promised| ==>
                (futures[waiter.value] == Result ==> promised <= Octets(consumed))
    {
      hide Octets, Queued, EndsAt, Called, Reached, Delivered, WriteWatermarks.Valid;
      Promises();
    }
  }
}
