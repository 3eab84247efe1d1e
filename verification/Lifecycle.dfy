/** The order in which a transport and its protocol talk to each other. */
module Lifecycle {

  /** What decides whether reading goes on: it is paused, or the transport is closing. */
  datatype Gate = Gate(paused: bool, closing: bool)

  /** A callback as it is made, with the gate at that moment, and what the transport learns when it returns. */
  datatype Callback<T> =
    | ConnectionMade
    | GetBuffer(gate: Gate)
    // get_buffer() has supplied a buffer of some size
    | Supplied(size: nat, gate: Gate)
    | BufferUpdated(chunk: seq<T>, gate: Gate)
    | DataReceived(chunk: seq<T>, gate: Gate)
    // buffer_updated() or data_received() has returned or raised
    | Returned(gate: Gate)
    | EofReceived
    | ConnectionLost

  datatype Phase = Phase(made: bool, eof: bool, lost: bool) | Broken

  function Next<T>(p: Phase, c: Callback<T>): Phase {
    match p
    case Broken => Broken
    case Phase(made, eof, lost) =>
      match c
      case ConnectionMade => if made || lost then Broken else p.(made := true)
      case EofReceived => if !made || eof || lost then Broken else p.(eof := true)
      case ConnectionLost => if !made || lost then Broken else p.(lost := true)
      case _ => if lost then Broken else p
  }

  /** Where a history of callbacks has led. */
  ghost function Reached<T>(calls: seq<Callback<T>>): Phase {
    if calls == [] then Phase(false, false, false)
    else Next(Reached(calls[..|calls| - 1]), calls[|calls| - 1])
  }

  /** The three callbacks that happen at most once. */
  predicate Single<T>(c: Callback<T>) {
    c.ConnectionMade? || c.EofReceived? || c.ConnectionLost?
  }

  lemma MemberSnoc<T>(calls: seq<Callback<T>>, c: Callback<T>)
    requires calls != []
    ensures c in calls <==> c in calls[..|calls| - 1] || calls[|calls| - 1] == c
  {
    assert calls == calls[..|calls| - 1] + [calls[|calls| - 1]];
  }

  /** The automaton remembers which of the single callbacks there have been. */
  lemma {:induction false} ReachedMeans<T>(calls: seq<Callback<T>>)
    requires Reached(calls).Phase?
    ensures Reached(calls) == Phase(ConnectionMade in calls, EofReceived in calls, ConnectionLost in calls)
    ensures EofReceived in calls || ConnectionLost in calls ==> ConnectionMade in calls
  {
    if calls != [] {
      var n := |calls| - 1;
      ReachedMeans(calls[..n]);
      MemberSnoc(calls, ConnectionMade);
      MemberSnoc(calls, EofReceived);
      MemberSnoc(calls, ConnectionLost);
    }
  }

  /** The same for every prefix of a history. */
  lemma {:induction false} ReachedPrefix<T>(calls: seq<Callback<T>>, n: nat)
    requires Reached(calls).Phase? && n <= |calls|
    ensures Reached(calls[..n]).Phase?
    decreases |calls|
  {
    if n == |calls| {
      assert calls[..n] == calls;
    } else {
      var all := calls[..|calls| - 1];
      ReachedPrefix(all, n);
      assert all[..n] == calls[..n];
    }
  }

  /** What an entry means to the entries before it. */
  lemma StepMeans<T>(calls: seq<Callback<T>>, j: nat)
    requires Reached(calls).Phase? && j < |calls|
    ensures Single(calls[j]) ==> calls[j] !in calls[..j]
    ensures calls[j].EofReceived? || calls[j].ConnectionLost? ==> ConnectionMade in calls[..j]
    ensures ConnectionLost !in calls[..j]
  {
    ReachedPrefix(calls, j + 1);
    ReachedPrefix(calls, j);
    assert calls[..j + 1][..j] == calls[..j];
    ReachedMeans(calls[..j]);
  }

  lemma PrefixMember<T>(calls: seq<Callback<T>>, m: nat, n: nat, c: Callback<T>)
    requires m <= n <= |calls| && c in calls[..m]
    ensures c in calls[..n]
  {
    assert calls[..m] == calls[..n][..m];
  }

  lemma MadeOnce<T>(calls: seq<Callback<T>>, i: nat, j: nat)
    requires Reached(calls).Phase? && i < |calls| && j < |calls| && calls[i] == ConnectionMade
    requires ConnectionMade in calls[..j]
    ensures i < j
  {
    StepMeans(calls, i);
    if j <= i {
      PrefixMember(calls, j, i, ConnectionMade);
    }
  }

  /** The grammar, spelt out. */
  lemma GrammarMeans<T>(calls: seq<Callback<T>>)
    requires Reached(calls).Phase?
    ensures Reached(calls) == Phase(ConnectionMade in calls, EofReceived in calls, ConnectionLost in calls)
    // connection_made, eof_received and connection_lost happen at most once
    ensures forall i, j :: 0 <= i < j < |calls| && calls[i] == calls[j] ==> !Single(calls[i])
    // eof_received and connection_lost come after connection_made
    ensures EofReceived in calls || ConnectionLost in calls ==> ConnectionMade in calls
    ensures forall i, j | 0 <= i < |calls| && 0 <= j < |calls| ::
              calls[i] == ConnectionMade && (calls[j].EofReceived? || calls[j].ConnectionLost?) ==> i < j
    // and nothing at all comes after connection_lost
    ensures forall i :: 0 <= i < |calls| && calls[i] == ConnectionLost ==> i == |calls| - 1
  {
    hide Reached;
    ReachedMeans(calls);
    forall i, j | 0 <= i < j < |calls| && calls[i] == calls[j] ensures !Single(calls[i]) {
      StepMeans(calls, j);
      assert calls[..j][i] == calls[i];
    }
    forall i, j | 0 <= i < |calls| && 0 <= j < |calls| && calls[i] == ConnectionMade
                  && (calls[j].EofReceived? || calls[j].ConnectionLost?)
      ensures i < j
    {
      StepMeans(calls, j);
      MadeOnce(calls, i, j);
    }
    if calls != [] {
      StepMeans(calls, |calls| - 1);
    }
  }

  // ------------------------------------------------------------------ timing

  /** Entry i answers the entry before it; eof_received() may be called from inside another callback. */
  ghost predicate Answers<T>(calls: seq<Callback<T>>, i: nat, question: Callback<T> -> bool)
    requires i <= |calls|
  {
    (0 < i && question(calls[i - 1])) || (1 < i && calls[i - 1].EofReceived? && question(calls[i - 2]))
  }

  /** The protocol has just been called, and has left the gate as it is now. */
  ghost predicate JustLeft<T>(calls: seq<Callback<T>>, i: nat, gate: Gate)
    requires i <= |calls|
  {
    Answers(calls, i, (c: Callback<T>) => c.ConnectionMade? || ((c.Supplied? || c.Returned?) && c.gate == gate))
  }

  /** Reading is not paused; and if the transport is closing, then the protocol has only just closed it. */
  ghost predicate Carried<T>(calls: seq<Callback<T>>, i: nat, gate: Gate)
    requires i <= |calls|
  {
    !gate.paused && (gate.closing ==> JustLeft(calls, i, gate))
  }

  ghost predicate Timed<T>(calls: seq<Callback<T>>, i: nat, c: Callback<T>)
    requires i <= |calls|
  {
    match c
    case GetBuffer(gate) => Carried(calls, i, gate)
    case DataReceived(_, gate) => Carried(calls, i, gate)
    case Supplied(_, _) => Answers(calls, i, (q: Callback<T>) => q.GetBuffer?)
    case BufferUpdated(chunk, gate) =>
      0 < i && calls[i - 1].Supplied? && calls[i - 1].gate == gate && |chunk| <= calls[i - 1].size
    case Returned(_) => Answers(calls, i, (q: Callback<T>) => q.DataReceived? || q.BufferUpdated?)
    case _ => true
  }

  /** Neither get_buffer() nor data_received() is called while reading is paused, nor on a closing transport unless the
      protocol has closed it the last time it was called; buffer_updated() follows directly on the get_buffer() that
      supplied its buffer, and finds the gate as that left it. */
  ghost predicate WellTimed<T>(calls: seq<Callback<T>>) {
    forall i :: 0 <= i < |calls| ==> Timed(calls, i, calls[i])
  }

  /** Who can pause or close in time for a chunk to arrive all the same: nobody before data_received(), and only the
      get_buffer() that supplies the buffer before buffer_updated(). It was itself called while reading was not paused,
      and on an open transport if it always is. */
  lemma PausedByGetBuffer<T>(calls: seq<Callback<T>>, i: nat)
    requires WellTimed(calls) && i < |calls|
    ensures calls[i].DataReceived? ==> !calls[i].gate.paused && (Undisturbed(calls) ==> !calls[i].gate.closing)
    ensures calls[i].BufferUpdated? ==>
              && 2 <= i && calls[i - 1].Supplied? && calls[i - 1].gate == calls[i].gate
              && |calls[i].chunk| <= calls[i - 1].size
              && var asked := if calls[i - 2].EofReceived? then i - 3 else i - 2;
              && 0 <= asked && calls[asked].GetBuffer? && !calls[asked].gate.paused
              && (Undisturbed(calls) ==> !calls[asked].gate.closing)
  {
    assert Timed(calls, i, calls[i]);
    if calls[i].BufferUpdated? {
      assert Timed(calls, i - 1, calls[i - 1]);
      var asked := if calls[i - 2].EofReceived? then i - 3 else i - 2;
      assert Timed(calls, asked, calls[asked]);
    }
  }

  /** With a transport whose reading is paused as soon as it closes the timing is simpler still. */
  ghost predicate Undisturbed<T>(calls: seq<Callback<T>>) {
    forall i :: 0 <= i < |calls| && (calls[i].GetBuffer? || calls[i].DataReceived?) ==> calls[i].gate == Gate(false, false)
  }

  /** Timing looks only at what came before. */
  lemma TimedPrefix<T>(calls: seq<Callback<T>>, all: seq<Callback<T>>, i: nat, c: Callback<T>)
    requires calls <= all && i <= |calls|
    ensures Timed(calls, i, c) <==> Timed(all, i, c)
  {
  }

  // ------------------------------------------------------------------ which interface

  /** What reading may say to a protocol of either kind. */
  predicate Spoken<T>(c: Callback<T>, buffered: bool) {
    match c
    case GetBuffer(_) => buffered
    case Supplied(_, _) => buffered
    case BufferUpdated(_, _) => buffered
    case DataReceived(_, _) => !buffered
    case Returned(_) => true
    case EofReceived => true
    case _ => false
  }

  /** Everything said since is meant for a protocol of that kind. */
  ghost predicate Speaks<T>(before: seq<Callback<T>>, after: seq<Callback<T>>, buffered: bool) {
    before <= after && forall i :: |before| <= i < |after| ==> Spoken(after[i], buffered)
  }

  lemma SpeaksOn<T>(a: seq<Callback<T>>, b: seq<Callback<T>>, c: seq<Callback<T>>, buffered: bool)
    requires Speaks(a, b, buffered) && Speaks(b, c, buffered)
    ensures Speaks(a, c, buffered)
  {
  }

  lemma SpeaksNothing<T>(calls: seq<Callback<T>>, buffered: bool)
    ensures Speaks(calls, calls, buffered)
  {
  }

  lemma SpeaksMore<T>(calls: seq<Callback<T>>, more: seq<Callback<T>>, buffered: bool)
    requires forall c :: c in more ==> Spoken(c, buffered)
    ensures Speaks(calls, calls + more, buffered)
  {
  }

  // ------------------------------------------------------------------ what was delivered

  function Chunk<T>(c: Callback<T>): seq<T> {
    match c
    case BufferUpdated(chunk, _) => chunk
    case DataReceived(chunk, _) => chunk
    case _ => []
  }

  /** The chunks handed to the protocol, joined. */
  ghost function Delivered<T>(calls: seq<Callback<T>>): seq<T> {
    if calls == [] then [] else Delivered(calls[..|calls| - 1]) + Chunk(calls[|calls| - 1])
  }

  /** The chunks themselves, in order. */
  ghost function Chunks<T>(calls: seq<Callback<T>>): seq<seq<T>> {
    if calls == [] then []
    else Chunks(calls[..|calls| - 1]) + Piece(Chunk(calls[|calls| - 1]))
  }

  function Piece<T>(chunk: seq<T>): seq<seq<T>> {
    if chunk == [] then [] else [chunk]
  }

  /** Every chunk is a piece of the whole, each begins where the one before it ends, or later, and `places` tells where. */
  ghost predicate InPieces<T>(chunks: seq<seq<T>>, places: seq<nat>, whole: seq<T>) {
    && |places| == |chunks|
    && (forall k :: 0 <= k < |chunks| ==>
          places[k] + |chunks[k]| <= |whole| && whole[places[k]..places[k] + |chunks[k]|] == chunks[k])
    && (forall k :: 0 < k < |chunks| ==> places[k - 1] + |chunks[k - 1]| <= places[k])
  }

  lemma PiecesGrow<T>(chunks: seq<seq<T>>, places: seq<nat>, whole: seq<T>, more: seq<T>)
    requires InPieces(chunks, places, whole)
    ensures InPieces(chunks, places, whole + more)
  {
    forall k | 0 <= k < |chunks|
      ensures (whole + more)[places[k]..places[k] + |chunks[k]|] == chunks[k]
    {
      assert (whole + more)[places[k]..places[k] + |chunks[k]|] == whole[places[k]..places[k] + |chunks[k]|];
    }
  }

  lemma PieceAdded<T>(chunks: seq<seq<T>>, places: seq<nat>, whole: seq<T>, chunk: seq<T>)
    requires InPieces(chunks, places, whole)
    ensures InPieces(chunks + Piece(chunk), places + (if chunk == [] then [] else [|whole|]), whole + chunk)
  {
    PiecesGrow(chunks, places, whole, chunk);
    assert (whole + chunk)[|whole|..|whole| + |chunk|] == chunk;
  }

  const DATA_RECEIVED_MAX_SIZE: nat := 256 * 1024

  /** The room that a read has after this entry. */
  function Room<T>(c: Callback<T>): nat {
    match c
    case Supplied(size, _) => size
    case DataReceived(_, _) => DATA_RECEIVED_MAX_SIZE
    case _ => 0
  }

  /** The room of the last read in a history. */
  ghost function LastRoom<T>(calls: seq<Callback<T>>): nat {
    if calls == [] then 0
    else
      var c := calls[|calls| - 1];
      if c.Supplied? || c.DataReceived? then Room(c) else LastRoom(calls[..|calls| - 1])
  }

  /** What a further entry does to a history. */
  lemma Extend<T>(calls: seq<Callback<T>>, c: Callback<T>)
    requires WellTimed(calls) && Timed(calls, |calls|, c)
    ensures var all := calls + [c];
            && Reached(all) == Next(Reached(calls), c) && Delivered(all) == Delivered(calls) + Chunk(c)
            && LastRoom(all) == (if c.Supplied? || c.DataReceived? then Room(c) else LastRoom(calls))
            && Chunks(all) == Chunks(calls) + Piece(Chunk(c)) && (Chunk(c) == [] ==> Chunks(all) == Chunks(calls))
            && WellTimed(all) && all != [] && all[0] == (if calls == [] then c else calls[0])
            && (Undisturbed(all) <==> Undisturbed(calls)
                                      && (c.GetBuffer? || c.DataReceived? ==> c.gate == Gate(false, false)))
  {
    hide Carried, JustLeft, Answers, Timed;
    var all := calls + [c];
    assert all[..|calls|] == calls;
    forall i | 0 <= i < |all| ensures Timed(all, i, all[i]) {
      TimedPrefix(calls, all, i, all[i]);
    }
    SameBeginning(calls, c);
  }

  lemma SameBeginning<T>(calls: seq<Callback<T>>, c: Callback<T>)
    ensures Undisturbed(calls + [c]) <==> Undisturbed(calls)
                                          && (c.GetBuffer? || c.DataReceived? ==> c.gate == Gate(false, false))
  {
    var all := calls + [c];
    assert all[|calls|] == c && forall i :: 0 <= i < |calls| ==> all[i] == calls[i];
  }
}
