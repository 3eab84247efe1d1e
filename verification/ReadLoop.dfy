/** _do_read__copied and _do_read__buffered of ssl_transport.pyx, as a conversation: what the engine answers and what
    the application does to the gate on one side, the callbacks on the other. */
module ReadLoop {
  import opened Prelude
  import opened Lifecycle

  /** One round of a read loop: the gate when it starts, the room for the chunk and the gate when the room is known, the
      chunk, the gate when the application is done with it, and whether an engine that ran into a full BIO has found it
      emptied again. */
  datatype Round = Round(entry: Gate, room: nat, mid: Gate, chunk: seq<byte>, left: Gate, retry: bool)

  /** Once closing, always closing. */
  predicate Onwards(a: Gate, b: Gate) {
    a.closing ==> b.closing
  }

  predicate Fits(r: Round, buffered: bool) {
    && !r.entry.paused && Onwards(r.entry, r.mid) && Onwards(r.mid, r.left)
    && 0 < r.room && |r.chunk| <= r.room
    && (!buffered ==> r.mid == r.entry && r.room == DATA_RECEIVED_MAX_SIZE)
    && (r.chunk == [] ==> r.left == r.mid)
  }

  /** What both loops look at when they decide whether to go on. The state of the connection is not part of it. */
  predicate GoesOn(r: Round) {
    !r.left.paused && (|r.chunk| == r.room || r.retry)
  }

  /** What the protocol is told when it gets a chunk, and what is noted when it is done with it. */
  function Handing(chunk: seq<byte>, buffered: bool, before: Gate, after: Gate): seq<Callback<byte>> {
    if chunk == [] then []
    else [if buffered then BufferUpdated(chunk, before) else DataReceived(chunk, before), Returned(after)]
  }

  /** The callbacks of one round. */
  function Trace(r: Round, buffered: bool): seq<Callback<byte>> {
    (if buffered then [GetBuffer(r.entry), Supplied(r.room, r.mid)] else []) + Handing(r.chunk, buffered, r.mid, r.left)
  }

  /** The callbacks of a whole loop. */
  function Dialogue(rounds: seq<Round>, buffered: bool): seq<Callback<byte>> {
    if rounds == [] then []
    else Dialogue(rounds[..|rounds| - 1], buffered) + Trace(rounds[|rounds| - 1], buffered)
  }

  predicate Follows(a: Round, b: Round) {
    GoesOn(a) && b.entry == a.left
  }

  ghost predicate Chain(rounds: seq<Round>, buffered: bool) {
    && (forall k :: 0 <= k < |rounds| ==> Fits(rounds[k], buffered))
    && (forall k :: 0 < k < |rounds| ==> Follows(rounds[k - 1], rounds[k]))
  }

  /** eof_received() may be called in the middle of anything; the rest of a history. */
  function WithoutEof<T>(calls: seq<Callback<T>>): seq<Callback<T>> {
    if calls == [] then []
    else
      WithoutEof(calls[..|calls| - 1])
      + if calls[|calls| - 1].EofReceived? then [] else [calls[|calls| - 1]]
  }

  lemma {:induction false} WithoutEofConcat<T>(a: seq<Callback<T>>, b: seq<Callback<T>>)
    ensures WithoutEof(a + b) == WithoutEof(a) + WithoutEof(b)
  {
    if b == [] {
      assert a + b == a;
    } else {
      var n := |b| - 1;
      WithoutEofConcat(a, b[..n]);
      assert (a + b)[..|a + b| - 1] == a + b[..n];
    }
  }

  lemma ChainBegins(said: seq<Callback<byte>>, buffered: bool)
    ensures Chain([], buffered) && Dialogue([], buffered) == [] && said + Dialogue([], buffered) == said
  {
  }

  /** One more round: from `before` the rounds so far have led to `so`, and the new one adds to that. */
  lemma ChainSnoc(rounds: seq<Round>, r: Round, buffered: bool, before: seq<Callback<byte>>, so: seq<Callback<byte>>)
    requires Chain(rounds, buffered) && Fits(r, buffered)
    requires rounds != [] ==> Follows(rounds[|rounds| - 1], r)
    requires so == before + Dialogue(rounds, buffered)
    ensures var all := rounds + [r];
            && all[..|all| - 1] == rounds && all[|all| - 1] == r
            && Chain(all, buffered) && (!GoesOn(r) ==> Complete(all, buffered))
            && so + Trace(r, buffered) == before + Dialogue(all, buffered)
            && Trace(r, buffered)[..|Trace(r, buffered)|] == Trace(r, buffered)
  {
    hide Trace, Fits, GoesOn, Dialogue;
    var all := rounds + [r];
    var n := |rounds|;
    assert all[..n] == rounds && all[n] == r && forall k :: 0 <= k < n ==> all[k] == rounds[k];
    DialogueSnoc(rounds, r, buffered);
  }

  lemma DialogueSnoc(rounds: seq<Round>, r: Round, buffered: bool)
    ensures Dialogue(rounds + [r], buffered) == Dialogue(rounds, buffered) + Trace(r, buffered)
  {
    hide Trace;
    assert (rounds + [r])[..|rounds|] == rounds;
  }

  /** A round of the copying loop, as soon as its chunk is done with. */
  lemma CopiedRound(entry: Gate, chunk: seq<byte>, left: Gate, retry: bool)
    requires !entry.paused && Onwards(entry, left) && |chunk| <= DATA_RECEIVED_MAX_SIZE
    requires chunk == [] ==> left == entry
    ensures var r := Round(entry, DATA_RECEIVED_MAX_SIZE, entry, chunk, left, retry);
            && Fits(r, false) && Trace(r, false) == Handing(chunk, false, entry, left)
            && (GoesOn(r) <==> !left.paused && (|chunk| == DATA_RECEIVED_MAX_SIZE || retry))
  {
  }

  /** A round of the buffered loop, likewise; or the beginning of it, if the protocol supplies no buffer. */
  lemma BufferedRound(entry: Gate, size: nat, mid: Gate, chunk: seq<byte>, left: Gate, retry: bool)
    requires !entry.paused && Onwards(entry, mid) && Onwards(mid, left) && |chunk| <= size && 0 < size
    requires chunk == [] ==> left == mid
    ensures var r := Round(entry, size, mid, chunk, left, retry);
            && Fits(r, true) && (GoesOn(r) <==> !left.paused && (|chunk| == size || retry))
            && Trace(r, true) == [GetBuffer(entry), Supplied(size, mid)] + Handing(chunk, true, mid, left)
            && |Trace(r, true)| >= 1 && Trace(r, true)[..1] == [GetBuffer(entry)]
            && Trace(r, true)[..|Trace(r, true)|] == Trace(r, true)
  {
  }

  /** A call, perhaps an eof_received() in the middle of it, and its return. */
  lemma Exchange<T>(calls: seq<Callback<T>>, q: Callback<T>, eof: bool, a: Callback<T>)
    requires !q.EofReceived? && !a.EofReceived?
    ensures var asked := calls + [q];
            var back := asked + (if eof then [EofReceived] else []);
            && WithoutEof(asked) == WithoutEof(calls) + [q] == WithoutEof(back)
            && WithoutEof(back + [a]) == WithoutEof(calls) + [q, a]
            && (q.GetBuffer? && a.Supplied? ==> Timed(back, |back|, a))
            && ((q.DataReceived? || q.BufferUpdated?) && a.Returned? ==> Timed(back, |back|, a))
  {
    var asked := calls + [q];
    var back := asked + (if eof then [EofReceived] else []);
    assert asked[..|calls|] == calls && (back + [a])[..|back|] == back;
    if eof {
      assert back[..|asked|] == asked;
    } else {
      assert back == asked;
    }
    assert (WithoutEof(calls) + [q]) + [a] == WithoutEof(calls) + [q, a];
  }

  /** A complete loop: it ends exactly with the first round that does not go on. */
  ghost predicate Complete(rounds: seq<Round>, buffered: bool) {
    Chain(rounds, buffered) && rounds != [] && !GoesOn(rounds[|rounds| - 1])
  }

  /** There is a next round exactly when the last one goes on; that the application has closed or aborted the
      connection in the meantime makes no difference. */
  lemma NextRound(rounds: seq<Round>, buffered: bool, k: nat)
    requires Complete(rounds, buffered) && k < |rounds|
    ensures k + 1 < |rounds| <==> GoesOn(rounds[k])
  {
    if k + 1 < |rounds| {
      assert Follows(rounds[k + 1 - 1], rounds[k + 1]);
    }
  }

  /** The round in which the application closes the connection. */
  predicate ClosedIn(r: Round) {
    !r.entry.closing && r.left.closing
  }

  /** The exact condition: a round finds the connection closed when it starts if and only if it has been closed before
      the loop, or during an earlier round of it. */
  lemma {:induction false} EntersClosing(rounds: seq<Round>, buffered: bool, k: nat)
    requires Chain(rounds, buffered) && k < |rounds|
    ensures rounds[k].entry.closing <==> rounds[0].entry.closing || exists j :: 0 <= j < k && ClosedIn(rounds[j])
    decreases k
  {
    if k > 0 {
      EntersClosing(rounds, buffered, k - 1);
      assert Follows(rounds[k - 1], rounds[k]) && Fits(rounds[k - 1], buffered);
      if rounds[k].entry.closing && !rounds[k - 1].entry.closing {
        assert ClosedIn(rounds[k - 1]);
      }
      if j :| 0 <= j < k && ClosedIn(rounds[j]) {
        assert j == k - 1 || rounds[k - 1].entry.closing;
      }
    }
  }

  /** The get_buffer() that makes room for a chunk closes the connection. */
  predicate ClosedByGetBuffer(r: Round) {
    !r.entry.closing && r.mid.closing
  }

  /** Seen from the callbacks: a chunk reaches a closing protocol exactly when the connection was closed before the
      loop, during an earlier round of it, or from within the get_buffer() that has made room for the chunk. With
      data_received() the last case does not exist. */
  lemma ChunkReachesClosing(rounds: seq<Round>, buffered: bool, k: nat)
    requires Chain(rounds, buffered) && k < |rounds| && rounds[k].chunk != []
    ensures var r := rounds[k];
            var c := if buffered then BufferUpdated(r.chunk, r.mid) else DataReceived(r.chunk, r.mid);
            && c in Dialogue(rounds, buffered)
            && (c.gate.closing <==> || rounds[0].entry.closing
                                    || (exists j :: 0 <= j < k && ClosedIn(rounds[j]))
                                    || (buffered && ClosedByGetBuffer(rounds[k])))
  {
    EntersClosing(rounds, buffered, k);
    assert Fits(rounds[k], buffered);
    InDialogue(rounds, buffered, k);
  }

  lemma {:induction false} InDialogue(rounds: seq<Round>, buffered: bool, k: nat)
    requires k < |rounds|
    ensures forall c :: c in Trace(rounds[k], buffered) ==> c in Dialogue(rounds, buffered)
  {
    if k < |rounds| - 1 {
      InDialogue(rounds[..|rounds| - 1], buffered, k);
    }
  }

  /** What happens after the round in which the application closes the connection: the loop ends at once exactly when
      the round would have ended it anyway, and whatever follows is said to a closed protocol. */
  lemma {:induction false} AfterClosing(rounds: seq<Round>, buffered: bool, j: nat, k: nat)
    requires Complete(rounds, buffered) && j < k < |rounds| && ClosedIn(rounds[j])
    ensures GoesOn(rounds[j]) && rounds[k].entry.closing && rounds[k].mid.closing && rounds[k].left.closing
    decreases k
  {
    NextRound(rounds, buffered, j);
    if j < k - 1 {
      AfterClosing(rounds, buffered, j, k - 1);
    }
    assert Follows(rounds[k - 1], rounds[k]) && Fits(rounds[k], buffered);
  }

  const OPEN := Gate(false, false)
  const CLOSED := Gate(false, true)

  /** One input: abort() in the first data_received() of more than DATA_RECEIVED_MAX_SIZE bytes. */
  lemma AbortInDataReceived(full: seq<byte>, rest: seq<byte>)
    requires |full| == DATA_RECEIVED_MAX_SIZE && 0 < |rest| < DATA_RECEIVED_MAX_SIZE
    ensures var rounds := [
                Round(OPEN, DATA_RECEIVED_MAX_SIZE, OPEN, full, CLOSED, false),
                Round(CLOSED, DATA_RECEIVED_MAX_SIZE, CLOSED, rest, CLOSED, false)
              ];
            && Complete(rounds, false)
            && Dialogue(rounds, false) ==
                 [DataReceived(full, OPEN), Returned(CLOSED), DataReceived(rest, CLOSED), Returned(CLOSED)]
  {
    var a := Round(OPEN, DATA_RECEIVED_MAX_SIZE, OPEN, full, CLOSED, false);
    var b := Round(CLOSED, DATA_RECEIVED_MAX_SIZE, CLOSED, rest, CLOSED, false);
    TwoRounds(a, b, false);
  }

  /** Another: abort() in buffer_updated() while more than one buffer's worth of plaintext is pending. */
  lemma AbortInBufferUpdated(size: nat, full: seq<byte>, rest: seq<byte>)
    requires |full| == size > 0 && 0 < |rest| < size
    ensures var rounds := [
                Round(OPEN, size, OPEN, full, CLOSED, false),
                Round(CLOSED, size, CLOSED, rest, CLOSED, false)
              ];
            && Complete(rounds, true)
            && Dialogue(rounds, true) ==
                 [GetBuffer(OPEN), Supplied(size, OPEN), BufferUpdated(full, OPEN), Returned(CLOSED),
                  GetBuffer(CLOSED), Supplied(size, CLOSED), BufferUpdated(rest, CLOSED), Returned(CLOSED)]
  {
    TwoRounds(Round(OPEN, size, OPEN, full, CLOSED, false), Round(CLOSED, size, CLOSED, rest, CLOSED, false), true);
  }

  lemma TwoRounds(a: Round, b: Round, buffered: bool)
    ensures Dialogue([a, b], buffered) == Trace(a, buffered) + Trace(b, buffered)
  {
    assert [a, b][..1] == [a] && [a][..0] == [];
    assert Dialogue([a], buffered) == Dialogue([], buffered) + Trace(a, buffered);
  }
}
