/** The requests of transport.pyx that wait in a write queue, and the bytes they stand for. */
module Requests {
  import opened Prelude
  import opened Buffers

  /** One byte of an outgoing stream: from memory, or whatever the file holds at that offset when it is sent. */
  datatype Octet = Mem(b: byte) | FromFile(file: nat, offset: nat)

  /** How a byte left the queue: on the wire, or because the file turned out to end before it. */
  datatype Fate = OnWire(octet: Octet) | PastEof(octet: Octet)

  datatype Request =
    | WriteRequest(data: Buffer, ptr: nat, size: nat)
    | SendFileRequest(file: nat, offset: nat, count: nat, waiter: nat)
  {
    ghost predicate Valid() {
      match this
      case WriteRequest(data, ptr, size) => data.Valid() && data.Frozen() && ptr + size <= |data.Fixed()|
      case SendFileRequest(_, _, _, _) => true
    }

    /** The unsent bytes. */
    function Denotes(): (s: seq<Octet>)
      requires Valid()
      ensures |s| == Size()
    {
      match this
      case WriteRequest(data, ptr, size) => InMemory(data.Fixed()[ptr..ptr + size])
      case SendFileRequest(file, offset, count, _) => InFile(file, offset, count)
    }

    function Size(): nat {
      match this
      case WriteRequest(_, _, size) => size
      case SendFileRequest(_, _, count, _) => count
    }
  }

  function InMemory(data: seq<byte>): (s: seq<Octet>)
    ensures |s| == |data|
  {
    seq(|data|, i requires 0 <= i < |data| => Mem(data[i]))
  }

  function InFile(file: nat, offset: nat, count: nat): (s: seq<Octet>)
    ensures |s| == count
  {
    seq(count, i requires 0 <= i < count => FromFile(file, offset + i))
  }

  /** make_sendfile_request: the part of the range that the file has at this moment; a file size below zero stands
      for something that is not a regular file. */
  function AvailableRange(fileSize: int, offset: int, count: Option<int>): (r: Option<nat>)
    ensures r.None? <==> offset < 0 || (count.Some? && count.value <= 0) || fileSize < 0
    ensures r.Some? && r.value > 0 ==> offset + r.value <= fileSize
    ensures r.Some? && count.Some? ==> r.value <= count.value
    ensures r.Some? && (count.None? || r.value < count.value) ==> offset + r.value >= fileSize
  {
    if offset < 0 || (count.Some? && count.value <= 0) || fileSize < 0 then
      None
    else
      var available := Max(0, fileSize - offset);
      Some(if count.Some? then Min(count.value, available) else available)
  }

  // ------------------------------------------------------------------ queues

  ghost predicate ValidQueue(q: seq<Request>) {
    forall i :: 0 <= i < |q| ==> q[i].Valid() && q[i].Size() > 0
  }

  /** All bytes that wait in a queue. */
  ghost function Queued(q: seq<Request>): (s: seq<Octet>)
    requires ValidQueue(q)
    ensures |s| >= |q|
  {
    if q == [] then [] else q[0].Denotes() + Queued(q[1..])
  }

  lemma {:induction false} QueuedConcat(a: seq<Request>, b: seq<Request>)
    requires ValidQueue(a) && ValidQueue(b) && ValidQueue(a + b)
    ensures Queued(a + b) == Queued(a) + Queued(b)
  {
    hide Request.Denotes, Request.Valid;
    if a == [] {
      assert a + b == b;
    } else {
      assert (a + b)[1..] == a[1..] + b;
      QueuedConcat(a[1..], b);
    }
  }

  lemma QueuedSnoc(q: seq<Request>, r: Request)
    requires ValidQueue(q) && r.Valid() && r.Size() > 0
    ensures ValidQueue(q + [r]) && Queued(q + [r]) == Queued(q) + r.Denotes()
  {
    hide Request.Denotes, Request.Valid;
    QueuedConcat(q, [r]);
    assert Queued([r]) == r.Denotes() + Queued([r][1..]);
  }

  /** The futures of the sendfile requests in a queue, front to back. */
  ghost function Waiters(q: seq<Request>): seq<nat> {
    if q == [] then []
    else (if q[0].SendFileRequest? then [q[0].waiter] else []) + Waiters(q[1..])
  }

  lemma {:induction false} WaitersSnoc(q: seq<Request>, r: Request)
    ensures Waiters(q + [r]) == Waiters(q) + if r.SendFileRequest? then [r.waiter] else []
  {
    if q == [] {
      assert q + [r] == [r];
    } else {
      WaitersSnoc(q[1..], r);
      assert (q + [r])[1..] == q[1..] + [r];
    }
  }

  ghost function Range(lo: nat, hi: nat): (s: seq<nat>)
    requires lo <= hi
    ensures |s| == hi - lo
  {
    seq(hi - lo, i requires 0 <= i < hi - lo => lo + i)
  }

  /** `ends` tells for every waiting file transfer where in a stream of `total` bytes its range ends. */
  ghost predicate EndsAt(q: seq<Request>, total: nat, ends: seq<nat>)
    requires ValidQueue(q)
  {
    q != [] ==>
      && (q[0].SendFileRequest? ==> q[0].waiter < |ends| && ends[q[0].waiter] == total - |Queued(q[1..])|)
      && EndsAt(q[1..], total, ends)
  }

  lemma {:induction false} EndsAtSnoc(q: seq<Request>, r: Request, total: nat, ends: seq<nat>, ends': seq<nat>)
    requires ValidQueue(q) && r.Valid() && r.Size() > 0 && EndsAt(q, total, ends)
    requires ends <= ends'
    requires r.SendFileRequest? ==> r.waiter < |ends'| && ends'[r.waiter] == total + r.Size()
    ensures ValidQueue(q + [r]) && EndsAt(q + [r], total + r.Size(), ends')
  {
    hide Request.Denotes, Request.Valid, EndsAt, Queued;
    NoEnds(total + r.Size(), ends');
    var all := q + [r];
    if q == [] {
      assert all == [r] && [r][1..] == [];
    } else {
      EndsAtStep(q, total, ends);
      EndsAtSnoc(q[1..], r, total, ends, ends');
      QueuedSnoc(q[1..], r);
      assert all[0] == q[0] && all[1..] == q[1..] + [r];
    }
    EndsAtStep(all, total + r.Size(), ends');
  }

  lemma NoEnds(total: nat, ends: seq<nat>)
    ensures EndsAt([], total, ends) && Queued([]) == []
  {
  }

  lemma EndsAtStep(q: seq<Request>, total: nat, ends: seq<nat>)
    requires ValidQueue(q) && q != []
    ensures EndsAt(q, total, ends) <==>
              && (q[0].SendFileRequest? ==> q[0].waiter < |ends| && ends[q[0].waiter] == total - |Queued(q[1..])|)
              && EndsAt(q[1..], total, ends)
  {
    hide Request.Denotes, Request.Valid;
  }

  // ------------------------------------------------------------------ fates

  ghost function Octets(fates: seq<Fate>): (s: seq<Octet>)
    ensures |s| == |fates|
  {
    seq(|fates|, i requires 0 <= i < |fates| => fates[i].octet)
  }

  /** The bytes that really went out. */
  ghost function Transmitted(fates: seq<Fate>): seq<Octet> {
    if fates == [] then []
    else Transmitted(fates[..|fates| - 1]) + match fates[|fates| - 1] case OnWire(o) => [o] case PastEof(_) => []
  }

  ghost function AllOnWire(s: seq<Octet>): (fates: seq<Fate>)
    ensures |fates| == |s|
  {
    seq(|s|, i requires 0 <= i < |s| => OnWire(s[i]))
  }

  ghost function AllPastEof(s: seq<Octet>): (fates: seq<Fate>)
    ensures |fates| == |s|
  {
    seq(|s|, i requires 0 <= i < |s| => PastEof(s[i]))
  }

  lemma FatesSnoc(fates: seq<Fate>, f: Fate)
    ensures Transmitted(fates + [f]) == Transmitted(fates) + if f.OnWire? then [f.octet] else []
    ensures Octets(fates + [f]) == Octets(fates) + [f.octet]
  {
    assert (fates + [f])[..|fates|] == fates;
  }

  lemma {:induction false} TransmittedOnWire(fates: seq<Fate>, s: seq<Octet>)
    ensures Transmitted(fates + AllOnWire(s)) == Transmitted(fates) + s
    ensures Octets(fates + AllOnWire(s)) == Octets(fates) + s
  {
    hide Transmitted, Octets;
    if s == [] {
      assert fates + AllOnWire(s) == fates;
    } else {
      var front, last := s[..|s| - 1], s[|s| - 1];
      TransmittedOnWire(fates, front);
      FatesSnoc(fates + AllOnWire(front), OnWire(last));
      assert fates + AllOnWire(s) == (fates + AllOnWire(front)) + [OnWire(last)];
      assert s == front + [last];
    }
  }

  lemma {:induction false} TransmittedPastEof(fates: seq<Fate>, s: seq<Octet>)
    ensures Transmitted(fates + AllPastEof(s)) == Transmitted(fates)
    ensures Octets(fates + AllPastEof(s)) == Octets(fates) + s
  {
    hide Transmitted, Octets;
    if s == [] {
      assert fates + AllPastEof(s) == fates;
    } else {
      var front, last := s[..|s| - 1], s[|s| - 1];
      TransmittedPastEof(fates, front);
      FatesSnoc(fates + AllPastEof(front), PastEof(last));
      assert fates + AllPastEof(s) == (fates + AllPastEof(front)) + [PastEof(last)];
      assert s == front + [last];
    }
  }

  /** When no file ended early, everything that left the queue is on the wire. */
  lemma {:induction false} TransmittedIsAll(fates: seq<Fate>)
    requires forall i :: 0 <= i < |fates| ==> fates[i].OnWire?
    ensures Transmitted(fates) == Octets(fates)
  {
    if fates != [] {
      TransmittedIsAll(fates[..|fates| - 1]);
    }
  }
}
