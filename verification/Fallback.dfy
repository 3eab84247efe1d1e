/** SSLEngineFallback of ssl_engine_fallback.pyx, and the write path of a TLS layer that drains into another
    transport. */
module Fallback {
  import opened Prelude
  import opened Engine

  // The largest payload of one TLS record.
  const RECORD: nat := 16384

  function Records(n: nat): (r: nat)
    ensures n <= r * RECORD && (r > 0 ==> (r - 1) * RECORD < n)
    ensures r == 0 <==> n == 0
  {
    (n + RECORD - 1) / RECORD
  }

  /** What one call of write may hand to the SSLObject: the room below the hint, rounded up to whole records. */
  function Budget(hint: nat, pending: nat): (b: nat)
    ensures b == 0 <==> pending >= hint
    ensures pending < hint ==> hint - pending <= b < hint - pending + RECORD && b % RECORD == 0
  {
    Records(Max(hint - pending, 0)) * RECORD
  }

  /** The most that can ever wait in the outgoing BIO when every record costs up to `overhead` bytes more than it
      holds. */
  function Bound(hint: nat, overhead: nat): nat {
    hint + RECORD - 1 + overhead * Records(hint)
  }

  lemma RecordsMonotone(a: nat, b: nat)
    requires a <= b
    ensures Records(a) <= Records(b)
  {
  }

  lemma RecordsOfBudget(hint: nat, pending: nat)
    ensures Records(Budget(hint, pending)) == Records(Max(hint - pending, 0))
  {
    var r := Records(Max(hint - pending, 0));
    assert (r * RECORD + (RECORD - 1)) / RECORD == r;
  }

  /** One write on a BIO that is below the hint stays below the bound, whatever was pending before. */
  lemma WriteStaysBelow(hint: nat, overhead: nat, pending: nat, n: nat)
    requires pending < hint && n <= Budget(hint, pending)
    ensures pending + n + overhead * Records(n) <= Bound(hint, overhead)
  {
    RecordsMonotone(n, Budget(hint, pending));
    RecordsOfBudget(hint, pending);
    RecordsMonotone(hint - pending, hint);
    Times(overhead, Records(n), Records(hint));
  }

  lemma Times(v: nat, a: nat, b: nat)
    requires a <= b
    ensures v * a <= v * b
  {
  }

  /** What a method of ssl.SSLObject does: it returns a byte count, or raises an exception that _translate_ssl_error
      turns into a code or passes on. */
  datatype Outcome = Done(n: nat) | Refused(code: SslError) | Failed(exn: Exn)

  class FallbackEngine {
    const hint: nat
    const overhead: nat
    // ssl.MemoryBIO: an unbounded queue.
    var outgoing: seq<byte>
    // Received ciphertext is only known by the plaintext in it: already decrypted, or still in the incoming BIO.
    var decrypted: seq<byte>
    var incoming: seq<byte>
    // How often the SSLObject may yet raise SSLWantWriteError although its BIO can always grow.
    var stalls: nat

    // How much the latest SSLObject.write was offered.
    ghost var offered: nat
    ghost var plain: seq<byte>
    ghost var emitted: seq<byte>
    ghost var drained: seq<byte>

    ghost predicate Valid()
      reads this
    {
      && drained + outgoing == emitted
      && |outgoing| <= Bound(hint, overhead)
    }

    constructor (hint: nat, overhead: nat)
      ensures Valid() && this.hint == hint && this.overhead == overhead
      ensures plain == emitted == drained == []
    {
      this.hint, this.overhead := hint, overhead;
      outgoing, decrypted, incoming, stalls := [], [], [], *;
      offered, plain, emitted, drained := 0, [], [], [];
    }

    /** SSLObject.write of application data: encrypts into the outgoing BIO, at most `overhead` bytes on top of every
        record. */
    method SslObjectWrite(data: seq<byte>) returns (r: Outcome)
      requires data != []
      modifies this`outgoing, this`offered, this`plain, this`emitted, this`stalls
      ensures offered == |data|
      ensures r.Done? ==> 0 < r.n <= |data| && plain == old(plain) + data[..r.n]
      ensures !r.Done? ==> plain == old(plain) && outgoing == old(outgoing) && emitted == old(emitted)
      ensures r.Refused? ==> r.code in {WANT_READ, WANT_WRITE, ZERO_RETURN}
      ensures old(outgoing) <= outgoing && emitted == old(emitted) + outgoing[|old(outgoing)|..]
      ensures r.Done? ==> |outgoing| <= |old(outgoing)| + r.n + overhead * Records(r.n)
      ensures if r == Refused(WANT_WRITE) then stalls < old(stalls) else stalls == old(stalls)
    {
      offered := |data|;
      if {
        case stalls > 0 =>
          stalls := stalls - 1;
          r := Refused(WANT_WRITE);
        case true => r := Refused(WANT_READ);
        case true => r := Refused(ZERO_RETURN);
        case true => r := Failed(SslErr);
        case true => r := Failed(ConnectionReset);
        case true =>
          var n: nat :| 0 < n <= |data|;
          var cipher: seq<byte> := *;
          if |cipher| > n + overhead * Records(n) {
            cipher := [];
          }
          outgoing, plain, emitted := outgoing + cipher, plain + data[..n], emitted + cipher;
          r := Done(n);
      }
    }

    /** write: at most one SSLObject.write, cut to the budget. */
    method Write(data: seq<byte>) returns (v: Verdict, written: nat)
      requires Valid()
      modifies this`outgoing, this`offered, this`plain, this`emitted, this`stalls
      ensures Valid()
      ensures written <= |data| && written <= Budget(hint, |old(outgoing)|)
      ensures plain == old(plain) + data[..written]
      ensures v.Answer? ==> v.code in {NONE, WANT_READ, WANT_WRITE}
      ensures v == Answer(NONE) <==> written == |data|
      ensures v != Answer(NONE) && v != Answer(WANT_WRITE) ==> written == 0
      // whole records are offered, as far as there is data for them
      ensures data != [] && |old(outgoing)| < hint ==> offered == Min(|data|, Budget(hint, |old(outgoing)|))
      // with room below the hint, a refusal to write anything costs a stall
      ensures v == Answer(WANT_WRITE) && |old(outgoing)| < hint && written == 0 ==> stalls < old(stalls)
      ensures stalls <= old(stalls)
    {
      hide Records, Bound;
      if |data| == 0 {
        return Answer(NONE), 0;
      }
      var available: nat := Max(hint - |outgoing|, 0);
      if available == 0 {
        return Answer(WANT_WRITE), 0;
      }
      available := Records(available) * RECORD;
      var toWrite := Min(|data|, available);
      var r := SslObjectWrite(data[..toWrite]);
      match r
      case Failed(exn) => return Raised(exn), 0;
      case Refused(code) =>
        return if code == WANT_READ || code == WANT_WRITE then Answer(code) else Raised(SslErr), 0;
      case Done(n) =>
        WriteStaysBelow(hint, overhead, |old(outgoing)|, n);
        assert data[..toWrite][..n] == data[..n];
        assert outgoing == old(outgoing) + outgoing[|old(outgoing)|..];
        return Answer(if n < |data| then WANT_WRITE else NONE), n;
    }

    /** outgoing_bio_read: everything that is pending. */
    method OutgoingBioRead() returns (data: seq<byte>)
      requires Valid()
      modifies this`outgoing, this`drained
      ensures Valid() && outgoing == [] && data == old(outgoing) && drained == old(drained) + data
    {
      data := outgoing;
      outgoing, drained := [], drained + outgoing;
    }

    /** SSLObject.read(0, buffer): at most one record, taken from what has been or can now be decrypted. */
    method SslObjectRead(size: nat) returns (r: Outcome, data: seq<byte>)
      requires size > 0
      modifies this`decrypted, this`incoming
      ensures r.Done? ==> r.n == |data| <= Min(size, RECORD)
      ensures !r.Done? ==> data == []
      ensures r.Refused? ==> r.code in {WANT_READ, WANT_WRITE, ZERO_RETURN}
      ensures old(decrypted + incoming) == data + decrypted + incoming
    {
      data := [];
      ghost var all := decrypted + incoming;
      var record: nat :| record <= |incoming|;
      assert incoming == incoming[..record] + incoming[record..];
      decrypted, incoming := decrypted + incoming[..record], incoming[record..];
      assert decrypted + incoming == all;
      if {
        case true =>
          var code: SslError :| code in {WANT_READ, WANT_WRITE, ZERO_RETURN};
          r := Refused(code);
        case true => r := Failed(SslErr);
        case true => r := Failed(ConnectionReset);
        case true =>
          var n: nat :| n <= size && n <= RECORD && n <= |decrypted|;
          data, decrypted := decrypted[..n], decrypted[n..];
          assert all == data + decrypted + incoming;
          r := Done(n);
      }
    }

    /** read: fills the buffer record by record; an empty read means that the peer has said goodbye. */
    method Read(size: nat) returns (v: Verdict, data: seq<byte>)
      modifies this`decrypted, this`incoming
      ensures |data| <= size && old(decrypted + incoming) == data + decrypted + incoming
      ensures v == Answer(NONE) <==> |data| == size
      ensures v.Answer? ==> v.code in {NONE, WANT_READ, WANT_WRITE, ZERO_RETURN}
      ensures old(decrypted + incoming) == [] && size > 0 ==> v == Answer(WANT_READ)
    {
      data := [];
      while |data| < size
        invariant |data| <= size && old(decrypted + incoming) == data + decrypted + incoming
        decreases size - |data|
      {
        if |decrypted| == 0 && |incoming| == 0 {
          return Answer(WANT_READ), data;
        }
        ghost var before := decrypted + incoming;
        var r, chunk := SslObjectRead(size - |data|);
        assert data + before == (data + chunk) + decrypted + incoming;
        match r
        case Refused(code) =>
          assert data + chunk == data;
          return Answer(code), data;
        case Failed(exn) =>
          assert data + chunk == data;
          return Raised(exn), data;
        case Done(n) =>
          data := data + chunk;
          if n == 0 {
            return Answer(ZERO_RETURN), data;
          }
      }
      return Answer(NONE), data;
    }
  }

  /** The side of SSLTransport_Transport that writes: flushing hands everything to the transport below. */
  class TlsLayer {
    const eng: FallbackEngine
    ghost var downstream: seq<byte>

    ghost predicate Valid()
      reads this, eng
    {
      eng.Valid() && eng.hint > 0 && downstream == eng.drained
    }

    constructor (eng: FallbackEngine)
      requires eng.Valid() && eng.hint > 0 && eng.drained == []
      ensures Valid() && this.eng == eng && downstream == []
    {
      this.eng, downstream := eng, [];
    }

    /** _flush_outgoing_bio of SSLTransport_Transport: always ready for more. */
    method FlushOutgoingBio() returns (ok: bool)
      requires Valid()
      modifies this, eng`outgoing, eng`drained
      ensures Valid() && ok && eng.outgoing == [] && downstream == old(downstream) + old(eng.outgoing)
    {
      var data := eng.OutgoingBioRead();
      if data != [] {
        downstream := downstream + data;
      }
      return true;
    }

    /** _write_impl: with a drain that always succeeds only WANT_READ leaves a tail. */
    method WriteImpl(data: seq<byte>) returns (tail: Option<seq<byte>>, err: Option<Exn>)
      requires Valid()
      modifies this, eng`outgoing, eng`drained, eng`offered, eng`plain, eng`emitted, eng`stalls
      ensures Valid() && old(downstream) <= downstream
      ensures old(eng.plain) <= eng.plain <= old(eng.plain) + data
      ensures err.None? ==> eng.plain + (if tail.Some? then tail.value else []) == old(eng.plain) + data
      ensures tail.Some? ==> err.None? && tail.value != []
    {
      var rest := data;
      while true
        invariant Valid() && old(downstream) <= downstream
        invariant old(eng.plain) <= eng.plain && eng.plain + rest == old(eng.plain) + data
        decreases |rest| + eng.stalls, |eng.outgoing|
      {
        ghost var before := eng.plain;
        var v, written := eng.Write(rest);
        assert rest == rest[..written] + rest[written..];
        assert before + rest == (before + rest[..written]) + rest[written..];
        if v.Raised? {
          return None, Some(v.exn);
        }
        if v.code == NONE {
          assert rest[written..] == [];
          return None, None;
        }
        rest := rest[written..];
        if v.code == WANT_WRITE {
          var retry := FlushOutgoingBio();
          if retry {
            continue;
          }
        }
        return Some(rest), None;
      }
    }

    /** Every run of application-data writes and flushes keeps the outgoing BIO below the bound and loses no byte. */
    method Run(steps: nat)
      requires Valid()
      modifies this, eng`outgoing, eng`drained, eng`offered, eng`plain, eng`emitted, eng`stalls
      ensures Valid() && old(downstream) <= downstream && old(eng.plain) <= eng.plain
      ensures |eng.outgoing| <= Bound(eng.hint, eng.overhead)
      ensures downstream + eng.outgoing == eng.emitted
    {
      var left := steps;
      while left > 0
        invariant Valid() && old(downstream) <= downstream && old(eng.plain) <= eng.plain
      {
        left := left - 1;
        var data: seq<byte> := *;
        if {
          case true => var _, _ := WriteImpl(data);
          case true => var _, _ := eng.Write(data);
          case true => var _ := FlushOutgoingBio();
        }
      }
    }
  }
}
