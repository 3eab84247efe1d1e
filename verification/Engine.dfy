/** SSLEngineDirect in memory-BIO mode: the accounting loops of ssl_engine_direct.pyx over an adversarial OpenSSL. */
module Engine {
  import opened Prelude
  import opened StaticMemBio

  datatype SslError = NONE | SSL | WANT_READ | WANT_WRITE | SYSCALL | ZERO_RETURN

  const INT_MAX := 0x7fff_ffff

  /** The conversion of a Py_ssize_t argument to the C int that SSL_write declares. */
  function ToInt32(n: nat): (r: int)
    ensures -0x8000_0000 <= r <= INT_MAX && r <= n
    ensures n <= INT_MAX ==> r == n
  {
    var m := n % 0x1_0000_0000;
    if m <= INT_MAX then m else m - 0x1_0000_0000
  }

  /** Either the SSL_get_error code of an operation, or the exception the engine raised instead. */
  datatype Verdict = Answer(code: SslError) | Raised(exn: Exn)

  /** The receiving half of a connection, and its handshake. */
  class Inbox {
    // Plaintext that SSL_read can still return from what has been received so far.
    var inbound: seq<byte>
    // Plaintext in everything that has been received, and the part of it that read calls have returned.
    ghost var arrived: seq<byte>
    ghost var taken: seq<byte>
    // What the read calls have answered.
    ghost var readings: seq<Verdict>
    // What the handshake calls have answered.
    ghost var handshakes: seq<Verdict>

    /** Incoming plaintext is read exactly once and in order. */
    ghost predicate Valid()
      reads this`inbound, this`arrived, this`taken
    {
      taken + inbound == arrived
    }

    constructor ()
      ensures Valid() && taken == [] && readings == [] && handshakes == []
    {
      inbound, arrived, taken, readings, handshakes := [], [], [], [], [];
    }
  }

  class SslEngine {
    // The outgoing memory BIO: OpenSSL writes ciphertext into it, the transport takes it out.
    const outgoing: Bio
    const inbox: Inbox

    // Plaintext that SSL_write calls have reported as written, in order.
    ghost var plain: seq<byte>
    // The bytes of an SSL_write that could not complete: OpenSSL demands that the next SSL_write repeats them.
    ghost var unfinished: Option<seq<byte>>
    // The latest answers, and how often write has been called.
    ghost var lastShutdown: Verdict
    ghost var lastWrite: Verdict
    ghost var writes: nat
    // How often OpenSSL may yet ask for output space although the outgoing BIO was empty when it was called.
    var stalls: nat
    // Number of SSL_shutdown calls.
    ghost var shutdowns: nat
    // A rehearsed OpenSSL has its handshake wait for the peer, and complete as soon as records have arrived; before that
    // a write produces a record and is refused for want of output space.
    const rehearsed: bool
    var heard: bool

    ghost predicate Valid()
      reads outgoing, outgoing.buf
    {
      outgoing.Valid()
    }

    constructor (bio: Bio, stalls: nat, rehearsed: bool)
      requires bio.Valid()
      ensures Valid() && inbox.Valid() && outgoing == bio && fresh(inbox)
      ensures inbox.taken == [] && lastWrite == Answer(NONE)
      ensures plain == [] && unfinished == None && shutdowns == 0
      ensures this.rehearsed == rehearsed && this.stalls == stalls && !heard
    {
      outgoing, this.rehearsed, heard := bio, rehearsed, false;
      plain, unfinished, shutdowns := [], None, 0;
      lastShutdown, lastWrite, writes, this.stalls := Answer(NONE), Answer(NONE), 0, stalls;
      inbox := new Inbox();
    }

    /** OpenSSL appends ciphertext to the outgoing BIO, as much as it likes and as fits. */
    method Emit()
      requires Valid()
      modifies outgoing, outgoing.buf
      ensures Valid()
      ensures outgoing.got == old(outgoing.got) && old(outgoing.put) <= outgoing.put
    {
      var rounds: nat := *;
      while rounds > 0
        invariant Valid()
        invariant outgoing.got == old(outgoing.got) && old(outgoing.put) <= outgoing.put
      {
        var record: seq<byte> := *;
        var _ := outgoing.Write(record);
        rounds := rounds - 1;
      }
    }

    /** The failure code of an OpenSSL call that produced nothing. */
    method Complain(wasEmpty: bool) returns (err: SslError)
      modifies this`stalls
      ensures err != NONE
      ensures err == WANT_WRITE && wasEmpty ==> stalls < old(stalls)
    {
      err :| err != NONE;
      if err == WANT_WRITE && wasEmpty {
        if stalls == 0 {
          err := SSL;
        } else {
          stalls := stalls - 1;
        }
      } else {
        stalls := *;
      }
    }

    /** SSL_write(ssl, data, num). A failed call must be repeated with the same bytes. */
    method SslWrite(data: seq<byte>, num: int) returns (rc: int, err: SslError)
      requires Valid() && num <= |data|
      requires unfinished.Some? ==> unfinished.value <= data
      modifies this`plain, this`unfinished, this`stalls, outgoing, outgoing.buf
      ensures Valid() && outgoing.got == old(outgoing.got) && old(outgoing.put) <= outgoing.put
      ensures rc > 0 ==> rc <= num && plain == old(plain) + data[..rc] && unfinished == None
      ensures rc <= 0 ==> err != NONE && plain == old(plain)
      ensures rc <= 0 ==> unfinished == if num > 0 then Some(data[..num]) else old(unfinished)
      ensures rc <= 0 && err == WANT_WRITE && old(outgoing.IsEmpty()) ==> stalls < old(stalls)
      ensures rehearsed && !heard && old(stalls) > 0 ==> rc <= 0 && err == WANT_WRITE && !outgoing.IsEmpty()
    {
      var wasEmpty := outgoing.IsEmpty();
      if rehearsed && !heard && stalls > 0 {
        var _ := outgoing.Write([0]);
        stalls, rc, err := stalls - 1, -1, WANT_WRITE;
        unfinished := if num > 0 then Some(data[..num]) else unfinished;
        return;
      }
      Emit();
      rc := *;
      if 0 < rc <= num {
        plain, unfinished := plain + data[..rc], None;
        return rc, NONE;
      }
      rc := -1;
      err := Complain(wasEmpty);
      if num > 0 {
        unfinished := Some(data[..num]);
      }
    }

    /** write: SSL_write until everything is taken or OpenSSL asks the caller to wait. */
    method Write(data: seq<byte>) returns (v: Verdict, written: nat)
      requires Valid()
      requires unfinished.Some? ==> unfinished.value <= data
      modifies this`plain, this`unfinished, this`stalls, this`lastWrite, this`writes, outgoing, outgoing.buf
      ensures Valid() && outgoing.got == old(outgoing.got) && old(outgoing.put) <= outgoing.put
      ensures lastWrite == v && writes == old(writes) + 1
      ensures written <= |data| && plain == old(plain) + data[..written]
      ensures v.Answer? ==> v.code in {NONE, WANT_READ, WANT_WRITE}
      ensures v == Answer(NONE) <==> written == |data|
      ensures v == Answer(NONE) && data != [] ==> unfinished == None
      ensures v.Answer? && unfinished.Some? ==> unfinished.value <= data[written..]
      ensures v == Answer(WANT_WRITE) && written == 0 && old(outgoing.IsEmpty()) ==> stalls < old(stalls)
      ensures rehearsed && !heard && old(stalls) > 0 && data != [] ==>
                v == Answer(WANT_WRITE) && written == 0 && !outgoing.IsEmpty()
    {
      written, v := 0, Answer(NONE);
      while written < |data|
        invariant v == Answer(NONE) && writes == old(writes)
        invariant Valid() && outgoing.got == old(outgoing.got) && old(outgoing.put) <= outgoing.put
        invariant written <= |data| && plain == old(plain) + data[..written]
        invariant unfinished.Some? ==> unfinished.value <= data[written..]
        invariant written == 0 ==> stalls == old(stalls) && outgoing.IsEmpty() == old(outgoing.IsEmpty())
        invariant written > 0 ==> unfinished == None
        invariant rehearsed && !heard && old(stalls) > 0 ==> written == 0
      {
        var rc, err := SslWrite(data[written..], ToInt32(|data| - written));
        if rc > 0 {
          PrefixGrows(old(plain), data, written, rc);
          written := written + rc;
          continue;
        }
        v := if err == SSL then Raised(SslErr)
             else if err == SYSCALL || err == ZERO_RETURN then Raised(ConnectionReset)
             else Answer(err);
        break;
      }
      lastWrite, writes := v, writes + 1;
    }

    /** SSL_read(ssl, buf, num): processes received records. It produces no output, so it can only be
        waiting for output space when earlier ciphertext is still in the outgoing BIO. */
    method SslRead(num: nat) returns (rc: int, data: seq<byte>, err: SslError)
      requires Valid()
      modifies inbox`inbound
      ensures rc > 0 ==> rc == |data| <= num && old(inbox.inbound) == data + inbox.inbound
      ensures rc <= 0 ==> data == [] && inbox.inbound == old(inbox.inbound) && err != NONE
      ensures rc <= 0 && err == WANT_WRITE ==> !outgoing.IsEmpty()
    {
      rc, data := *, [];
      if 0 < rc <= num && rc <= |inbox.inbound| {
        data, inbox.inbound := inbox.inbound[..rc], inbox.inbound[rc..];
        return rc, data, NONE;
      }
      rc := 0;
      err :| err != NONE;
      if err == WANT_WRITE && outgoing.IsEmpty() {
        err := WANT_READ;
      }
    }

    /** read: SSL_read until the buffer is full or OpenSSL has nothing more. */
    method Read(size: nat) returns (v: Verdict, data: seq<byte>)
      requires Valid()
      modifies inbox`inbound, inbox`taken, inbox`readings
      ensures |data| <= size && old(inbox.inbound) == data + inbox.inbound
      ensures inbox.taken == old(inbox.taken) + data && inbox.readings == old(inbox.readings) + [v]
      ensures old(inbox.Valid()) ==> inbox.Valid()
      ensures v.Answer? ==> v.code in {NONE, WANT_READ, WANT_WRITE, ZERO_RETURN}
      ensures v == Answer(NONE) <==> |data| == size
      ensures v == Answer(WANT_WRITE) ==> !outgoing.IsEmpty()
    {
      data, v := [], Answer(NONE);
      var left: nat := size;
      while left != 0
        invariant v == Answer(NONE) && inbox.taken == old(inbox.taken) && inbox.readings == old(inbox.readings)
        invariant |data| + left == size && old(inbox.inbound) == data + inbox.inbound
        decreases left
      {
        var num: nat := if left > INT_MAX then INT_MAX else left;
        var rc, chunk, err := SslRead(num);
        if rc > 0 {
          data, left := data + chunk, left - rc;
          continue;
        }
        v := if err == WANT_READ || err == WANT_WRITE || err == ZERO_RETURN then Answer(err)
             else if err == SYSCALL then Raised(ConnectionReset)
             else Raised(SslErr);
        break;
      }
      inbox.taken, inbox.readings := inbox.taken + data, inbox.readings + [v];
      assert old(inbox.taken) + old(inbox.inbound) == old(inbox.taken) + data + inbox.inbound;
    }

    /** do_handshake, around SSL_do_handshake. */
    method DoHandshake() returns (v: Verdict)
      requires Valid()
      modifies this`stalls, inbox`handshakes, outgoing, outgoing.buf
      ensures Valid() && outgoing.got == old(outgoing.got) && old(outgoing.put) <= outgoing.put
      ensures inbox.handshakes == old(inbox.handshakes) + [v]
      ensures v.Answer? ==> v.code in {NONE, WANT_READ, WANT_WRITE}
      ensures v == Answer(WANT_WRITE) && old(outgoing.IsEmpty()) ==> stalls < old(stalls)
      ensures rehearsed ==> v == Answer(if heard then NONE else WANT_READ) && unchanged(outgoing, this`stalls)
    {
      var wasEmpty := outgoing.IsEmpty();
      if !rehearsed {
        Emit();
      }
      if rehearsed {
        v := Answer(if heard then NONE else WANT_READ);
      } else if * {
        v := Answer(NONE);
      } else {
        var err := Complain(wasEmpty);
        v := if err == WANT_READ || err == WANT_WRITE then Answer(err) else Raised(SslErr);
      }
      inbox.handshakes := inbox.handshakes + [v];
    }

    /** shutdown, around SSL_shutdown; a sent but unanswered close_notify reads as WANT_READ. */
    method Shutdown() returns (v: Verdict)
      requires Valid()
      modifies this`stalls, this`shutdowns, this`lastShutdown, outgoing, outgoing.buf
      ensures Valid() && outgoing.got == old(outgoing.got) && old(outgoing.put) <= outgoing.put
      ensures shutdowns == old(shutdowns) + 1 && lastShutdown == v
      ensures v.Answer? ==> v.code in {NONE, WANT_READ, WANT_WRITE}
      ensures v == Answer(WANT_WRITE) && old(outgoing.IsEmpty()) ==> stalls < old(stalls)
    {
      shutdowns := shutdowns + 1;
      var wasEmpty := outgoing.IsEmpty();
      Emit();
      if {
        case true => v := Answer(NONE);
        case true => v := Answer(WANT_READ);
        case true =>
          var err := Complain(wasEmpty);
          v := if err == WANT_READ || err == WANT_WRITE then Answer(err) else Raised(SslErr);
      }
      lastShutdown := v;
    }

    /** outgoing_bio_pending. */
    function OutgoingPending(): (n: nat)
      requires outgoing.Valid()
      reads outgoing, outgoing.buf
      ensures n == 0 <==> outgoing.IsEmpty()
    {
      outgoing.wptr - outgoing.rptr
    }

    /** incoming_bio_produce: more records have arrived, so more plaintext can be read. */
    method Produce(decrypted: seq<byte>)
      modifies inbox`inbound, inbox`arrived, this`heard
      ensures inbox.inbound == old(inbox.inbound) + decrypted && inbox.arrived == old(inbox.arrived) + decrypted
      ensures old(inbox.Valid()) ==> inbox.Valid()
      ensures heard
    {
      heard := true;
      inbox.inbound, inbox.arrived := inbox.inbound + decrypted, inbox.arrived + decrypted;
      assert inbox.taken + inbox.inbound == (inbox.taken + old(inbox.inbound)) + decrypted;
    }
  }
}
