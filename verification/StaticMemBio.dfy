/** static_mem_bio.c: a linear buffer of fixed capacity that behaves as a first-in first-out byte queue. */
module StaticMemBio {
  import opened Prelude

  class Bio {
    // The caller-owned storage [begin, end) and the two cursors into it.
    const buf: array<byte>
    var rptr: nat
    var wptr: nat
    var eofReturn: int
    // BIO_FLAGS_READ / BIO_FLAGS_WRITE together with BIO_FLAGS_SHOULD_RETRY.
    var retryRead: bool
    var retryWrite: bool

    // History: every byte that ever entered the queue, and every byte that left it by read or consume.
    ghost var put: seq<byte>
    ghost var got: seq<byte>

    ghost predicate Valid()
      reads this, buf
    {
      && 0 < buf.Length
      && rptr <= wptr <= buf.Length
      && (rptr == wptr ==> rptr == 0)
      && put == got + Window()
    }

    /** The live bytes, oldest first. */
    ghost function Window(): (w: seq<byte>)
      requires rptr <= wptr <= buf.Length
      reads this, buf
    {
      buf[rptr..wptr]
    }

    predicate IsEmpty()
      reads this`rptr, this`wptr
    {
      rptr == wptr
    }

    constructor (storage: array<byte>)
      requires 0 < storage.Length
      ensures Valid() && buf == storage
      ensures Window() == [] && put == [] && got == []
      ensures eofReturn == 0 && !retryRead && !retryWrite
    {
      buf := storage;
      rptr, wptr, eofReturn := 0, 0, 0;
      retryRead, retryWrite := false, false;
      put, got := [], [];
    }

    /** static_mem_bio_read into `out[..outl]`. */
    method Read(out: array?<byte>, outl: int) returns (rc: int)
      requires Valid()
      requires out != null ==> out != buf && outl <= out.Length
      modifies this, out
      ensures Valid() && eofReturn == old(eofReturn)
      ensures put == old(put)
      ensures out == null || outl <= 0 ==> rc == 0 && unchanged(this)
      ensures out != null && outl > 0 && old(Window()) == [] ==>
                rc == eofReturn && Window() == [] && retryRead && !retryWrite && got == old(got)
      ensures out != null && outl > 0 && old(Window()) != [] ==>
                && rc == Min(|old(Window())|, outl)
                && out[..rc] == old(Window())[..rc]
                && Window() == old(Window())[rc..]
                && got == old(got) + out[..rc]
                && !retryRead && !retryWrite
      ensures out != null && outl > 0 && old(Window()) != [] ==>
                forall i :: rc <= i < out.Length ==> out[i] == old(out[i])
      ensures out != null && (outl <= 0 || old(Window()) == []) ==> out[..] == old(out[..])
    {
      if out == null || outl <= 0 {
        return 0;
      }
      retryRead, retryWrite := false, false;
      var avail := wptr - rptr;
      if avail == 0 {
        retryRead := true;
        return eofReturn;
      }
      var n := Min(avail, outl);
      Load(out, n);
      Advance(n);
      return n;
    }

    /** The read cursor moves on, and an empty buffer starts again at its beginning. */
    method Advance(n: nat)
      requires Valid() && n <= |Window()|
      modifies this`got, this`rptr, this`wptr
      ensures Valid() && Window() == old(Window())[n..] && got == old(got) + old(Window())[..n]
    {
      ghost var was := Window();
      assert was == was[..n] + was[n..];
      Assoc(got, was[..n], was[n..]);
      got := got + was[..n];
      rptr := rptr + n;
      if rptr == wptr {
        rptr, wptr := 0, 0;
      }
    }

    /** The memcpy from the read cursor. */
    method Load(out: array<byte>, n: nat)
      requires out != buf && n <= out.Length && rptr + n <= wptr <= buf.Length
      modifies out
      ensures out[..n] == buf[rptr..wptr][..n]
      ensures forall i :: n <= i < out.Length ==> out[i] == old(out[i])
    {
      forall i | 0 <= i < n {
        out[i] := buf[rptr + i];
      }
    }

    /** static_mem_bio_write: takes the longest prefix that fits behind the write cursor. */
    method Write(data: seq<byte>) returns (rc: int)
      requires Valid()
      modifies this, buf
      ensures Valid() && eofReturn == old(eofReturn)
      ensures got == old(got)
      ensures data == [] ==> rc == 0 && Window() == old(Window())
      ensures data != [] && old(wptr) == buf.Length ==>
                rc == -1 && retryWrite && !retryRead && Window() == old(Window())
      ensures data != [] && old(wptr) < buf.Length ==>
                && rc == Min(buf.Length - old(wptr), |data|) && 0 < rc
                && Window() == old(Window()) + data[..rc]
                && (retryWrite <==> rc < |data|) && !retryRead
      ensures put == old(put) + data[..if rc < 0 then 0 else rc]
    {
      if |data| == 0 {
        return 0;
      }
      retryRead, retryWrite := false, false;
      var space := buf.Length - wptr;
      if space == 0 {
        retryWrite := true;
        return -1;
      }
      var n := Min(space, |data|);
      Store(data[..n]);
      wptr := wptr + n;
      put := put + data[..n];
      if n < |data| {
        retryWrite := true;
      }
      return n;
    }

    /** The memcpy behind the write cursor. */
    method Store(data: seq<byte>)
      requires rptr <= wptr && wptr + |data| <= buf.Length
      modifies buf
      ensures buf[rptr..wptr + |data|] == old(buf[rptr..wptr]) + data
    {
      forall i | 0 <= i < |data| {
        buf[wptr + i] := data[i];
      }
      assert buf[wptr..wptr + |data|] == data;
      assert buf[rptr..wptr] == old(buf[rptr..wptr]);
    }

    /** BIO_CTRL_RESET: forgets the live bytes. They count neither as put nor as got. */
    method Reset()
      requires Valid()
      modifies this
      ensures Valid() && Window() == [] && got == old(got) && put == got
    {
      rptr, wptr := 0, 0;
      put := got;
    }

    /** BIO_CTRL_INFO / BIO_get_mem_data: the live bytes, without removing them. */
    method GetMemData() returns (data: seq<byte>)
      requires Valid()
      ensures data == Window() && (data == [] <==> IsEmpty())
    {
      data := buf[rptr..wptr];
    }

    /** BIO_CTRL_EOF. */
    method Eof() returns (eof: bool)
      requires Valid()
      ensures eof <==> put == got
    {
      eof := wptr == rptr;
      assert |put| == |got| + |Window()|;
    }

    /** BIO_static_mem_get_write_buf: where the next bytes may be stored, compacting only when the end is reached. */
    method GetWriteBuf() returns (at: nat, space: nat)
      requires Valid()
      modifies this, buf
      ensures Valid() && Window() == old(Window()) && put == old(put) && got == old(got)
      ensures at == wptr && space == buf.Length - wptr
      ensures space == 0 <==> |Window()| == buf.Length
      ensures old(rptr) == 0 || old(wptr) < buf.Length ==> unchanged(this, buf)
    {
      if rptr != 0 && wptr == buf.Length {
        ghost var was := Window();
        var avail := wptr - rptr;
        forall i | 0 <= i < avail {
          buf[i] := buf[rptr + i];
        }
        assert buf[..avail] == was;
        rptr := 0;
        wptr := avail;
      }
      at := wptr;
      space := buf.Length - wptr;
    }

    /** BIO_static_mem_produce: publishes bytes the caller has stored at the write cursor. */
    method Produce(nbytes: nat) returns (rc: int)
      requires Valid()
      modifies this
      ensures Valid() && got == old(got)
      ensures rc == 1 <==> nbytes <= buf.Length - old(wptr)
      ensures rc == 1 ==> Window() == old(Window()) + buf[old(wptr)..old(wptr) + nbytes]
                          && put == old(put) + buf[old(wptr)..old(wptr) + nbytes]
      ensures rc != 1 ==> rc == -1 && unchanged(this)
    {
      var space := buf.Length - wptr;
      if nbytes > space {
        return -1;
      }
      ghost var stored := buf[wptr..wptr + nbytes];
      assert buf[rptr..wptr + nbytes] == Window() + stored;
      Assoc(got, Window(), stored);
      put := put + stored;
      wptr := wptr + nbytes;
      return 1;
    }

    /** BIO_static_mem_consume: drops the oldest bytes. */
    method Consume(nbytes: nat) returns (rc: int)
      requires Valid()
      modifies this
      ensures Valid() && put == old(put)
      ensures rc == 1 <==> nbytes <= |old(Window())|
      ensures rc == 1 ==> Window() == old(Window())[nbytes..] && got == old(got) + old(Window())[..nbytes]
      ensures rc != 1 ==> rc == -1 && unchanged(this)
    {
      var avail := wptr - rptr;
      if nbytes > avail {
        return -1;
      }
      Advance(nbytes);
      return 1;
    }

    /** Every run of operations other than a reset: a first-in first-out queue that loses and reorders nothing. */
    method Run(steps: nat)
      requires Valid()
      modifies this, buf
      ensures Valid() && old(put) <= put && old(got) <= got && got + Window() == put
    {
      var left := steps;
      while left > 0
        invariant Valid() && old(put) <= put && old(got) <= got
      {
        left := left - 1;
        if {
          case true =>
            var size: nat :| true;
            var out := new byte[size];
            var _ := Read(out, size);
          case true => var data: seq<byte> := *; var _ := Write(data);
          case true => var _, _ := GetWriteBuf();
          case true => var n: nat := *; var _ := Produce(n);
          case true => var n: nat := *; var _ := Consume(n);
        }
      }
    }
  }
}
