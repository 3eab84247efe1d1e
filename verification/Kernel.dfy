/** The non-blocking descriptor and the retry loops of utils.pyx around its system calls. */
module Kernel {
  import opened Prelude

  datatype Errno = EAGAIN | EWOULDBLOCK | EINTR | OTHER

  /** What aiofn_write and aiofn_writev report: bytes taken, the -1 of a full socket buffer, or an exception. */
  datatype IoResult = Sent(n: nat) | WouldBlock | IoFailed(exn: Exn)

  /** What aiofn_read reports: bytes received, the 0 of end of stream, the -1 of an empty socket, or an exception. */
  datatype ReadResult<T> = Received(data: seq<T>) | EndOfStream | NoData | ReadFailed(exn: Exn)

  /** A descriptor whose peer, buffers and signals are chosen by an adversary. */
  class Descriptor<T(0)> {
    // Everything the kernel has accepted for transmission, and everything it has handed out.
    ghost var wire: seq<T>
    ghost var received: seq<T>
    // The wire at the moment the sending side was shut down.
    ghost var shutAt: Option<seq<T>>
    // The last answer to a write was short, and the kernel has not reported room since.
    ghost var full: bool
    // How often a write and a read have been attempted.
    ghost var sends: nat
    ghost var polls: nat
    // A read has reported the end of the stream.
    ghost var ended: bool
    // Signals interrupt finitely many system calls; nothing else bounds them.
    var interrupts: nat
    const isWindows: bool
    // A rehearsed kernel refuses writes until it has reported room, and takes them whole from then on: with it a run can
    // be shown, where otherwise runs are only allowed.
    const rehearsed: bool
    var roomy: bool

    constructor (isWindows: bool, interrupts: nat, rehearsed: bool)
      ensures wire == [] && received == [] && shutAt == None && !full && !ended
      ensures this.rehearsed == rehearsed && !roomy
    {
      this.isWindows, this.interrupts, this.rehearsed, roomy := isWindows, interrupts, rehearsed, false;
      wire, received, shutAt, full, sends, polls, ended := [], [], None, false, 0, 0, false;
    }

    /** send(2) / write(2) / sendmsg(2) / writev(2) on the given bytes. */
    method SendSys(buf: seq<T>) returns (rc: int, errno: Errno)
      modifies this`wire, this`interrupts, this`full, this`sends
      ensures -1 <= rc <= |buf| && sends == old(sends) + 1
      ensures full <==> if rc > 0 then rc < |buf| else old(full) || (rc == -1 && (errno == EAGAIN || errno == EWOULDBLOCK))
      ensures wire == old(wire) + buf[..Max(rc, 0)]
      ensures interrupts <= old(interrupts)
      ensures rc == -1 && errno == EINTR ==> interrupts < old(interrupts)
      ensures rehearsed && buf != [] ==> if roomy then rc == |buf| else rc == -1 && errno == EAGAIN
    {
      rc :| -1 <= rc <= |buf|;
      errno := *;
      if rehearsed && buf != [] {
        rc, errno := if roomy then |buf| else -1, EAGAIN;
      }
      if errno == EINTR {
        if interrupts == 0 {
          errno := OTHER;
        } else {
          interrupts := interrupts - 1;
        }
      }
      wire := wire + buf[..Max(rc, 0)];
      sends := sends + 1;
      full := if rc > 0 then rc < |buf| else full || (rc == -1 && (errno == EAGAIN || errno == EWOULDBLOCK));
    }

    /** aiofn_write: retries interrupted calls, and never reports that zero bytes were written. */
    method Write(buf: seq<T>) returns (r: IoResult)
      modifies this`wire, this`interrupts, this`full, this`sends
      ensures sends > old(sends)
      ensures (r.Sent? ==> (full <==> r.n < |buf|)) && (r.WouldBlock? ==> full) && (r.IoFailed? ==> full == old(full))
      ensures r.Sent? ==> 0 < r.n <= |buf| && wire == old(wire) + buf[..r.n]
      ensures !r.Sent? ==> wire == old(wire)
      ensures buf == [] ==> !r.Sent?
      ensures rehearsed && buf != [] ==> r == if roomy then Sent(|buf|) else WouldBlock
    {
      while true
        invariant wire == old(wire) && sends >= old(sends) && full == old(full)
        decreases interrupts
      {
        var rc, errno := SendSys(buf);
        if rc > 0 {
          return Sent(rc);
        }
        if rc == -1 {
          if errno == EWOULDBLOCK || errno == EAGAIN {
            return WouldBlock;
          }
          if !isWindows && errno == EINTR {
            continue;
          }
          return IoFailed(OsError);
        }
        if rc == 0 {
          return IoFailed(RuntimeErr);
        }
      }
    }

    /** aiofn_writev: one vectored call sends a prefix of the concatenated buffers. */
    method Writev(buffers: seq<seq<T>>) returns (r: IoResult)
      modifies this`wire, this`interrupts, this`full, this`sends
      ensures sends > old(sends)
      ensures (r.Sent? ==> (full <==> r.n < |Flatten(buffers)|)) && (r.WouldBlock? ==> full)
                && (r.IoFailed? ==> full == old(full))
      ensures r.Sent? ==> 0 < r.n <= |Flatten(buffers)| && wire == old(wire) + Flatten(buffers)[..r.n]
      ensures !r.Sent? ==> wire == old(wire)
    {
      while true
        invariant wire == old(wire) && sends >= old(sends) && full == old(full)
        decreases interrupts
      {
        var rc, errno := SendSys(Flatten(buffers));
        if rc > 0 {
          return Sent(rc);
        }
        if rc == -1 {
          if errno == EWOULDBLOCK || errno == EAGAIN {
            return WouldBlock;
          }
          if !isWindows && errno == EINTR {
            continue;
          }
          return IoFailed(OsError);
        }
        if rc == 0 {
          return IoFailed(RuntimeErr);
        }
      }
    }

    /** What the kernel says when it makes a descriptor writable. */
    method ReportRoom()
      modifies this`full, this`roomy
      ensures !full && roomy
    {
      full, roomy := false, true;
    }

    /** os.sendfile on a file range: zero means that the file ends before the range does. */
    method SendFile(range: seq<T>) returns (r: IoResult)
      modifies this`wire, this`full, this`sends
      ensures sends > old(sends) && (r.WouldBlock? ==> full)
      ensures r.Sent? ==> r.n <= |range| && wire == old(wire) + range[..r.n]
      ensures !r.Sent? ==> wire == old(wire)
    {
      sends := sends + 1;
      if * {
        r, full := WouldBlock, true;
      } else if * {
        var e: Exn :| e == OsError || e == ConnectionReset;
        r := IoFailed(e);
      } else {
        var n: nat :| n <= |range|;
        r, full := Sent(n), 0 < n < |range|;
        wire := wire + range[..n];
      }
    }

    /** recv(2) / read(2) into a buffer of `size` bytes, with the -1 results already told apart. */
    method RecvSys(size: nat) returns (rc: int, errno: Errno, data: seq<T>)
      modifies this`received, this`interrupts, this`polls, this`ended
      ensures ended <==> old(ended) || rc == 0
      ensures -1 <= rc <= size && |data| == Max(rc, 0) && polls == old(polls) + 1
      ensures received == old(received) + data
      ensures interrupts <= old(interrupts)
      ensures rc == -1 && errno == EINTR ==> interrupts < old(interrupts)
    {
      rc :| -1 <= rc <= size;
      errno := *;
      if errno == EINTR {
        if interrupts == 0 {
          errno := OTHER;
        } else {
          interrupts := interrupts - 1;
        }
      }
      var bytes: nat -> T := *;
      data := seq(Max(rc, 0), i requires 0 <= i => bytes(i));
      received, polls, ended := received + data, polls + 1, ended || rc == 0;
    }

    /** aiofn_read. */
    method Read(size: nat) returns (r: ReadResult<T>)
      modifies this`received, this`interrupts, this`polls, this`ended
      ensures ended <==> old(ended) || r.EndOfStream?
      ensures polls > old(polls)
      ensures r.Received? ==> 0 < |r.data| <= size && received == old(received) + r.data
      ensures !r.Received? ==> received == old(received)
    {
      while true
        invariant received == old(received) && polls >= old(polls) && ended == old(ended)
        decreases interrupts
      {
        var rc, errno, data := RecvSys(size);
        if rc > 0 {
          return Received(data);
        }
        if rc == 0 {
          return EndOfStream;
        }
        if errno == EWOULDBLOCK || errno == EAGAIN {
          return NoData;
        }
        if !isWindows && errno == EINTR {
          continue;
        }
        return ReadFailed(OsError);
      }
    }

    /** shutdown(SHUT_WR): may fail, as when the peer has reset the connection. */
    method ShutdownWrite() returns (err: Option<Exn>)
      modifies this`shutAt
      ensures err.Some? ==> shutAt == old(shutAt)
      ensures err.None? ==> shutAt == if old(shutAt).None? then Some(wire) else old(shutAt)
    {
      if * {
        return Some(OsError);
      }
      shutAt := if shutAt.None? then Some(wire) else shutAt;
      return None;
    }
  }
}
