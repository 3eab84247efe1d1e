/** The buffer helpers of utils.pyx: what a transport may keep a reference to, and what it must copy. */
module Buffers {
  import opened Prelude

  /** A bytes-like object: immutable bytes, a mutable bytearray, or a byte-format memoryview over either. */
  datatype Buffer =
    | Bytes(content: seq<byte>)
    | ByteArray(memory: array<byte>)
    | BytesView(base: seq<byte>, lo: nat, hi: nat)
    | ArrayView(memory: array<byte>, lo: nat, hi: nat)
  {
    predicate Valid() {
      match this
      case BytesView(base, lo, hi) => lo <= hi <= |base|
      case ArrayView(memory, lo, hi) => lo <= hi <= memory.Length
      case _ => true
    }

    function Memory(): set<object> {
      match this
      case ByteArray(memory) => {memory}
      case ArrayView(memory, _, _) => {memory}
      case _ => {}
    }

    /** The bytes that a system call would see now. */
    function Content(): seq<byte>
      requires Valid()
      reads Memory()
    {
      match this
      case Bytes(content) => content
      case ByteArray(memory) => memory[..]
      case BytesView(base, lo, hi) => base[lo..hi]
      case ArrayView(memory, lo, hi) => memory[lo..hi]
    }

    /** Nobody can change these bytes any more. */
    predicate Frozen() {
      Bytes? || BytesView?
    }

    /** The bytes of a frozen buffer, whatever the state of the heap. */
    function Fixed(): seq<byte>
      requires Valid() && Frozen()
    {
      match this
      case Bytes(content) => content
      case BytesView(base, lo, hi) => base[lo..hi]
    }
  }

  /** The lines of writelines() as they are at the time of the call. */
  function Contents(lines: seq<Buffer>): (data: seq<seq<byte>>)
    requires forall i :: 0 <= i < |lines| ==> lines[i].Valid()
    reads set i, o | 0 <= i < |lines| && o in lines[i].Memory() :: o
    ensures |data| == |lines| && forall i :: 0 <= i < |lines| ==> data[i] == lines[i].Content()
  {
    if lines == [] then [] else [lines[0].Content()] + Contents(lines[1..])
  }

  /** aiofn_maybe_copy_buffer. */
  function MaybeCopyBuffer(buffer: Buffer): (r: Buffer)
    requires buffer.Valid()
    reads buffer.Memory()
    ensures r.Valid() && r.Frozen() && r.Fixed() == buffer.Content()
    ensures buffer.Frozen() ==> r == buffer
  {
    match buffer
    case Bytes(_) => buffer
    case BytesView(_, _, _) => buffer
    case ByteArray(_) => Bytes(buffer.Content())
    case ArrayView(_, _, _) => Bytes(buffer.Content())
  }

  /** aiofn_maybe_copy_buffer_tail: a view of the last `size` bytes when the buffer is immutable, and otherwise a copy
      of the `size` bytes at the given pointer. No buffer at all means that only the pointer is known. */
  function MaybeCopyBufferTail(buffer: Option<Buffer>, rest: seq<byte>): (r: Buffer)
    requires buffer.Some? ==> buffer.value.Valid() && (buffer.value.Frozen() ==> |rest| <= |buffer.value.Fixed()|)
    ensures r.Valid() && r.Frozen() && |r.Fixed()| == |rest|
    ensures buffer.Some? && buffer.value.Frozen() ==>
              r.Fixed() == buffer.value.Fixed()[|buffer.value.Fixed()| - |rest|..]
    ensures buffer.None? || !buffer.value.Frozen() ==> r.Fixed() == rest
  {
    match buffer
    case Some(Bytes(content)) => BytesView(content, |content| - |rest|, |content|)
    case Some(BytesView(base, lo, hi)) => BytesView(base, hi - |rest|, hi)
    case _ => Bytes(rest)
  }

  /** The tail helper is right exactly when it is asked for the end of the buffer, as all its callers do. */
  lemma TailIsRest(buffer: Option<Buffer>, content: seq<byte>, sent: nat)
    requires sent <= |content|
    requires buffer.Some? ==> buffer.value.Valid() && (buffer.value.Frozen() ==> buffer.value.Fixed() == content)
    ensures MaybeCopyBufferTail(buffer, content[sent..]).Fixed() == content[sent..]
  {
  }

  /** Copy-on-queue isolation: what was queued is not affected by anything the caller does to its buffer later. */
  method Isolation(buffer: Buffer, memory: array<byte>, scribble: seq<byte>) returns (queued: Buffer)
    requires buffer.Valid() && |scribble| == memory.Length
    modifies memory
    ensures queued.Valid() && queued.Memory() == {}
    ensures queued.Content() == old(buffer.Content())
    ensures memory[..] == scribble
  {
    queued := MaybeCopyBuffer(buffer);
    ghost var was := queued.Fixed();
    forall i | 0 <= i < memory.Length {
      memory[i] := scribble[i];
    }
    assert queued.Content() == was;
  }
}
