/** The read loop: append a chunk to the buffer, then consume every whole frame in it. What
    a frame does to the connection is a parameter, a step function on some state that may
    end the connection with an error. */
module ReadLoop {
  import opened Wrappers
  import opened Bytes
  import opened FrameCodec
  import opened Buffer
  import opened Config

  type Handler<!S, +E> = (S, Frame) -> (S, Option<E>)

  datatype Fault<+E> = Codec(e: FrameCodec.Error) | Handled(h: E) | BufferFull | BadConsumeSize

  /** The connection's state and the frames delivered so far. */
  datatype Progress<+S> = Progress(state: S, frames: seq<Frame>)

  /** Where reading got to, the bytes still unread, and the error that ended it. */
  datatype Outcome<+S, +E> = Outcome(done: Progress<S>, left: seq<byte>, fault: Option<Fault<E>>)

  /** What is left over does not matter once the connection has ended. */
  predicate Same<S(==), E(==)>(a: Outcome<S, E>, b: Outcome<S, E>) {
    a.done == b.done && a.fault == b.fault && (a.fault.None? ==> a.left == b.left)
  }

  function Deliver<S, E>(done: Progress<S>, f: Frame, handler: Handler<S, E>): (Progress<S>, Option<E>) {
    var (s, h) := handler(done.state, f);
    (Progress(s, done.frames + [f]), h)
  }

  // ---- The whole stream at once ----

  function Parse<S, E>(data: seq<byte>, done: Progress<S>, handler: Handler<S, E>, crc: Checksum,
      limit: int): Outcome<S, E>
    decreases |data|
  {
    match Decode(data, crc, limit)
    case NeedMore => Outcome(done, data, None)
    case Bad(_, e) => Outcome(done, data, Some(Codec(e)))
    case Whole(f, n) =>
      var (next, h) := Deliver(done, f, handler);
      if h.Some? then Outcome(next, data, Some(Handled(h.value)))
      else Parse(data[n..], next, handler, crc, limit)
  }

  // ---- Chunk by chunk ----

  function Concat(chunks: seq<seq<byte>>): seq<byte> {
    if chunks == [] then [] else chunks[0] + Concat(chunks[1..])
  }

  function Chunked<S, E>(left: seq<byte>, chunks: seq<seq<byte>>, done: Progress<S>, handler: Handler<S, E>,
        crc: Checksum, limit: int, maxCap: nat): Outcome<S, E>
    decreases |chunks|
  {
    if chunks == [] then Outcome(done, left, None)
    else if |left| + |chunks[0]| > maxCap then Outcome(done, left, Some(BufferFull))
    else
      var p := Parse(left + chunks[0], done, handler, crc, limit);
      if p.fault.Some? then p
      else Chunked(p.left, chunks[1..], p.done, handler, crc, limit, maxCap)
  }

  /** Consumes the whole frames in the buffer. */
  method ProcessReadBuffer<S, E>(b: Buffer, start: Progress<S>, handler: Handler<S, E>, crc: Checksum, limit: int)
    returns (done: Progress<S>, fault: Option<Fault<E>>)
    requires b.Valid()
    modifies b`r
    ensures b.Valid()
    ensures var p := Parse(old(b.Contents()), start, handler, crc, limit);
      done == p.done && fault == p.fault && (fault.None? ==> b.Contents() == p.left)
    ensures fault != Some(BadConsumeSize)
  {
    ghost var whole := Parse(b.Contents(), start, handler, crc, limit);
    ParseFaults(b.Contents(), start, handler, crc, limit);
    done, fault := start, None;
    while true
      invariant b.Valid()
      invariant Parse(b.Contents(), done, handler, crc, limit) == whole
      decreases |b.Contents()|
    {
      var d := Decode(b.Contents(), crc, limit);
      if d.Bad? {
        fault := Some(Codec(d.error));
        return;
      }
      if d.NeedMore? {
        fault := None;
        return;
      }
      var (next, h) := Deliver(done, d.frame, handler);
      done := next;
      if h.Some? {
        fault := Some(Handled(h.value));
        return;
      }
      if d.consumed > |b.Contents()| {
        fault := Some(BadConsumeSize);
        return;
      }
      var skipped := b.Skip(d.consumed);
      if skipped.Some? {
        fault := Some(BadConsumeSize);
        return;
      }
    }
  }

  /** One read: append the chunk, then consume what is whole. */
  method ProcessChunk<S, E>(b: Buffer, chunk: seq<byte>, start: Progress<S>, handler: Handler<S, E>,
      crc: Checksum, limit: int)
    returns (done: Progress<S>, fault: Option<Fault<E>>)
    requires b.Valid()
    modifies b, b.buf
    ensures b.Valid() && (b.buf == old(b.buf) || fresh(b.buf))
    ensures if |old(b.Contents())| + |chunk| > b.maxCap then done == start && fault == Some(BufferFull)
      else
        var p := Parse(old(b.Contents()) + chunk, start, handler, crc, limit);
        done == p.done && fault == p.fault && (fault.None? ==> b.Contents() == p.left)
  {
    var full := b.Write(chunk);
    if full.Some? {
      return start, Some(BufferFull);
    }
    done, fault := ProcessReadBuffer(b, start, handler, crc, limit);
  }

  /** The loop over the reads of the connection; its check of the consumed size never fires. */
  method RunReadLoop<S, E>(b: Buffer, chunks: seq<seq<byte>>, start: Progress<S>, handler: Handler<S, E>,
        crc: Checksum, limit: int)
    returns (done: Progress<S>, fault: Option<Fault<E>>)
    requires b.Valid()
    modifies b, b.buf
    ensures b.Valid()
    ensures var p := Chunked(old(b.Contents()), chunks, start, handler, crc, limit, b.maxCap);
      done == p.done && fault == p.fault && (fault.None? ==> b.Contents() == p.left)
    ensures fault != Some(BadConsumeSize)
  {
    ghost var whole := Chunked(b.Contents(), chunks, start, handler, crc, limit, b.maxCap);
    ConsumeSizeIsRight(b.Contents(), chunks, start, handler, crc, limit, b.maxCap);
    done, fault := start, None;
    var i := 0;
    while i < |chunks|
      invariant i <= |chunks| && b.Valid() && (b.buf == old(b.buf) || fresh(b.buf))
      invariant fault.None? && Chunked(b.Contents(), chunks[i..], done, handler, crc, limit, b.maxCap) == whole
    {
      assert chunks[i..][0] == chunks[i] && chunks[i..][1..] == chunks[i + 1..];
      done, fault := ProcessChunk(b, chunks[i], done, handler, crc, limit);
      if fault.Some? {
        return;
      }
      i := i + 1;
    }
  }

  // ---- Chunking does not matter ----

  lemma {:induction false} FaultAppend<S, E>(data: seq<byte>, more: seq<byte>, done: Progress<S>,
        handler: Handler<S, E>, crc: Checksum, limit: int)
    requires Parse(data, done, handler, crc, limit).fault.Some?
    ensures Same(Parse(data + more, done, handler, crc, limit), Parse(data, done, handler, crc, limit))
    decreases |data|
  {
    var d := Decode(data, crc, limit);
    DecodeIsStable(data, more, crc, limit);
    if d.Whole? {
      var (next, h) := Deliver(done, d.frame, handler);
      if h.None? {
        assert (data + more)[d.consumed..] == data[d.consumed..] + more;
        FaultAppend(data[d.consumed..], more, next, handler, crc, limit);
      }
    }
  }

  lemma {:induction false} CleanAppend<S, E>(data: seq<byte>, more: seq<byte>, done: Progress<S>,
        handler: Handler<S, E>, crc: Checksum, limit: int)
    requires Parse(data, done, handler, crc, limit).fault.None?
    ensures var p := Parse(data, done, handler, crc, limit);
      Parse(data + more, done, handler, crc, limit) == Parse(p.left + more, p.done, handler, crc, limit)
    decreases |data|
  {
    var d := Decode(data, crc, limit);
    if d.Whole? {
      DecodeIsStable(data, more, crc, limit);
      assert (data + more)[d.consumed..] == data[d.consumed..] + more;
      CleanAppend(data[d.consumed..], more, Deliver(done, d.frame, handler).0, handler, crc, limit);
    }
  }

  lemma {:induction false} LeftIsPartial<S, E>(data: seq<byte>, done: Progress<S>, handler: Handler<S, E>,
        crc: Checksum, limit: int)
    requires Parse(data, done, handler, crc, limit).fault.None?
    ensures Decode(Parse(data, done, handler, crc, limit).left, crc, limit).NeedMore?
    decreases |data|
  {
    var d := Decode(data, crc, limit);
    if d.Whole? {
      LeftIsPartial(data[d.consumed..], Deliver(done, d.frame, handler).0, handler, crc, limit);
    }
  }

  /** The longest a partial frame can be. */
  function MaxPartial(limit: int): nat
    requires limit > 0
  {
    Max(HEADER, Min(limit, MAX_INT32)) - 1
  }

  /** What the connection can read: pieces of at most one read chunk, none of them empty. */
  predicate Readable(chunks: seq<seq<byte>>) {
    forall i :: 0 <= i < |chunks| ==> 0 < |chunks[i]| <= READ_CHUNK
  }

  lemma {:induction false} ChunkedFrom<S, E>(left: seq<byte>, chunks: seq<seq<byte>>, done: Progress<S>,
        handler: Handler<S, E>, crc: Checksum, limit: int, maxCap: nat)
    requires limit > 0 && maxCap >= MaxPartial(limit) + READ_CHUNK && Readable(chunks)
    requires Decode(left, crc, limit).NeedMore?
    ensures Same(Chunked(left, chunks, done, handler, crc, limit, maxCap), Parse(left
          + Concat(chunks), done, handler, crc, limit))
    decreases |chunks|
  {
    if chunks == [] {
      assert left + Concat(chunks) == left;
    } else {
      var data, more := left + chunks[0], Concat(chunks[1..]);
      assert left + Concat(chunks) == data + more;
      var p := Parse(data, done, handler, crc, limit);
      if p.fault.Some? {
        FaultAppend(data, more, done, handler, crc, limit);
      } else {
        CleanAppend(data, more, done, handler, crc, limit);
        LeftIsPartial(data, done, handler, crc, limit);
        ChunkedFrom(p.left, chunks[1..], p.done, handler, crc, limit, maxCap);
      }
    }
  }

  /** However the stream is cut into reads, the loop delivers the frames, the state and the
      final error of a parse of the whole stream. */
  lemma ChunkingInvariance<S, E>(chunks: seq<seq<byte>>, start: Progress<S>, handler: Handler<S, E>,
        crc: Checksum, limit: int, maxCap: nat)
    requires limit > 0 && maxCap >= MaxPartial(limit) + READ_CHUNK && Readable(chunks)
    ensures Same(Chunked([], chunks, start, handler, crc, limit, maxCap),
                 Parse(Concat(chunks), start, handler, crc, limit))
  {
    ChunkedFrom([], chunks, start, handler, crc, limit, maxCap);
    assert [] + Concat(chunks) == Concat(chunks);
  }

  /** A parse never runs out of buffer and never consumes more than there is. */
  lemma {:induction false} ParseFaults<S, E>(data: seq<byte>, done: Progress<S>, handler: Handler<S, E>,
        crc: Checksum, limit: int)
    ensures var fault := Parse(data, done, handler, crc, limit).fault;
      fault != Some(BufferFull) && fault != Some(BadConsumeSize)
    decreases |data|
  {
    var d := Decode(data, crc, limit);
    if d.Whole? {
      ParseFaults(data[d.consumed..], Deliver(done, d.frame, handler).0, handler, crc, limit);
    }
  }

  /** The check of the consumed size in the loop never fires. */
  lemma {:induction false} ConsumeSizeIsRight<S, E>(left: seq<byte>, chunks: seq<seq<byte>>,
        done: Progress<S>, handler: Handler<S, E>, crc: Checksum, limit: int, maxCap: nat)
    ensures Chunked(left, chunks, done, handler, crc, limit, maxCap).fault != Some(BadConsumeSize)
    decreases |chunks|
  {
    if chunks != [] && |left| + |chunks[0]| <= maxCap {
      ParseFaults(left + chunks[0], done, handler, crc, limit);
      var p := Parse(left + chunks[0], done, handler, crc, limit);
      ConsumeSizeIsRight(p.left, chunks[1..], p.done, handler, crc, limit, maxCap);
    }
  }
}
