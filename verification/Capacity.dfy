/** When the receive buffer is large enough: exactly when its maximum leaves room for the
    longest partial frame and one read chunk. */
module Capacity {
  import opened Wrappers
  import opened Bytes
  import opened Config
  import opened FrameCodec
  import opened ReadLoop
  import opened Stream

  /** Reading never fills a buffer with that room, whatever arrives. */
  lemma RoomIsEnough<S, E>(chunks: seq<seq<byte>>, start: Progress<S>, handler: Handler<S, E>, crc: Checksum,
      limit: int, maxCap: nat)
    requires limit > 0 && maxCap >= MaxPartial(limit) + READ_CHUNK && Readable(chunks)
    ensures Chunked([], chunks, start, handler, crc, limit, maxCap).fault != Some(BufferFull)
  {
    ChunkingInvariance(chunks, start, handler, crc, limit, maxCap);
    ParseFaults(Concat(chunks), start, handler, crc, limit);
  }

  function Zeros(n: nat): seq<byte> {
    seq(n, _ => 0)
  }

  /** The longest business frame the limit admits, and the shortest. */
  function Longest(limit: int): Frame
    requires limit >= HEADER
  {
    Frame(1, 0, 0, 0, 0, Zeros(MaxPartial(limit) + 1 - HEADER))
  }

  function Shortest(): Frame { Frame(1, 0, 0, 0, 0, []) }

  /** The longest frame, and short ones enough to fill a read chunk after it. */
  function Traffic(limit: int): seq<Frame>
    requires limit >= HEADER
  {
    [Longest(limit)] + seq(READ_CHUNK, _ => Shortest())
  }

  lemma TrafficSendable(crc: Checksum, limit: int)
    requires limit >= HEADER
    ensures Sendable(Traffic(limit), crc, limit, limit)
  {
  }

  lemma {:induction false} StreamIsLong(frames: seq<Frame>, crc: Checksum, limit: int)
    requires forall i :: 0 <= i < |frames| ==> Encode(frames[i], crc, limit).Ok?
    ensures |Streamed(frames, crc, limit)| >= |frames|
  {
    if frames != [] {
      StreamIsLong(frames[1..], crc, limit);
    }
  }

  /** Enough bytes, of which no proper beginning of the longest frame is whole. */
  ghost predicate Stalls(all: seq<byte>, crc: Checksum, limit: int)
    requires limit > 0
  {
    && |all| >= MaxPartial(limit) + READ_CHUNK
    && forall n: nat {:trigger all[..n]} :: n <= MaxPartial(limit) ==> Decode(all[..n], crc, limit).NeedMore?
  }

  lemma TrafficStalls(crc: Checksum, limit: int)
    requires limit >= HEADER
    ensures Sendable(Traffic(limit), crc, limit, limit)
    ensures Stalls(Streamed(Traffic(limit), crc, limit), crc, limit)
  {
    TrafficSendable(crc, limit);
    StreamIsLong(Traffic(limit)[1..], crc, limit);
    var all, e := Streamed(Traffic(limit), crc, limit), Encoded(Longest(limit), crc, limit);
    assert all == e + Streamed(Traffic(limit)[1..], crc, limit);
    forall n: nat {:trigger all[..n]} | n <= MaxPartial(limit)
      ensures Decode(all[..n], crc, limit).NeedMore?
    {
      assert all[..n] == e[..n];
      PartialNeedsMore(Longest(limit), e[..n], crc, limit, limit);
    }
  }

  /** Bytes from k, one a read up to byte n, and then a full read chunk. */
  function Drip(k: nat, n: nat, all: seq<byte>): seq<seq<byte>>
    requires k <= n && n + READ_CHUNK <= |all|
    decreases n - k
  {
    if k == n then [all[n..n + READ_CHUNK]] else [[all[k]]] + Drip(k + 1, n, all)
  }

  lemma {:induction false} DripReadable(k: nat, n: nat, all: seq<byte>)
    requires k <= n && n + READ_CHUNK <= |all|
    ensures Readable(Drip(k, n, all)) && Concat(Drip(k, n, all)) == all[k..n + READ_CHUNK]
    decreases n - k
  {
    var d := Drip(k, n, all);
    if k < n {
      DripReadable(k + 1, n, all);
      assert d[0] == [all[k]] && d[1..] == Drip(k + 1, n, all);
      assert [all[k]] + all[k + 1..n + READ_CHUNK] == all[k..n + READ_CHUNK];
    } else {
      assert d[1..] == [] && Concat(d) == d[0] + [];
    }
  }

  lemma {:induction false} DripOverflows<S, E>(k: nat, all: seq<byte>, done: Progress<S>,
      handler: Handler<S, E>, crc: Checksum, limit: int, maxCap: nat)
    requires limit > 0 && k <= MaxPartial(limit) && maxCap < MaxPartial(limit) + READ_CHUNK && Stalls(all, crc, limit)
    ensures Chunked(all[..k], Drip(k, MaxPartial(limit), all), done, handler, crc, limit, maxCap).fault
         == Some(BufferFull)
    decreases MaxPartial(limit) - k
  {
    if k < MaxPartial(limit) {
      assert all[..k] + [all[k]] == all[..k + 1];
      DripOverflows(k + 1, all, done, handler, crc, limit, maxCap);
      assert Drip(k, MaxPartial(limit), all)[1..] == Drip(k + 1, MaxPartial(limit), all);
    }
  }

  /** A part of the stream of legal frames arrived in these reads. */
  ghost predicate Legal(frames: seq<Frame>, chunks: seq<seq<byte>>, crc: Checksum, limit: int) {
    && Sendable(frames, crc, limit, limit) && Readable(chunks)
    && Concat(chunks) <= Streamed(frames, crc, limit)
  }

  /** With a limit under which frames can be sent at all, reading never fills the buffer with
      legal traffic exactly when it leaves room for the longest partial frame and one read
      chunk; with less room there is legal traffic that fills it. */
  lemma EnoughCapacity<S, E>(start: Progress<S>, handler: Handler<S, E>, crc: Checksum, limit: int, maxCap: nat)
    requires limit >= HEADER
    ensures (forall frames, chunks :: Legal(frames, chunks, crc, limit) ==>
               Chunked([], chunks, start, handler, crc, limit, maxCap).fault != Some(BufferFull))
       <==> maxCap >= MaxPartial(limit) + READ_CHUNK
  {
    if maxCap >= MaxPartial(limit) + READ_CHUNK {
      forall frames, chunks | Legal(frames, chunks, crc, limit)
        ensures Chunked([], chunks, start, handler, crc, limit, maxCap).fault != Some(BufferFull)
      {
        RoomIsEnough(chunks, start, handler, crc, limit, maxCap);
      }
    } else {
      TrafficStalls(crc, limit);
      var all, n := Streamed(Traffic(limit), crc, limit), MaxPartial(limit);
      var d := Drip(0, n, all);
      DripReadable(0, n, all);
      DripOverflows(0, all, start, handler, crc, limit, maxCap);
      assert all[..0] == [] && all[0..n + READ_CHUNK] == all[..n + READ_CHUNK];
      assert Legal(Traffic(limit), d, crc, limit);
    }
  }

  /** Every normalized configuration under which frames can be sent has that room. */
  lemma NormalizedCapacity(readBufferCap: int, inbound: int)
    requires HEADER <= NormalLimit(inbound)
    ensures NormalReadCap(readBufferCap, inbound) > MaxPartial(NormalLimit(inbound)) + READ_CHUNK
  {
  }

  /** A limit below a header lets nothing through in either direction; from there on frames
      can be sent. */
  lemma FramesNeedAHeader(limit: int)
    requires limit > 0
    ensures limit >= HEADER <==> exists f: Frame, crc: Checksum :: Encode(f, crc, limit).Ok?
    ensures limit >= HEADER <==> exists data: seq<byte>, crc: Checksum :: Decode(data, crc, limit).Whole?
  {
    if limit >= HEADER {
      var crc: Checksum := (_: seq<byte>) => 0;
      var e := Encode(Shortest(), crc, limit);
      assert e.Ok?;
      DecodeOfEncode(Shortest(), crc, limit, [], limit);
      assert Decode(e.value + [], crc, limit).Whole?;
    }
  }
}
