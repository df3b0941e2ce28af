/** From frames to bytes and back: reading any part of the concatenated encodings, in any
    pieces, is handling the frames that part holds, one after the other. */
module Stream {
  import opened Wrappers
  import opened Bytes
  import opened FrameCodec
  import opened ReadLoop
  import opened Config

  /** All frames can be encoded under the sender's limit and fit the receiver's. */
  predicate Sendable(frames: seq<Frame>, crc: Checksum, outbound: int, inbound: int) {
    && (forall i :: 0 <= i < |frames| ==> Encode(frames[i], crc, outbound).Ok?)
    && 0 < outbound <= inbound
  }

  function Encoded(f: Frame, crc: Checksum, limit: int): seq<byte>
    requires Encode(f, crc, limit).Ok?
  {
    Encode(f, crc, limit).value
  }

  function Streamed(frames: seq<Frame>, crc: Checksum, limit: int): seq<byte>
    requires forall i :: 0 <= i < |frames| ==> Encode(frames[i], crc, limit).Ok?
  {
    if frames == [] then [] else Encoded(frames[0], crc, limit) + Streamed(frames[1..], crc, limit)
  }

  /** How many whole frames the first `n` bytes hold. */
  function Arrived(frames: seq<Frame>, n: nat): nat {
    if frames == [] || n < FrameSize(|frames[0].body|) then 0
    else 1 + Arrived(frames[1..], n - FrameSize(|frames[0].body|))
  }

  /** Handling frames one after the other until one ends the connection. */
  function Feed<S, E>(frames: seq<Frame>, done: Progress<S>, handler: Handler<S, E>): (Progress<S>, Option<Fault<E>>) {
    if frames == [] then (done, None)
    else
      var (next, h) := Deliver(done, frames[0], handler);
      if h.Some? then (next, Some(Handled(h.value))) else Feed(frames[1..], next, handler)
  }

  lemma {:induction false} ArrivedBound(frames: seq<Frame>, n: nat)
    ensures Arrived(frames, n) <= |frames|
  {
    if frames != [] && n >= FrameSize(|frames[0].body|) {
      ArrivedBound(frames[1..], n - FrameSize(|frames[0].body|));
    }
  }

  lemma {:induction false} ArrivedAll(frames: seq<Frame>, crc: Checksum, limit: int)
    requires forall i :: 0 <= i < |frames| ==> Encode(frames[i], crc, limit).Ok?
    ensures Arrived(frames, |Streamed(frames, crc, limit)|) == |frames|
  {
    if frames != [] {
      ArrivedAll(frames[1..], crc, limit);
    }
  }

  /** A proper beginning of an encoding needs more bytes. */
  lemma PartialNeedsMore(f: Frame, data: seq<byte>, crc: Checksum, outbound: int, inbound: int)
    requires 0 < outbound <= inbound && Encode(f, crc, outbound).Ok?
    requires data < Encoded(f, crc, outbound)
    ensures Decode(data, crc, inbound).NeedMore?
  {
    var e := Encoded(f, crc, outbound);
    DecodeOfEncode(f, crc, outbound, [], inbound);
    assert e + [] == e == data + e[|data|..];
    if !Decode(data, crc, inbound).NeedMore? {
      DecodeIsStable(data, e[|data|..], crc, inbound);
      EncodeOfDecode(data, crc, inbound);
      assert false;
    }
  }

  /** Some beginning of a stream: of its first encoding, or that encoding and some
      beginning of the rest. */
  lemma FirstOfStream(frames: seq<Frame>, data: seq<byte>, crc: Checksum, limit: int)
    requires frames != [] && forall i :: 0 <= i < |frames| ==> Encode(frames[i], crc, limit).Ok?
    requires data <= Streamed(frames, crc, limit)
    ensures var e := Encoded(frames[0], crc, limit);
      if |data| < |e| then data < e else data == e + data[|e|..] && data[|e|..] <= Streamed(frames[1..], crc, limit)
  {
    var e, rest := Encoded(frames[0], crc, limit), Streamed(frames[1..], crc, limit);
    assert Streamed(frames, crc, limit) == e + rest;
    if |data| < |e| {
      assert data == (e + rest)[..|data|] == e[..|data|];
    } else {
      assert data[..|e|] == (e + rest)[..|e|] == e;
      assert data[|e|..] == (e + rest)[|e|..|data|] == rest[..|data| - |e|];
    }
  }

  lemma {:induction false} ParseIsFeed<S, E>(frames: seq<Frame>, data: seq<byte>, done: Progress<S>,
        handler: Handler<S, E>, crc: Checksum, outbound: int, inbound: int)
    requires Sendable(frames, crc, outbound, inbound) && data <= Streamed(frames, crc, outbound)
    requires Arrived(frames, |data|) <= |frames|
    ensures var p := Parse(data, done, handler, crc, inbound);
      var fed := Feed(frames[..Arrived(frames, |data|)], done, handler);
      p.done == fed.0 && p.fault == fed.1
    decreases |frames|
  {
    if frames != [] {
      var e := Encoded(frames[0], crc, outbound);
      FirstOfStream(frames, data, crc, outbound);
      if |data| < |e| {
        PartialNeedsMore(frames[0], data, crc, outbound, inbound);
      } else {
        var rest, n := data[|e|..], Arrived(frames, |data|);
        DecodeOfEncode(frames[0], crc, outbound, rest, inbound);
        assert frames[..n][1..] == frames[1..][..n - 1];
        var (next, h) := Deliver(done, frames[0], handler);
        if h.None? {
          ParseIsFeed(frames[1..], rest, next, handler, crc, outbound, inbound);
        }
      }
    }
  }

  /** Whatever part of the stream has arrived, and however it was cut into reads, the loop
      has handled exactly the frames that arrived whole; the whole stream holds them all. */
  lemma StreamDelivers<S, E>(frames: seq<Frame>, chunks: seq<seq<byte>>, start: Progress<S>,
        handler: Handler<S, E>, crc: Checksum, outbound: int, inbound: int, maxCap: nat)
    requires Sendable(frames, crc, outbound, inbound) && Readable(chunks) && maxCap >= MaxPartial(inbound) + READ_CHUNK
    requires Concat(chunks) <= Streamed(frames, crc, outbound)
    ensures var n := Arrived(frames, |Concat(chunks)|);
      && n <= |frames| && (Concat(chunks) == Streamed(frames, crc, outbound) ==> n == |frames|)
      && var fed := Feed(frames[..n], start, handler);
         var o := Chunked([], chunks, start, handler, crc, inbound, maxCap);
         o.done == fed.0 && o.fault == fed.1
  {
    ArrivedBound(frames, |Concat(chunks)|);
    ArrivedAll(frames, crc, outbound);
    ChunkingInvariance(chunks, start, handler, crc, inbound, maxCap);
    ParseIsFeed(frames, Concat(chunks), start, handler, crc, outbound, inbound);
  }

  /** What each handled frame keeps holds after all that were handled, and what an error
      leaves holds after the one that ended the connection. */
  lemma {:induction false} FeedKeeps<S(!new), E>(frames: seq<Frame>, done: Progress<S>, handler: Handler<S, E>, at: nat,
      inv: (S, nat) -> bool, last: S -> bool)
    requires inv(done.state, at)
    requires forall s, i {:trigger inv(s, i)} :: at <= i < at + |frames| && inv(s, i) ==>
      var (n, h) := handler(s, frames[i - at]); if h.None? then inv(n, i + 1) else last(n)
    ensures var fed := Feed(frames, done, handler);
      if fed.1.None? then inv(fed.0.state, at + |frames|) else last(fed.0.state)
    decreases |frames|
  {
    if frames != [] {
      var (next, h) := Deliver(done, frames[0], handler);
      if h.None? {
        FeedKeeps(frames[1..], next, handler, at + 1, inv, last);
      }
    }
  }

  /** Handling each of the frames keeps `inv`, or ends with `last`. */
  ghost predicate Keeps<S(!new), E>(frames: seq<Frame>, handler: Handler<S, E>, inv: (S, nat) -> bool,
      last: S -> bool) {
    forall s, i: nat {:trigger inv(s, i)} :: i < |frames| && inv(s, i) ==>
      var (n, h) := handler(s, frames[i]); if h.None? then inv(n, i + 1) else last(n)
  }

  lemma PrefixKeeps<S(!new), E>(frames: seq<Frame>, k: nat, start: Progress<S>, handler: Handler<S, E>,
      inv: (S, nat) -> bool, last: S -> bool)
    requires k <= |frames| && inv(start.state, 0) && Keeps(frames, handler, inv, last)
    ensures var fed := Feed(frames[..k], start, handler); if fed.1.None? then inv(fed.0.state, k) else last(fed.0.state)
  {
    FeedKeeps(frames[..k], start, handler, 0, inv, last);
  }

  /** So it does for the read loop, over any part of the stream in any pieces. */
  lemma StreamKeeps<S(!new), E>(frames: seq<Frame>, chunks: seq<seq<byte>>, start: Progress<S>, handler: Handler<S, E>,
      crc: Checksum, outbound: int, inbound: int, maxCap: nat, inv: (S, nat) -> bool, last: S -> bool)
    requires Sendable(frames, crc, outbound, inbound) && Readable(chunks) && maxCap >= MaxPartial(inbound) + READ_CHUNK
    requires Concat(chunks) <= Streamed(frames, crc, outbound)
    requires inv(start.state, 0) && Keeps(frames, handler, inv, last)
    ensures var o := Chunked([], chunks, start, handler, crc, inbound, maxCap);
      if o.fault.None? then inv(o.done.state, Arrived(frames, |Concat(chunks)|)) else last(o.done.state)
    ensures Arrived(frames, |Concat(chunks)|) <= |frames|
  {
    StreamDelivers(frames, chunks, start, handler, crc, outbound, inbound, maxCap);
    PrefixKeeps(frames, Arrived(frames, |Concat(chunks)|), start, handler, inv, last);
  }
}
